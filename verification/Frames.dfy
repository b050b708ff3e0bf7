/** The length-prefixed wire format of src/ipc.go: [uint32 LE length][uint8 kind][body]. */
module Frames {
  import opened Sequences

  type byte = b: int | 0 <= b < 256

  const KIND_CONTROL: byte := 0x01
  const KIND_MIDI: byte := 0x02
  const MAX_FRAME_SIZE := 0x10_0000
  const UINT32 := 0x1_0000_0000

  datatype Frame = Frame(kind: byte, body: seq<byte>)

  // ---------- little-endian words ----------

  function PutUint32(n: nat): (s: seq<byte>)
    requires n < UINT32
    ensures |s| == 4
  {
    [n % 0x100, n / 0x100 % 0x100, n / 0x1_0000 % 0x100, n / 0x100_0000]
  }

  function Uint32(s: seq<byte>): (n: nat)
    requires |s| >= 4
    ensures n < UINT32
  {
    var b0: int, b1: int, b2: int, b3: int := s[0], s[1], s[2], s[3];
    b0 + 0x100 * b1 + 0x1_0000 * b2 + 0x100_0000 * b3
  }

  lemma Uint32OfPut(n: nat, rest: seq<byte>)
    requires n < UINT32
    ensures Uint32(PutUint32(n) + rest) == n
  {
    var q := n / 0x100;
    assert n == 0x100 * q + n % 0x100;
    assert q == 0x100 * (q / 0x100) + q % 0x100;
    assert n / 0x1_0000 == q / 0x100;
    var t := n / 0x1_0000;
    assert t == 0x100 * (t / 0x100) + t % 0x100;
    assert n / 0x100_0000 == t / 0x100;
  }

  lemma PutOfUint32(s: seq<byte>)
    requires |s| >= 4
    ensures PutUint32(Uint32(s)) == s[..4]
  {
    var n := Uint32(s);
    var b0: int, b1: int, b2: int, b3: int := s[0], s[1], s[2], s[3];
    var t := b2 + 0x100 * b3;
    assert n == b0 + 0x100 * (b1 + 0x100 * t);
    assert n / 0x100 == b1 + 0x100 * t;
    assert n / 0x1_0000 == t;
    assert n / 0x100_0000 == b3;
  }

  // ---------- one frame ----------

  /** encodeFrame refuses a frame whose kind and body exceed the cap. */
  predicate Fits(body: seq<byte>) {
    1 + |body| <= MAX_FRAME_SIZE
  }

  function Encode(f: Frame): (s: seq<byte>)
    requires Fits(f.body)
    ensures |s| == 5 + |f.body|
  {
    PutUint32(1 + |f.body|) + [f.kind] + f.body
  }

  /** What readFrame returns on a stream that ends after the given bytes. */
  datatype ReadOutcome =
    | Got(frame: Frame, rest: seq<byte>)
    | EndOfFile
    | UnexpectedEndOfFile
    | InvalidLength(length: nat)

  /** io.ReadFull reports EndOfFile exactly when it got no byte at all, for the payload too. */
  function Short(available: nat): ReadOutcome {
    if available == 0 then EndOfFile else UnexpectedEndOfFile
  }

  function Read(s: seq<byte>): ReadOutcome {
    if |s| < 4 then Short(|s|)
    else
      var length := Uint32(s);
      if length == 0 || length > MAX_FRAME_SIZE then InvalidLength(length)
      else if |s| < 4 + length then Short(|s| - 4)
      else Got(Frame(s[4], s[5..4 + length]), s[4 + length..])
  }

  lemma ReadOfEncode(f: Frame, rest: seq<byte>)
    requires Fits(f.body)
    ensures Read(Encode(f) + rest) == Got(f, rest)
  {
    var s := Encode(f) + rest;
    assert s == PutUint32(1 + |f.body|) + ([f.kind] + f.body + rest);
    Uint32OfPut(1 + |f.body|, [f.kind] + f.body + rest);
    assert s[5..5 + |f.body|] == f.body;
    assert s[5 + |f.body|..] == rest;
  }

  /** readFrame succeeds on exactly the streams that start with an encoded frame, so the encoding is canonical. */
  lemma ReadIsCanonical(s: seq<byte>, f: Frame, rest: seq<byte>)
    ensures Read(s) == Got(f, rest) <==> Fits(f.body) && s == Encode(f) + rest
  {
    if Read(s) == Got(f, rest) {
      PutOfUint32(s);
      var n := Uint32(s);
      assert s == s[..4] + [s[4]] + s[5..4 + n] + s[4 + n..];
    }
    if Fits(f.body) && s == Encode(f) + rest {
      ReadOfEncode(f, rest);
    }
  }

  /** A proper prefix of an encoded frame is neither a frame nor an invalid length. */
  lemma ReadOfPartial(f: Frame, n: nat)
    requires Fits(f.body) && n < |Encode(f)|
    ensures Read(Encode(f)[..n]) in {EndOfFile, UnexpectedEndOfFile}
  {
    if n >= 4 {
      var s := Encode(f)[..n];
      assert s == PutUint32(1 + |f.body|) + Encode(f)[4..n];
      Uint32OfPut(1 + |f.body|, Encode(f)[4..n]);
    }
  }

  // ---------- streams of frames ----------

  /** Every frame of a stream; open is false once an invalid length has been met. */
  datatype Decoded = Decoded(frames: seq<Frame>, rest: seq<byte>, open: bool)

  /** readFrame repeated until it fails. */
  function Decode(s: seq<byte>): Decoded
    decreases |s|
  {
    match Read(s)
    case Got(f, rest) =>
      var d := Decode(rest);
      d.(frames := [f] + d.frames)
    case InvalidLength(_) => Decoded([], s, false)
    case _ => Decoded([], s, true)
  }

  ghost predicate AllFit(fs: seq<Frame>) {
    forall k :: 0 <= k < |fs| ==> Fits(fs[k].body)
  }

  function EncodeAll(fs: seq<Frame>): seq<byte>
    requires AllFit(fs)
  {
    if fs == [] then [] else Encode(fs[0]) + EncodeAll(fs[1..])
  }

  lemma EncodeAllCons(f: Frame, fs: seq<Frame>)
    requires Fits(f.body) && AllFit(fs)
    ensures AllFit([f] + fs) && EncodeAll([f] + fs) == Encode(f) + EncodeAll(fs)
  {
    assert ([f] + fs)[1..] == fs;
  }

  lemma DecodeOfFirst(s: seq<byte>)
    requires Read(s).Got?
    ensures var d := Decode(Read(s).rest);
            Decode(s) == Decoded([Read(s).frame] + d.frames, d.rest, d.open)
  {
  }

  /** Decoding concatenated frames returns exactly those frames, whatever incomplete bytes follow. */
  lemma {:induction false} DecodeOfEncodeAll(fs: seq<Frame>, tail: seq<byte>)
    requires AllFit(fs)
    ensures var d := Decode(tail);
            Decode(EncodeAll(fs) + tail) == Decoded(fs + d.frames, d.rest, d.open)
  {
    if fs == [] {
      assert EncodeAll(fs) + tail == tail;
      assert fs + Decode(tail).frames == Decode(tail).frames;
    } else {
      var rest := EncodeAll(fs[1..]) + tail;
      assert EncodeAll(fs) + tail == Encode(fs[0]) + rest;
      ReadOfEncode(fs[0], rest);
      DecodeOfFirst(Encode(fs[0]) + rest);
      DecodeOfEncodeAll(fs[1..], tail);
      HeadAndTail(fs);
      Associative([fs[0]], fs[1..], Decode(tail).frames);
    }
  }

  lemma StreamRoundTrip(fs: seq<Frame>)
    requires AllFit(fs)
    ensures Decode(EncodeAll(fs)) == Decoded(fs, [], true)
  {
    DecodeOfEncodeAll(fs, []);
    assert EncodeAll(fs) + [] == EncodeAll(fs);
    assert fs + [] == fs;
  }

  /** On arbitrary bytes, re-encoding what was decoded gives back exactly the bytes consumed,
      and what is left starts with no complete frame. */
  lemma {:induction false} StreamIsCanonical(s: seq<byte>)
    ensures var d := Decode(s);
            && AllFit(d.frames)
            && s == EncodeAll(d.frames) + d.rest
            && !Read(d.rest).Got?
            && (d.open <==> !Read(d.rest).InvalidLength?)
    decreases |s|
  {
    match Read(s)
    case Got(f, rest) =>
      ReadIsCanonical(s, f, rest);
      StreamIsCanonical(rest);
      DecodeOfFirst(s);
      var d := Decode(rest);
      EncodeAllCons(f, d.frames);
      Associative(Encode(f), EncodeAll(d.frames), d.rest);
    case _ =>
      assert [] + s == s;
  }

  /** The verdict on a stream only ever changes by appending, never by what came before. */
  lemma ReadAppend(a: seq<byte>, b: seq<byte>)
    ensures Read(a).Got? ==> Read(a + b) == Got(Read(a).frame, Read(a).rest + b)
    ensures Read(a).InvalidLength? ==> Read(a + b) == Read(a)
  {
    if Read(a).Got? {
      ReadIsCanonical(a, Read(a).frame, Read(a).rest);
      assert a + b == Encode(Read(a).frame) + (Read(a).rest + b);
      ReadOfEncode(Read(a).frame, Read(a).rest + b);
    }
  }

  /** Decoding a + b continues from where decoding a stopped. */
  lemma {:induction false} DecodeAppend(a: seq<byte>, b: seq<byte>)
    ensures var d := Decode(a);
            Decode(a + b) == if d.open
                             then var e := Decode(d.rest + b); e.(frames := d.frames + e.frames)
                             else d.(rest := d.rest + b)
    decreases |a|
  {
    ReadAppend(a, b);
    match Read(a)
    case Got(f, rest) =>
      DecodeOfFirst(a);
      DecodeOfFirst(a + b);
      DecodeAppend(rest, b);
      var d := Decode(rest);
      if d.open {
        var e := Decode(d.rest + b);
        Associative([f], d.frames, e.frames);
      }
    case InvalidLength(_) =>
    case _ =>
      var e := Decode(a + b);
      assert [] + e.frames == e.frames;
  }

  /** A prefix of a frame stream decodes to a prefix of the frames and is never called invalid;
      what is left over is the beginning of the next frame. */
  lemma {:induction false} DecodeOfPrefix(w: seq<byte>, fs: seq<Frame>)
    requires AllFit(fs) && w <= EncodeAll(fs)
    ensures var d := Decode(w);
            && d.open
            && d.frames <= fs
            && (d.frames == fs ==> d.rest == [])
            && (d.frames != fs ==> d.rest < Encode(fs[|d.frames|]))
    decreases |fs|
  {
    if fs == [] {
    } else if |w| < |Encode(fs[0])| {
      assert w == Encode(fs[0])[..|w|];
      ReadOfPartial(fs[0], |w|);
    } else {
      var rest := w[|Encode(fs[0])|..];
      assert w == Encode(fs[0]) + rest;
      assert rest <= EncodeAll(fs[1..]);
      ReadOfEncode(fs[0], rest);
      DecodeOfFirst(w);
      DecodeOfPrefix(rest, fs[1..]);
      HeadAndTail(fs);
    }
  }

  // ---------- encodeFrame, as the source writes it ----------

  /** None stands for the "frame too large" error. */
  method EncodeFrame(kind: byte, body: seq<byte>) returns (r: Option<array<byte>>)
    ensures r.Some? <==> 1 + |body| <= 0x10_0000
    ensures r.Some? ==> fresh(r.value) && Fits(body) && r.value[..] == Encode(Frame(kind, body))
  {
    var total := 1 + |body|;
    if total > MAX_FRAME_SIZE {
      return None;
    }
    var frame := new byte[4 + total];
    var header := PutUint32(total);
    frame[0], frame[1], frame[2], frame[3] := header[0], header[1], header[2], header[3];
    frame[4] := kind;
    for i := 0 to |body|
      invariant frame[..5] == header + [kind]
      invariant frame[5..5 + i] == body[..i]
    {
      frame[5 + i] := body[i];
    }
    assert frame[..] == frame[..5] + frame[5..5 + |body|];
    return Some(frame);
  }
}
