/** readFrame and the blocking consumers under docs/examples: loops over short reads. */
module Consumers {
  import opened Sequences
  import opened Frames

  /** A connected socket; incoming is every byte that will still arrive before the stream ends, by close or by error. */
  class Socket {
    var incoming: seq<byte>

    /** Some of the available bytes, at least one unless the stream is over. */
    method Recv(n: nat) returns (chunk: seq<byte>)
      requires n > 0
      modifies this
      ensures |chunk| <= n && old(incoming) == chunk + incoming
      ensures chunk == [] <==> old(incoming) == []
    {
      if incoming == [] {
        return [];
      }
      var k :| 1 <= k <= n && k <= |incoming|;
      chunk, incoming := incoming[..k], incoming[k..];
    }

    /** The same into buf[offset..offset + count]; 0 is the end of the stream. */
    method RecvInto(buf: array<byte>, offset: nat, count: nat) returns (n: nat)
      requires count > 0 && offset + count <= buf.Length
      modifies this, buf
      ensures n <= count && old(incoming) == buf[offset..offset + n] + incoming
      ensures n == 0 <==> old(incoming) == []
      ensures buf[..offset] == old(buf[..offset]) && buf[offset + n..] == old(buf[offset + n..])
    {
      var chunk := Recv(count);
      n := |chunk|;
      forall k | 0 <= k < n {
        buf[offset + k] := chunk[k];
      }
      assert buf[offset..offset + n] == chunk;
    }
  }

  // ---------- src/ipc.go ----------

  /** io.ReadFull: the count read so far tells a clean end from an unexpected one. */
  method ReadFull(r: Socket, n: nat) returns (buf: seq<byte>)
    modifies r
    ensures buf == old(r.incoming)[..Min(n, |old(r.incoming)|)]
    ensures r.incoming == old(r.incoming)[|buf|..]
  {
    buf := [];
    while |buf| < n
      invariant |buf| <= n && buf + r.incoming == old(r.incoming)
      decreases n - |buf|
    {
      var chunk := r.Recv(n - |buf|);
      if chunk == [] {
        break;
      }
      Associative(buf, chunk, r.incoming);
      buf := buf + chunk;
    }
  }

  method ReadFrame(r: Socket) returns (o: ReadOutcome)
    modifies r
    ensures o == Read(old(r.incoming))
    ensures o.Got? ==> r.incoming == o.rest
  {
    ghost var s := r.incoming;
    var hdr := ReadFull(r, 4);
    if |hdr| < 4 {
      return if |hdr| == 0 then EndOfFile else UnexpectedEndOfFile;
    }
    var length := Uint32(hdr);
    if length == 0 {
      return InvalidLength(length);
    }
    if length > MAX_FRAME_SIZE {
      return InvalidLength(length);
    }
    var buf := ReadFull(r, length);
    if |buf| < length {
      return if |buf| == 0 then EndOfFile else UnexpectedEndOfFile;
    }
    assert buf == s[4..4 + length] && buf[1..] == s[5..4 + length];
    return Got(Frame(buf[0], buf[1..]), r.incoming);
  }

  // ---------- the four ways the examples assemble a length ----------

  function Pow2(k: nat): (p: nat)
    ensures p > 0
  {
    if k == 0 then 1 else 2 * Pow2(k - 1)
  }

  /** The operators | and <<, on unsigned values wide enough to hold the result. */
  function Or(a: nat, b: nat): nat {
    if a == 0 && b == 0 then 0
    else 2 * Or(a / 2, b / 2) + (if a % 2 == 1 || b % 2 == 1 then 1 else 0)
  }

  function Shl(a: nat, k: nat): nat {
    a * Pow2(k)
  }

  lemma {:induction false} OrZero(b: nat)
    ensures Or(0, b) == b
  {
    if b > 0 {
      OrZero(b / 2);
    }
  }

  lemma {:induction false} OrDisjoint(a: nat, b: nat, k: nat)
    requires a < Pow2(k)
    ensures Or(a, Shl(b, k)) == a + Shl(b, k)
  {
    if k == 0 {
      assert a == 0 && Shl(b, k) == b;
      OrZero(b);
    } else {
      var half := Shl(b, k - 1);
      assert Shl(b, k) == 2 * half;
      OrDisjoint(a / 2, b, k - 1);
    }
  }

  /** b0 | b1 << 8 | b2 << 16 | b3 << 24, grouped to the left. */
  function ShiftOr(s: seq<byte>): nat
    requires |s| >= 4
  {
    Or(Or(Or(s[0], Shl(s[1], 8)), Shl(s[2], 16)), Shl(s[3], 24))
  }

  lemma PowersOfBytes()
    ensures Pow2(8) == 0x100 && Pow2(16) == 0x1_0000 && Pow2(24) == 0x100_0000
  {
    assert Pow2(8) == 0x100;
    assert Pow2(12) == 0x1000;
    assert Pow2(16) == 0x1_0000;
    assert Pow2(20) == 0x10_0000;
  }

  lemma ShiftedBytes(b: byte)
    ensures Shl(b, 8) == 0x100 * b && Shl(b, 16) == 0x1_0000 * b && Shl(b, 24) == 0x100_0000 * b
  {
    PowersOfBytes();
  }

  lemma ShiftOrIsUint32(s: seq<byte>)
    requires |s| >= 4
    ensures ShiftOr(s) == Uint32(s)
  {
    PowersOfBytes();
    ShiftedBytes(s[1]);
    ShiftedBytes(s[2]);
    ShiftedBytes(s[3]);
    var b0: int, b1: int, b2: int, b3: int := s[0], s[1], s[2], s[3];
    OrDisjoint(b0, b1, 8);
    OrDisjoint(b0 + 0x100 * b1, b2, 16);
    OrDisjoint(b0 + 0x100 * b1 + 0x1_0000 * b2, b3, 24);
  }

  /** The C++ example assembles the length byte by byte. */
  method AssembleLength(header: array<byte>) returns (length: nat)
    requires header.Length == 4
    ensures length == Uint32(header[..])
  {
    ShiftOrIsUint32(header[..]);
    length := Or(Or(Or(header[0], Shl(header[1], 8)), Shl(header[2], 16)), Shl(header[3], 24));
  }

  /** A byte as Java sees it: signed, in two's complement. */
  function Signed(b: byte): int {
    if b < 0x80 then b else b - 0x100
  }

  /** x & 0xFFL keeps the low eight bits of the sign-extended value. */
  function Mask(x: int): (r: nat)
    ensures r < 0x100
  {
    x % 0x100
  }

  lemma MaskUndoesSign(b: byte)
    ensures Mask(Signed(b)) == b
  {
  }

  /** The Java example masks each byte before it shifts. */
  method AssembleMasked(header: array<byte>) returns (length: nat)
    requires header.Length == 4
    ensures length == Uint32(header[..])
  {
    MaskUndoesSign(header[0]);
    MaskUndoesSign(header[1]);
    MaskUndoesSign(header[2]);
    MaskUndoesSign(header[3]);
    ShiftOrIsUint32(header[..]);
    length := Or(Or(Or(Mask(Signed(header[0])), Shl(Mask(Signed(header[1])), 8)),
                    Shl(Mask(Signed(header[2])), 16)),
                 Shl(Mask(Signed(header[3])), 24));
  }

  /** The stream as BitConverter.ToUInt32 makes the C# example see it: on a big-endian host, the first word reversed. */
  function HostView(s: seq<byte>, littleEndian: bool): seq<byte> {
    if littleEndian || |s| < 4 then s else [s[3], s[2], s[1], s[0]] + s[4..]
  }

  /** BitConverter.ToUInt32 */
  function HostUint32(s: seq<byte>, littleEndian: bool): (n: nat)
    requires |s| >= 4
    ensures n < UINT32
  {
    Uint32(HostView(s, littleEndian))
  }

  /** On a big-endian host the C# example reads the right length exactly when the word is a palindrome. */
  lemma HostOrderMatters(s: seq<byte>, littleEndian: bool)
    requires |s| >= 4
    ensures HostUint32(s, littleEndian) == Uint32(s) <==> littleEndian || (s[0] == s[3] && s[1] == s[2])
  {
    if !littleEndian {
      var t := HostView(s, littleEndian);
      PutOfUint32(s);
      PutOfUint32(t);
      assert t[..4] == [s[3], s[2], s[1], s[0]] && s[..4] == [s[0], s[1], s[2], s[3]];
    }
  }

  // ---------- fill loops ----------

  /** docs/examples/cpp/main.cpp */
  method RecvAll(sock: Socket, out: array<byte>, n: nat) returns (ok: bool)
    requires n <= out.Length
    modifies sock, out
    ensures ok <==> |old(sock.incoming)| >= n
    ensures ok ==> out[..n] == old(sock.incoming)[..n] && sock.incoming == old(sock.incoming)[n..]
    ensures out[n..] == old(out[n..])
  {
    var got := 0;
    while got < n
      invariant got <= n && out[..got] + sock.incoming == old(sock.incoming)
      invariant out[n..] == old(out[n..])
    {
      var r := sock.RecvInto(out, got, n - got);
      if r == 0 {
        return false;
      }
      assert out[..got + r] == out[..got] + out[got..got + r];
      Associative(out[..got], out[got..got + r], sock.incoming);
      got := got + r;
    }
    return true;
  }

  /** docs/examples/python/client.py; None stands for the ConnectionError. */
  method RecvExact(sock: Socket, n: nat) returns (r: Option<seq<byte>>)
    modifies sock
    ensures r.Some? <==> |old(sock.incoming)| >= n
    ensures r.Some? ==> r.value == old(sock.incoming)[..n] && sock.incoming == old(sock.incoming)[n..]
  {
    var buf: seq<byte> := [];
    while |buf| < n
      invariant |buf| <= n && buf + sock.incoming == old(sock.incoming)
      decreases n - |buf|
    {
      var chunk := sock.Recv(n - |buf|);
      if chunk == [] {
        return None;
      }
      Associative(buf, chunk, sock.incoming);
      buf := buf + chunk;
    }
    return Some(buf);
  }

  /** n more bytes have arrived behind buffer[offset..o]; was and now are the buffer before and after. */
  lemma FilledMore(was: seq<byte>, now: seq<byte>, offset: nat, o: nat, n: nat, before: seq<byte>, after: seq<byte>)
    requires offset <= o && o + n <= |now| == |was| && now[..o] == was[..o]
    requires before == now[o..o + n] + after
    ensures now[offset..o + n] + after == was[offset..o] + before && now[..offset] == was[..offset]
  {
    assert now[offset..o] == now[..o][offset..] && was[offset..o] == was[..o][offset..];
    SlicesJoin(now, offset, o, o + n);
    Associative(now[offset..o], now[o..o + n], after);
    assert now[..offset] == now[..o][..offset] && was[..offset] == was[..o][..offset];
  }

  /** docs/examples/csharp/Program.cs; false stands for the EndOfStreamException. */
  method ReadExactly(s: Socket, buffer: array<byte>, offset: nat, count: nat) returns (ok: bool)
    requires offset + count <= buffer.Length
    modifies s, buffer
    ensures ok <==> |old(s.incoming)| >= count
    ensures ok ==> && buffer[offset..offset + count] == old(s.incoming)[..count]
                   && s.incoming == old(s.incoming)[count..]
    ensures buffer[..offset] == old(buffer[..offset])
  {
    var o, c := offset, count;
    while c > 0
      invariant o + c == offset + count && offset <= o
      invariant buffer[offset..o] + s.incoming == old(s.incoming)
      invariant buffer[..offset] == old(buffer[..offset])
    {
      ghost var was, before := buffer[..], s.incoming;
      var n := s.RecvInto(buffer, o, c);
      FilledMore(was, buffer[..], offset, o, n, before, s.incoming);
      if n <= 0 {
        return false;
      }
      o, c := o + n, c - n;
    }
    return true;
  }

  /** InputStream.read: -1 at the end of the stream. */
  method JavaRead(s: Socket, buffer: array<byte>, offset: nat, count: nat) returns (n: int)
    requires count > 0 && offset + count <= buffer.Length
    modifies s, buffer
    ensures n == -1 <==> old(s.incoming) == []
    ensures n != -1 ==> 0 < n <= count && old(s.incoming) == buffer[offset..offset + n] + s.incoming
    ensures n == -1 ==> s.incoming == old(s.incoming)
    ensures buffer[..offset] == old(buffer[..offset])
  {
    n := s.RecvInto(buffer, offset, count);
    if n == 0 {
      n := -1;
    }
  }

  /** docs/examples/java/MidiBridgeClient.java; false stands for the EOFException. */
  method ReadFully(s: Socket, buffer: array<byte>, offset: nat, count: nat) returns (ok: bool)
    requires offset + count <= buffer.Length
    modifies s, buffer
    ensures ok <==> |old(s.incoming)| >= count
    ensures ok ==> && buffer[offset..offset + count] == old(s.incoming)[..count]
                   && s.incoming == old(s.incoming)[count..]
    ensures buffer[..offset] == old(buffer[..offset])
  {
    var o, c := offset, count;
    while c > 0
      invariant o + c == offset + count && offset <= o && 0 <= c
      invariant buffer[offset..o] + s.incoming == old(s.incoming)
      invariant buffer[..offset] == old(buffer[..offset])
    {
      ghost var was, before := buffer[..], s.incoming;
      var n: int := JavaRead(s, buffer, o, c);
      FilledMore(was, buffer[..], offset, o, if n < 0 then 0 else n, before, s.incoming);
      if n < 0 {
        return false;
      }
      o, c := o + n, c - n;
    }
    return true;
  }

  // ---------- one frame, one whole stream ----------

  /** What an example program learns from one read; the examples do not tell the two ends of stream apart. */
  datatype Reply = Arrived(frame: Frame) | Closed | Invalid(length: nat)

  function ReplyOf(o: ReadOutcome): Reply {
    match o
    case Got(f, _) => Arrived(f)
    case InvalidLength(n) => Invalid(n)
    case _ => Closed
  }

  lemma TwoReadsAreOne(s: seq<byte>, header: seq<byte>, payload: seq<byte>)
    requires |s| >= 4 && header == s[..4]
    requires 0 < Uint32(header) <= MAX_FRAME_SIZE && |s[4..]| >= Uint32(header) && payload == s[4..][..Uint32(header)]
    ensures Read(s) == Got(Frame(payload[0], payload[1..]), s[4..][Uint32(header)..])
  {
    assert payload[1..] == s[5..4 + Uint32(header)];
  }

  method PythonReadFrame(sock: Socket) returns (r: Reply)
    modifies sock
    ensures r == ReplyOf(Read(old(sock.incoming)))
    ensures r.Arrived? ==> sock.incoming == Read(old(sock.incoming)).rest
  {
    ghost var s := sock.incoming;
    var header := RecvExact(sock, 4);
    if header.None? {
      return Closed;
    }
    var length := Uint32(header.value);
    if length == 0 || length > MAX_FRAME_SIZE {
      return Invalid(length);
    }
    var payload := RecvExact(sock, length);
    if payload.None? {
      return Closed;
    }
    TwoReadsAreOne(s, header.value, payload.value);
    return Arrived(Frame(payload.value[0], payload.value[1..]));
  }

  /** One round of the C++ main loop. */
  method CppReadFrame(sock: Socket, header: array<byte>) returns (r: Reply)
    requires header.Length == 4
    modifies sock, header
    ensures r == ReplyOf(Read(old(sock.incoming)))
    ensures r.Arrived? ==> sock.incoming == Read(old(sock.incoming)).rest
  {
    ghost var s := sock.incoming;
    var ok := RecvAll(sock, header, header.Length);
    if !ok {
      return Closed;
    }
    ghost var head := header[..];
    var length := AssembleLength(header);
    if length == 0 || length > MAX_FRAME_SIZE {
      return Invalid(length);
    }
    var payload := new byte[length];
    ok := RecvAll(sock, payload, payload.Length);
    if !ok {
      return Closed;
    }
    TwoReadsAreOne(s, head, payload[..]);
    assert payload[1..] == payload[..][1..];
    return Arrived(Frame(payload[0], payload[1..]));
  }

  /** One round of the C# main loop; the header buffer is reused between rounds. The length is read in the byte order of
      the host, so that agreement with readFrame takes a little-endian one. */
  method CSharpReadFrame(stream: Socket, header: array<byte>, littleEndian: bool) returns (r: Reply)
    requires header.Length == 4
    modifies stream, header
    ensures r == ReplyOf(Read(HostView(old(stream.incoming), littleEndian)))
    ensures r.Arrived? ==> stream.incoming == Read(HostView(old(stream.incoming), littleEndian)).rest
  {
    ghost var s := stream.incoming;
    ghost var view := HostView(s, littleEndian);
    var ok := ReadExactly(stream, header, 0, header.Length);
    if !ok {
      return Closed;
    }
    assert header[..] == s[..4] && view[4..] == s[4..];
    var length := HostUint32(header[..], littleEndian);
    assert HostView(header[..], littleEndian) == view[..4];
    if length == 0 || length > MAX_FRAME_SIZE {
      return Invalid(length);
    }
    var payload := new byte[length];
    ok := ReadExactly(stream, payload, 0, payload.Length);
    if !ok {
      return Closed;
    }
    TwoReadsAreOne(view, view[..4], payload[..]);
    assert payload[1..] == payload[..][1..];
    return Arrived(Frame(payload[0], payload[1..]));
  }

  /** One round of the Java main loop; the header buffer is reused between rounds. */
  method JavaReadFrame(input: Socket, header: array<byte>) returns (r: Reply)
    requires header.Length == 4
    modifies input, header
    ensures r == ReplyOf(Read(old(input.incoming)))
    ensures r.Arrived? ==> input.incoming == Read(old(input.incoming)).rest
  {
    ghost var s := input.incoming;
    var ok := ReadFully(input, header, 0, header.Length);
    if !ok {
      return Closed;
    }
    assert header[..] == s[..4];
    ghost var head := header[..];
    var length := AssembleMasked(header);
    if length == 0 || length > MAX_FRAME_SIZE {
      return Invalid(length);
    }
    var payload := new byte[length];
    ok := ReadFully(input, payload, 0, payload.Length);
    if !ok {
      return Closed;
    }
    TwoReadsAreOne(s, head, payload[..]);
    assert payload[1..] == payload[..][1..];
    return Arrived(Frame(payload[0], payload[1..]));
  }

  /** The four examples; C# runs on a host of either byte order. */
  datatype Program = Python | Cpp | CSharp(littleEndian: bool) | Java

  /** The stream as a program sees it, at the start of a frame. */
  function View(p: Program, s: seq<byte>): seq<byte> {
    if p.CSharp? then HostView(s, p.littleEndian) else s
  }

  /** One round of a program's main loop. */
  method Round(p: Program, sock: Socket, header: array<byte>) returns (r: Reply)
    requires header.Length == 4
    modifies sock, header
    ensures r == ReplyOf(Read(View(p, old(sock.incoming))))
    ensures r.Arrived? ==> sock.incoming == Read(View(p, old(sock.incoming))).rest
  {
    match p {
      case Python => r := PythonReadFrame(sock);
      case Cpp => r := CppReadFrame(sock, header);
      case CSharp(littleEndian) => r := CSharpReadFrame(sock, header, littleEndian);
      case Java => r := JavaReadFrame(sock, header);
    }
  }

  /** readFrame repeated on the stream as the program sees it. */
  function DecodeAs(p: Program, s: seq<byte>): Decoded
    decreases |s|
  {
    match Read(View(p, s))
    case Got(f, rest) =>
      var d := DecodeAs(p, rest);
      d.(frames := [f] + d.frames)
    case InvalidLength(_) => Decoded([], s, false)
    case _ => Decoded([], s, true)
  }

  lemma {:induction false} DecodeAsDecodes(p: Program, s: seq<byte>)
    requires p != CSharp(false)
    ensures DecodeAs(p, s) == Decode(s)
    decreases |s|
  {
    if Read(s).Got? {
      DecodeAsDecodes(p, Read(s).rest);
    }
  }

  lemma DecodeAsFirst(p: Program, s: seq<byte>)
    requires Read(View(p, s)).Got?
    ensures var d := DecodeAs(p, Read(View(p, s)).rest);
            DecodeAs(p, s) == Decoded([Read(View(p, s)).frame] + d.frames, d.rest, d.open)
  {
  }

  /** The main loops of the examples, each with one header buffer for all rounds. Except for C# on a big-endian host,
      the program sees exactly the frames of the stream, and stops for an invalid length exactly when the stream holds
      one. */
  method ConsumeAll(p: Program, sock: Socket) returns (frames: seq<Frame>, invalid: bool)
    modifies sock
    ensures frames == DecodeAs(p, old(sock.incoming)).frames
    ensures invalid <==> !DecodeAs(p, old(sock.incoming)).open
    ensures p != CSharp(false) ==>
              frames == Decode(old(sock.incoming)).frames && (invalid <==> !Decode(old(sock.incoming)).open)
  {
    if p != CSharp(false) {
      DecodeAsDecodes(p, sock.incoming);
    }
    var header := new byte[4];
    frames := [];
    while true
      invariant frames + DecodeAs(p, sock.incoming).frames == DecodeAs(p, old(sock.incoming)).frames
      invariant DecodeAs(p, sock.incoming).open == DecodeAs(p, old(sock.incoming)).open
      decreases |sock.incoming|
    {
      ghost var s := sock.incoming;
      var r := Round(p, sock, header);
      match r
      case Arrived(f) =>
        DecodeAsFirst(p, s);
        Associative(frames, [f], DecodeAs(p, sock.incoming).frames);
        frames := frames + [f];
      case Closed =>
        return frames, false;
      case Invalid(_) =>
        return frames, true;
    }
  }
}
