/** validMidiMessage (src/wsclient.go) against the message grammar of the MIDI 1.0 Detailed Specification. */
module MidiGrammar {
  import opened Sequences
  import opened Frames

  const MAX_SYSEX_LEN := 0x1_0000

  type data7 = d: int | 0 <= d < 0x80
  type channel4 = c: int | 0 <= c < 16

  datatype SingleByte = TuneRequest | TimingClock | Start | Continue | Stop | ActiveSensing | Reset

  /** Tables II, V, VI and VII of the specification. */
  datatype Message =
    | NoteOff(channel: channel4, key: data7, velocity: data7)
    | NoteOn(channel: channel4, key: data7, velocity: data7)
    | PolyPressure(channel: channel4, key: data7, pressure: data7)
    | ControlChange(channel: channel4, controller: data7, setting: data7)
    | ProgramChange(channel: channel4, program: data7)
    | ChannelPressure(channel: channel4, pressure: data7)
    | PitchBend(channel: channel4, lsb: data7, msb: data7)
    | SysEx(payload: seq<byte>)
    | QuarterFrame(d: data7)
    | SongPosition(lsb: data7, msb: data7)
    | SongSelect(song: data7)
    | Single(kind: SingleByte)
  {
    ghost predicate WellFormed() {
      SysEx? ==> AllData(payload)
    }
  }

  predicate AllData(s: seq<byte>) {
    forall k :: 0 <= k < |s| ==> s[k] < 0x80
  }

  function SingleStatus(k: SingleByte): byte {
    match k
    case TuneRequest => 0xF6
    case TimingClock => 0xF8
    case Start => 0xFA
    case Continue => 0xFB
    case Stop => 0xFC
    case ActiveSensing => 0xFE
    case Reset => 0xFF
  }

  /** The bytes of a message on the wire. */
  function Render(m: Message): seq<byte> {
    match m
    case NoteOff(c, k, v) => [0x80 + c, k, v]
    case NoteOn(c, k, v) => [0x90 + c, k, v]
    case PolyPressure(c, k, p) => [0xA0 + c, k, p]
    case ControlChange(c, n, v) => [0xB0 + c, n, v]
    case ProgramChange(c, p) => [0xC0 + c, p]
    case ChannelPressure(c, p) => [0xD0 + c, p]
    case PitchBend(c, l, h) => [0xE0 + c, l, h]
    case SysEx(payload) => [0xF0] + payload + [0xF7]
    case QuarterFrame(d) => var b: byte := d; [0xF1, b]
    case SongPosition(l, h) => var a: byte, b: byte := l, h; [0xF2, a, b]
    case SongSelect(n) => var b: byte := n; [0xF3, b]
    case Single(k) => [SingleStatus(k)]
  }

  /** The message a byte string spells, if it spells one. */
  function Parse(s: seq<byte>): Option<Message> {
    if |s| == 0 || s[0] < 0x80 then None
    else if s[0] == 0xF0 then
      if |s| >= 2 && s[|s| - 1] == 0xF7 && AllData(s[1..|s| - 1]) then Some(SysEx(s[1..|s| - 1])) else None
    else if !AllData(s[1..]) then None
    else ParseFixed(s)
  }

  function ParseFixed(s: seq<byte>): Option<Message>
    requires |s| > 0 && s[0] >= 0x80 && s[0] != 0xF0 && AllData(s[1..])
  {
    var c := s[0] % 16;
    if |s| == 3 then
      var a, b := s[1], s[1..][1];
      assert s[1..][0] < 0x80 && s[1..][1] < 0x80;
      match s[0] / 16
      case 0x8 => Some(NoteOff(c, a, b))
      case 0x9 => Some(NoteOn(c, a, b))
      case 0xA => Some(PolyPressure(c, a, b))
      case 0xB => Some(ControlChange(c, a, b))
      case 0xE => Some(PitchBend(c, a, b))
      case _ => if s[0] == 0xF2 then Some(SongPosition(a, b)) else None
    else if |s| == 2 then
      assert s[1..][0] < 0x80;
      if s[0] / 16 == 0xC then Some(ProgramChange(c, s[1]))
      else if s[0] / 16 == 0xD then Some(ChannelPressure(c, s[1]))
      else if s[0] == 0xF1 then Some(QuarterFrame(s[1]))
      else if s[0] == 0xF3 then Some(SongSelect(s[1]))
      else None
    else if |s| == 1 then
      match s[0]
      case 0xF6 => Some(Single(TuneRequest))
      case 0xF8 => Some(Single(TimingClock))
      case 0xFA => Some(Single(Start))
      case 0xFB => Some(Single(Continue))
      case 0xFC => Some(Single(Stop))
      case 0xFE => Some(Single(ActiveSensing))
      case 0xFF => Some(Single(Reset))
      case _ => None
    else None
  }

  lemma ParseOfRender(m: Message)
    requires m.WellFormed()
    ensures Parse(Render(m)) == Some(m)
  {
    var s := Render(m);
    if m.SysEx? {
      assert s[1..|s| - 1] == m.payload;
    } else {
      assert AllData(s[1..]);
    }
  }

  lemma RenderOfParse(s: seq<byte>)
    requires Parse(s).Some?
    ensures Parse(s).value.WellFormed() && Render(Parse(s).value) == s
  {
    if s[0] == 0xF0 {
      assert s == [0xF0] + s[1..|s| - 1] + [0xF7];
    } else {
      var b: int := s[0];
      assert b == 16 * (b / 16) + b % 16;
    }
  }

  /** A message the client lets through: one message of the grammar, of at most 64 KiB. */
  predicate IsMidi(s: seq<byte>) {
    |s| <= MAX_SYSEX_LEN && Parse(s).Some?
  }

  /** The accepted byte strings are exactly the renderings of well-formed messages, up to the size cap. */
  lemma AcceptedIsGrammar(s: seq<byte>)
    ensures IsMidi(s) <==> |s| <= 0x1_0000 && exists m: Message :: m.WellFormed() && Render(m) == s
  {
    if Parse(s).Some? {
      RenderOfParse(s);
    }
    forall m: Message | m.WellFormed() && Render(m) == s ensures Parse(s) == Some(m) {
      ParseOfRender(m);
    }
  }

  /** The same in numbers: by the status byte, a voice message has one or two data bytes, an exclusive message ends with
      0xF7, the other system messages have none, one or two, and 0xF4, 0xF5, 0xF7, 0xF9 and 0xFD start none. */
  lemma AcceptedByStatus(s: seq<byte>)
    ensures IsMidi(s) <==>
              && 1 <= |s| <= 0x1_0000
              && var status := s[0];
                 if status < 0x80 then false
                 else if status < 0xC0 || 0xE0 <= status < 0xF0 || status == 0xF2 then |s| == 3 && AllData(s[1..])
                 else if status < 0xE0 || status == 0xF1 || status == 0xF3 then |s| == 2 && AllData(s[1..])
                 else if status == 0xF0 then |s| >= 2 && s[|s| - 1] == 0xF7 && AllData(s[1..|s| - 1])
                 else |s| == 1 && status !in {0xF4, 0xF5, 0xF7, 0xF9, 0xFD}
  {
  }

  method ValidDataBytes(data: seq<byte>) returns (ok: bool)
    ensures ok <==> AllData(data)
  {
    for i := 0 to |data|
      invariant AllData(data[..i])
    {
      if data[i] >= 0x80 {
        return false;
      }
      assert data[..i + 1] == data[..i] + [data[i]];
    }
    assert data[..|data|] == data;
    return true;
  }

  /** The branches of the source; status & 0xF0 is written status / 16 * 16. */
  method ValidMidiMessage(data: seq<byte>) returns (ok: bool)
    ensures ok <==> IsMidi(data)
  {
    if |data| == 0 || |data| > MAX_SYSEX_LEN {
      return false;
    }
    var status: int := data[0];
    if status < 0x80 {
      return false;
    }
    var msgType := status / 16 * 16;
    var inner;
    if status >= 0xF0 {
      if status == 0xF0 {
        if |data| < 2 || data[|data| - 1] != 0xF7 {
          return false;
        }
        ok := ValidDataBytes(data[1..|data| - 1]);
      } else if status in {0xF1, 0xF3} {
        inner := ValidDataBytes(data[1..]);
        ok := |data| == 2 && inner;
      } else if status == 0xF2 {
        inner := ValidDataBytes(data[1..]);
        ok := |data| == 3 && inner;
      } else if status in {0xF6, 0xF8, 0xFA, 0xFB, 0xFC, 0xFE, 0xFF} {
        ok := |data| == 1;
      } else {
        ok := false;
      }
    } else if msgType == 0xC0 || msgType == 0xD0 {
      inner := ValidDataBytes(data[1..]);
      ok := |data| == 2 && inner;
    } else {
      inner := ValidDataBytes(data[1..]);
      ok := |data| == 3 && inner;
    }
  }

  // ---------- the grammar is prefix-free ----------

  /** The terminator of an exclusive message is its only status byte after the first. */
  lemma SysExTerminator(b: seq<byte>)
    requires IsMidi(b) && b[0] == 0xF0
    ensures |b| >= 2 && forall k :: 0 < k < |b| ==> (b[k] >= 0x80 <==> k == |b| - 1)
  {
    forall k | 0 < k < |b| - 1 ensures b[k] < 0x80 {
      assert b[k] == b[1..|b| - 1][k - 1];
    }
  }

  lemma PrefixFree(a: seq<byte>, b: seq<byte>)
    requires IsMidi(a) && IsMidi(b) && a <= b
    ensures a == b
  {
    if a[0] == 0xF0 {
      SysExTerminator(a);
      SysExTerminator(b);
      assert a[|a| - 1] == b[|a| - 1];
    }
  }

  ghost predicate AllMidi(ms: seq<seq<byte>>) {
    forall k :: 0 <= k < |ms| ==> IsMidi(ms[k])
  }

  /** A run of messages can be cut back into messages in one way only, variable-length SysEx included. */
  lemma {:induction false} UniqueSplit(xs: seq<seq<byte>>, ys: seq<seq<byte>>)
    requires AllMidi(xs) && AllMidi(ys) && Flatten(xs) == Flatten(ys)
    ensures xs == ys
  {
    assert forall k :: 0 <= k < |xs| ==> |xs[k]| > 0;
    assert forall k :: 0 <= k < |ys| ==> |ys[k]| > 0;
    if xs == [] || ys == [] {
    } else {
      var whole := Flatten(xs);
      var x, y := xs[0], ys[0];
      assert x == whole[..|x|] && y == whole[..|y|];
      if |x| <= |y| {
        assert x <= y;
        PrefixFree(x, y);
      } else {
        assert y <= x;
        PrefixFree(y, x);
      }
      assert Flatten(xs[1..]) == whole[|x|..] == Flatten(ys[1..]);
      UniqueSplit(xs[1..], ys[1..]);
      HeadAndTail(xs);
      HeadAndTail(ys);
    }
  }

  /** No accepted message is two or more accepted messages run together. */
  lemma NotAConcatenation(m: seq<byte>, parts: seq<seq<byte>>)
    requires IsMidi(m) && AllMidi(parts) && Flatten(parts) == m
    ensures parts == [m]
  {
    assert Flatten([m]) == m + Flatten<byte>([]);
    UniqueSplit(parts, [m]);
  }

  /** Every message the client accepts can be published: encodeFrame never refuses one. */
  lemma MidiFits(m: seq<byte>)
    requires IsMidi(m)
    ensures m != [] && Fits(m)
  {
  }
}
