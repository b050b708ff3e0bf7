/** The held-note table of src/midiout.go against the log of messages the port has taken. */
module NoteTable {
  import opened Sequences
  import opened Frames
  import opened MidiGrammar

  type Bytes = seq<byte>

  datatype NoteKey = NoteKey(channel: channel4, note: byte)

  // ---------- note messages ----------

  /** The test of the event loop: at least three bytes and status & 0xF0 a note status. */
  predicate IsNote(m: Bytes) {
    |m| >= 3 && (m[0] / 16 == 0x9 || m[0] / 16 == 0x8)
  }

  predicate IsOn(m: Bytes) {
    IsNote(m) && m[0] / 16 == 0x9 && m[2] > 0
  }

  function KeyOf(m: Bytes): NoteKey
    requires IsNote(m)
  {
    NoteKey(m[0] % 16, m[1])
  }

  function OffMessage(k: NoteKey): Bytes {
    [0x80 + k.channel, k.note, 0]
  }

  /** HoldNote and ReleaseNote, as the event loop calls them. */
  function Track(held: set<NoteKey>, m: Bytes): set<NoteKey> {
    if !IsNote(m) then held
    else if IsOn(m) then held + {KeyOf(m)}
    else held - {KeyOf(m)}
  }

  /** The keys a synthesizer holds down after a log of messages. */
  function Sounding(log: seq<Bytes>): set<NoteKey> {
    if log == [] then {} else Track(Sounding(Front(log)), Last(log))
  }

  ghost predicate NoteFor(m: Bytes, k: NoteKey) {
    IsNote(m) && KeyOf(m) == k
  }

  /** Position i holds the last note message for k. */
  ghost predicate LastNoteAt(log: seq<Bytes>, k: NoteKey, i: nat) {
    i < |log| && NoteFor(log[i], k) && forall j :: i < j < |log| ==> !NoteFor(log[j], k)
  }

  /** What Sounding means: the keys whose last note message is a Note On with non-zero velocity. */
  lemma {:induction false} SoundingIsLastOn(log: seq<Bytes>, k: NoteKey)
    ensures k in Sounding(log) <==> exists i: nat :: LastNoteAt(log, k, i) && IsOn(log[i])
    decreases |log|
  {
    if log != [] {
      var before, n := Front(log), |log| - 1;
      SoundingIsLastOn(before, k);
      if NoteFor(log[n], k) {
        assert LastNoteAt(log, k, n);
        assert forall i: nat :: LastNoteAt(log, k, i) ==> i == n;
      } else {
        assert k in Sounding(log) <==> k in Sounding(before);
        forall i: nat ensures LastNoteAt(log, k, i) <==> LastNoteAt(before, k, i) {
          if i < n {
            assert log[i] == before[i];
            assert forall j :: i < j < n ==> before[j] == log[j];
          }
        }
      }
    }
  }

  // ---------- in terms of the MIDI grammar ----------

  /** The bookkeeping on bytes: a Note On with non-zero velocity enters its key, a Note Off or a Note On with velocity
      zero removes it, and no other message, of whatever length, touches the table. */
  lemma TrackIsByMessage(held: set<NoteKey>, m: Message)
    requires m.WellFormed()
    ensures m.NoteOn? && m.velocity > 0 ==> Track(held, Render(m)) == held + {NoteKey(m.channel, m.key)}
    ensures m.NoteOn? && m.velocity == 0 ==> Track(held, Render(m)) == held - {NoteKey(m.channel, m.key)}
    ensures m.NoteOff? ==> Track(held, Render(m)) == held - {NoteKey(m.channel, m.key)}
    ensures !m.NoteOn? && !m.NoteOff? ==> Track(held, Render(m)) == held
  {
    var b: int := Render(m)[0];
    assert b / 16 == 0x8 || b / 16 == 0x9 ==> m.NoteOff? || m.NoteOn?;
  }

  ghost predicate SpellsOn(m: Bytes, k: NoteKey) {
    exists v: data7 :: v > 0 && k.note < 0x80 && m == Render(NoteOn(k.channel, k.note, v))
  }

  ghost predicate SpellsOff(m: Bytes, k: NoteKey) {
    && k.note < 0x80
    && (m == Render(NoteOn(k.channel, k.note, 0)) || exists v: data7 :: m == Render(NoteOff(k.channel, k.note, v)))
  }

  lemma NotesAreSpelled(m: Bytes, k: NoteKey)
    requires IsMidi(m)
    ensures NoteFor(m, k) && IsOn(m) <==> SpellsOn(m, k)
    ensures NoteFor(m, k) && !IsOn(m) <==> SpellsOff(m, k)
  {
    RenderOfParse(m);
    var msg := Parse(m).value;
    var b: int := m[0];
    match msg {
      case NoteOn(c, n, v) => assert m == Render(NoteOn(c, n, v));
      case NoteOff(c, n, v) => assert m == Render(NoteOff(c, n, v));
      case _ => assert b / 16 == 0x8 || b / 16 == 0x9 ==> |m| < 3;
    }
  }

  /** The keys that sound after a log of valid messages: those for which a Note On with non-zero velocity is the last
      message that spells a Note On or a Note Off. */
  lemma SoundingByGrammar(log: seq<Bytes>, k: NoteKey)
    requires AllMidi(log)
    ensures k in Sounding(log) <==>
              exists i :: 0 <= i < |log| && SpellsOn(log[i], k)
                          && forall j :: i < j < |log| ==> !SpellsOn(log[j], k) && !SpellsOff(log[j], k)
  {
    SoundingIsLastOn(log, k);
    forall j | 0 <= j < |log|
      ensures NoteFor(log[j], k) && IsOn(log[j]) <==> SpellsOn(log[j], k)
      ensures NoteFor(log[j], k) && !IsOn(log[j]) <==> SpellsOff(log[j], k)
    {
      NotesAreSpelled(log[j], k);
    }
    if k in Sounding(log) {
      var i: nat :| LastNoteAt(log, k, i) && IsOn(log[i]);
      assert SpellsOn(log[i], k);
    }
    if i :| 0 <= i < |log| && SpellsOn(log[i], k)
            && forall j :: i < j < |log| ==> !SpellsOn(log[j], k) && !SpellsOff(log[j], k) {
      assert LastNoteAt(log, k, i);
    }
  }

  // ---------- the table and the port ----------

  /** held is notesHeld; meant are the messages the program has asked the port to take, taken says which of them it
      took, and written are those. */
  datatype Notes = Notes(held: set<NoteKey>, meant: seq<Bytes>, taken: seq<bool>, written: seq<Bytes>)

  /** Write passes a message on to the port unless it is malformed, All Notes Off or All Sound Off. */
  predicate Passes(m: Bytes) {
    IsMidi(m) && !(|m| >= 3 && m[0] / 16 == 0xB && (m[1] == 123 || m[1] == 120))
  }

  /** What Write lets through: every valid message but the control changes 120 and 123, All Sound Off and All Notes
      Off. */
  lemma PassesByGrammar(m: Message)
    requires m.WellFormed() && |Render(m)| <= 0x1_0000
    ensures Passes(Render(m)) <==> !(m.ControlChange? && (m.controller == 120 || m.controller == 123))
  {
    ParseOfRender(m);
    var b: int := Render(m)[0];
    assert b / 16 == 0xB ==> m.ControlChange?;
  }

  /** One message through Write; ok is whether the port was there and took it. */
  function Write(n: Notes, m: Bytes, ok: bool): Notes {
    n.(meant := n.meant + [m], taken := n.taken + [Passes(m) && ok],
       written := if Passes(m) && ok then n.written + [m] else n.written)
  }

  /** One event of the MIDI loop: bookkeeping, then the port. */
  function OnEvent(n: Notes, m: Bytes, ok: bool): Notes {
    Write(n.(held := Track(n.held, m)), m, ok)
  }

  /** The loop of AllNotesOff, over the keys in the order the map yields them. */
  function Release(n: Notes, order: seq<NoteKey>, oks: seq<bool>): Notes
    requires |oks| == |order|
  {
    if order == [] then n
    else Write(Release(n, Front(order), Front(oks)), OffMessage(Last(order)), Last(oks))
  }

  ghost predicate Orders(order: seq<NoteKey>, keys: set<NoteKey>) {
    && (forall k :: k in order <==> k in keys)
    && forall i, j :: 0 <= i < j < |order| ==> order[i] != order[j]
  }

  lemma OrdersSnoc(order: seq<NoteKey>, keys: set<NoteKey>, k: NoteKey)
    requires Orders(order, keys) && k !in keys
    ensures Orders(order + [k], keys + {k})
  {
  }

  lemma ReleaseSnoc(n: Notes, order: seq<NoteKey>, oks: seq<bool>, k: NoteKey, ok: bool)
    requires |oks| == |order|
    ensures Release(n, order + [k], oks + [ok]) == Write(Release(n, order, oks), OffMessage(k), ok)
  {
    assert Front(order + [k]) == order && Front(oks + [ok]) == oks;
  }

  function AllNotesOff(n: Notes, order: seq<NoteKey>, oks: seq<bool>): Notes
    requires |oks| == |order|
  {
    Release(n.(held := {}), order, oks)
  }

  /** What happens to the table: an event, or AllNotesOff in some order; for each message whether the port took it. */
  datatype Op = Event(m: Bytes, ok: bool) | Silence(order: seq<NoteKey>, oks: seq<bool>)

  /** Events have been validated; AllNotesOff visits every held key. */
  ghost predicate Proper(n: Notes, op: Op) {
    match op
    case Event(m, _) => IsMidi(m)
    case Silence(order, oks) => |oks| == |order| && Orders(order, n.held)
  }

  function Apply(n: Notes, op: Op): Notes {
    match op
    case Event(m, ok) => OnEvent(n, m, ok)
    case Silence(order, oks) => if |oks| == |order| then AllNotesOff(n, order, oks) else n
  }

  function ApplyAll(ops: seq<Op>): Notes {
    if ops == [] then Notes({}, [], [], []) else Apply(ApplyAll(Front(ops)), Last(ops))
  }

  ghost predicate AllProper(ops: seq<Op>)
    decreases |ops|
  {
    ops == [] || (AllProper(Front(ops)) && Proper(ApplyAll(Front(ops)), Last(ops)))
  }

  predicate Delivered(op: Op) {
    match op
    case Event(_, ok) => ok
    case Silence(_, oks) => forall k :: 0 <= k < |oks| ==> oks[k]
  }

  ghost predicate AllDelivered(ops: seq<Op>) {
    forall k :: 0 <= k < |ops| ==> Delivered(ops[k])
  }

  // ---------- agreement ----------

  ghost predicate KeysOk(held: set<NoteKey>) {
    forall k :: k in held ==> k.note < 0x80
  }

  lemma NoteBytes(m: Bytes)
    requires IsMidi(m) && IsNote(m)
    ensures KeyOf(m).note < 0x80 && Passes(m)
  {
    assert m[1..][0] == m[1];
  }

  lemma OffMessagePasses(k: NoteKey)
    requires k.note < 0x80
    ensures Passes(OffMessage(k)) && IsNote(OffMessage(k)) && !IsOn(OffMessage(k)) && KeyOf(OffMessage(k)) == k
  {
    var m := OffMessage(k);
    assert AllData(m[1..]);
    var b: int := m[0];
    assert b / 16 == 0x8 && b % 16 == k.channel;
  }

  /** AllNotesOff sends the Note Off of each key on its own channel. */
  lemma OffMessageIsNoteOff(k: NoteKey)
    requires k.note < 0x80
    ensures OffMessage(k) == Render(NoteOff(k.channel, k.note, 0))
  {
  }

  lemma SoundingSnoc(log: seq<Bytes>, m: Bytes)
    ensures Sounding(log + [m]) == Track(Sounding(log), m)
  {
    assert Front(log + [m]) == log;
  }

  /** What each step keeps: the table shows what the program meant the port to hold, and the port holds it too. */
  ghost predicate TableOk(n: Notes) {
    && n.held == Sounding(n.meant)
    && KeysOk(n.held)
  }

  ghost predicate PortOk(n: Notes) {
    Sounding(n.written) == Sounding(n.meant)
  }

  lemma WriteKeeps(n: Notes, m: Bytes, ok: bool)
    requires IsMidi(m)
    ensures Sounding(Write(n, m, ok).meant) == Track(Sounding(n.meant), m)
    ensures PortOk(n) && ok ==> PortOk(Write(n, m, ok))
  {
    SoundingSnoc(n.meant, m);
    SoundingSnoc(n.written, m);
    if IsNote(m) {
      NoteBytes(m);
    }
  }

  lemma {:induction false} ReleaseKeeps(n: Notes, order: seq<NoteKey>, oks: seq<bool>)
    requires |oks| == |order| && forall k :: k in order ==> k.note < 0x80
    ensures var n' := Release(n, order, oks);
            && n'.held == n.held
            && Sounding(n'.meant) == Sounding(n.meant) - (set k | k in order)
            && (PortOk(n) && (forall k :: 0 <= k < |oks| ==> oks[k]) ==> PortOk(n'))
    decreases |order|
  {
    if order == [] {
    } else {
      var k := Last(order);
      ReleaseKeeps(n, Front(order), Front(oks));
      OffMessagePasses(k);
      WriteKeeps(Release(n, Front(order), Front(oks)), OffMessage(k), Last(oks));
      assert (set x | x in order) == (set x | x in Front(order)) + {k} by {
        FrontAndLast(order);
      }
    }
  }

  lemma ApplyKeeps(n: Notes, op: Op)
    requires Proper(n, op) && TableOk(n)
    ensures TableOk(Apply(n, op))
    ensures PortOk(n) && Delivered(op) ==> PortOk(Apply(n, op))
    ensures op.Silence? ==> Apply(n, op).held == {}
  {
    match op
    case Event(m, ok) =>
      WriteKeeps(n.(held := Track(n.held, m)), m, ok);
      if IsNote(m) {
        NoteBytes(m);
      }
    case Silence(order, oks) =>
      assert (set k | k in order) == n.held;
      ReleaseKeeps(n.(held := {}), order, oks);
  }

  /** Whatever the port does, notesHeld is the set of keys the program last asked to sound; and as long as the port
      takes every message, it is the set of keys whose last note message written is a Note On with non-zero velocity. */
  lemma {:induction false} TableAgreesWithPort(ops: seq<Op>)
    requires AllProper(ops)
    ensures TableOk(ApplyAll(ops))
    ensures AllDelivered(ops) ==> ApplyAll(ops).held == Sounding(ApplyAll(ops).written)
    decreases |ops|
  {
    if ops == [] {
    } else {
      TableAgreesWithPort(Front(ops));
      if AllDelivered(ops) {
        assert Delivered(Last(ops));
        forall k | 0 <= k < |Front(ops)| ensures Delivered(Front(ops)[k]) {
          assert Delivered(ops[k]);
        }
      }
      ApplyKeeps(ApplyAll(Front(ops)), Last(ops));
    }
  }

  // ---------- refused messages ----------

  /** A write the port refuses can break the agreement: the table holds a key the port never heard of. */
  lemma UndeliveredBreaksAgreement()
    ensures var ops := [Event([0x90, 60, 100], false)];
            AllProper(ops) && ApplyAll(ops).held != Sounding(ApplyAll(ops).written)
  {
    var m: Bytes := [0x90, 60, 100];
    var ops := [Event(m, false)];
    assert Front(ops) == [];
    assert AllData(m[1..]);
    assert ApplyAll(ops).written == [];
    assert NoteKey(0, 60) in ApplyAll(ops).held;
  }

  /** Exactly when a refused event breaks it: when it is a note message that would have changed the table. */
  lemma WhenRefusalMatters(n: Notes, m: Bytes)
    requires IsMidi(m) && TableOk(n) && PortOk(n)
    ensures PortOk(OnEvent(n, m, false)) <==> !IsNote(m) || (KeyOf(m) in n.held <==> IsOn(m))
  {
    WriteKeeps(n.(held := Track(n.held, m)), m, false);
  }

  /** The keys whose Note Off the port has taken. */
  function Quieted(order: seq<NoteKey>, oks: seq<bool>): set<NoteKey>
    requires |oks| == |order|
  {
    if order == [] then {}
    else Quieted(Front(order), Front(oks)) + if Last(oks) then {Last(order)} else {}
  }

  lemma {:induction false} QuietedMember(order: seq<NoteKey>, oks: seq<bool>, k: NoteKey)
    requires |oks| == |order|
    ensures k in Quieted(order, oks) <==> exists i :: 0 <= i < |order| && order[i] == k && oks[i]
  {
    if order != [] {
      var before, oksBefore, n := Front(order), Front(oks), |order| - 1;
      QuietedMember(before, oksBefore, k);
      assert forall i :: 0 <= i < n ==> before[i] == order[i] && oksBefore[i] == oks[i];
      assert oks[n] && order[n] == k ==> k in Quieted(order, oks);
    }
  }

  /** Each key is visited once, so it is quieted by its own message or not at all. */
  lemma QuietedAt(order: seq<NoteKey>, oks: seq<bool>, keys: set<NoteKey>, i: nat)
    requires |oks| == |order| && Orders(order, keys) && i < |order|
    ensures order[i] in Quieted(order, oks) <==> oks[i]
  {
    QuietedMember(order, oks, order[i]);
    assert forall j :: 0 <= j < |order| && order[j] == order[i] ==> j == i;
  }

  lemma {:induction false} ReleaseQuiets(n: Notes, order: seq<NoteKey>, oks: seq<bool>)
    requires |oks| == |order| && forall k :: k in order ==> k.note < 0x80
    ensures Sounding(Release(n, order, oks).written) == Sounding(n.written) - Quieted(order, oks)
    decreases |order|
  {
    if order != [] {
      var before, oksBefore, k := Front(order), Front(oks), Last(order);
      ReleaseQuiets(n, before, oksBefore);
      OffMessagePasses(k);
      SoundingSnoc(Release(n, before, oksBefore).written, OffMessage(k));
    }
  }

  /** What AllNotesOff leaves sounding, in any map order and whatever the port refuses: the keys that did sound, less
      those whose Note Off was taken. Table and port still agree exactly when every one was. */
  lemma WhatSilenceLeaves(n: Notes, order: seq<NoteKey>, oks: seq<bool>)
    requires Proper(n, Silence(order, oks)) && TableOk(n)
    ensures var n' := Apply(n, Silence(order, oks));
            && Sounding(n'.written) == Sounding(n.written) - Quieted(order, oks)
            && (PortOk(n) ==> (PortOk(n') <==> forall i :: 0 <= i < |oks| ==> oks[i]))
  {
    var op := Silence(order, oks);
    ReleaseQuiets(n.(held := {}), order, oks);
    ApplyKeeps(n, op);
    if PortOk(n) && PortOk(Apply(n, op)) {
      forall i | 0 <= i < |oks| ensures oks[i] {
        assert order[i] in Sounding(n.written);
        QuietedAt(order, oks, n.held, i);
      }
    }
  }

  /** Whatever sounds at the port is held in the table, so AllNotesOff will reach it. */
  ghost predicate Covered(n: Notes) {
    Sounding(n.written) <= n.held
  }

  /** Exactly what loses this: a refused release of a key that sounds. A refused Note On is harmless. */
  lemma CoverIsKept(n: Notes, op: Op)
    requires Proper(n, op) && TableOk(n) && Covered(n)
    ensures Covered(Apply(n, op)) <==>
              match op
              case Event(m, ok) => ok || !IsNote(m) || IsOn(m) || KeyOf(m) !in Sounding(n.written)
              case Silence(order, oks) => forall i :: 0 <= i < |order| && order[i] in Sounding(n.written) ==> oks[i]
  {
    match op
    case Event(m, ok) =>
      SoundingSnoc(n.written, m);
      if IsNote(m) {
        NoteBytes(m);
      }
    case Silence(order, oks) =>
      WhatSilenceLeaves(n, order, oks);
      ApplyKeeps(n, op);
      SilenceCovers(n, order, oks);
  }

  lemma SilenceCovers(n: Notes, order: seq<NoteKey>, oks: seq<bool>)
    requires Proper(n, Silence(order, oks)) && Covered(n)
    ensures Sounding(n.written) - Quieted(order, oks) == {} <==>
              forall i :: 0 <= i < |order| && order[i] in Sounding(n.written) ==> oks[i]
  {
    if forall i :: 0 <= i < |order| && order[i] in Sounding(n.written) ==> oks[i] {
      forall k | k in Sounding(n.written) ensures k in Quieted(order, oks) {
        var i :| 0 <= i < |order| && order[i] == k;
        QuietedAt(order, oks, n.held, i);
      }
    }
    if Sounding(n.written) - Quieted(order, oks) == {} {
      forall i | 0 <= i < |order| && order[i] in Sounding(n.written) ensures oks[i] {
        assert order[i] !in Sounding(n.written) - Quieted(order, oks);
        QuietedAt(order, oks, n.held, i);
      }
    }
  }

  /** The port has taken every message that releases a key. */
  predicate ReleasesTaken(op: Op) {
    match op
    case Event(m, ok) => ok || !IsNote(m) || IsOn(m)
    case Silence(_, oks) => forall k :: 0 <= k < |oks| ==> oks[k]
  }

  lemma {:induction false} RunCovers(ops: seq<Op>)
    requires AllProper(ops) && forall k :: 0 <= k < |ops| ==> ReleasesTaken(ops[k])
    ensures Covered(ApplyAll(ops))
    decreases |ops|
  {
    if ops != [] {
      assert forall k :: 0 <= k < |ops| - 1 ==> Front(ops)[k] == ops[k];
      RunCovers(Front(ops));
      TableAgreesWithPort(Front(ops));
      assert ReleasesTaken(Last(ops));
      CoverIsKept(ApplyAll(Front(ops)), Last(ops));
    }
  }

  /** After AllNotesOff, in any map order, nothing sounds: the last note message written for every key ever written is a
      Note Off. Note Ons may have been refused, releases not. */
  lemma SilenceIsComplete(ops: seq<Op>, k: NoteKey, i: nat)
    requires AllProper(ops) && ops != [] && Last(ops).Silence?
    requires forall j :: 0 <= j < |ops| ==> ReleasesTaken(ops[j])
    ensures Sounding(ApplyAll(ops).written) == {}
    ensures LastNoteAt(ApplyAll(ops).written, k, i) ==> !IsOn(ApplyAll(ops).written[i])
  {
    RunCovers(ops);
    TableAgreesWithPort(Front(ops));
    ApplyKeeps(ApplyAll(Front(ops)), Last(ops));
    SoundingIsLastOn(ApplyAll(ops).written, k);
  }

  // ---------- stuck notes ----------

  /** The messages taken, in order. */
  function TakenOf(meant: seq<Bytes>, taken: seq<bool>): seq<Bytes>
    requires |taken| == |meant|
  {
    if meant == [] then []
    else TakenOf(Front(meant), Front(taken)) + if Last(taken) then [Last(meant)] else []
  }

  ghost predicate LogOk(n: Notes) {
    |n.taken| == |n.meant| && n.written == TakenOf(n.meant, n.taken)
  }

  lemma WriteLog(n: Notes, m: Bytes, ok: bool)
    requires LogOk(n)
    ensures LogOk(Write(n, m, ok))
  {
    assert Front(n.meant + [m]) == n.meant && Front(n.taken + [Passes(m) && ok]) == n.taken;
  }

  lemma {:induction false} ReleaseLog(n: Notes, order: seq<NoteKey>, oks: seq<bool>)
    requires |oks| == |order| && LogOk(n)
    ensures LogOk(Release(n, order, oks))
    decreases |order|
  {
    if order != [] {
      ReleaseLog(n, Front(order), Front(oks));
      WriteLog(Release(n, Front(order), Front(oks)), OffMessage(Last(order)), Last(oks));
    }
  }

  lemma {:induction false} RunLog(ops: seq<Op>)
    ensures LogOk(ApplyAll(ops))
    decreases |ops|
  {
    if ops != [] {
      RunLog(Front(ops));
      var n := ApplyAll(Front(ops));
      match Last(ops)
      case Event(m, ok) => WriteLog(n.(held := Track(n.held, m)), m, ok);
      case Silence(order, oks) =>
        if |oks| == |order| {
          ReleaseLog(n.(held := {}), order, oks);
        }
    }
  }

  /** The port took a Note On for k at i and has refused every note message for k since. */
  ghost predicate StuckAt(meant: seq<Bytes>, taken: seq<bool>, k: NoteKey, i: nat)
    requires |taken| == |meant|
  {
    && i < |meant| && taken[i] && NoteFor(meant[i], k) && IsOn(meant[i])
    && forall j :: i < j < |meant| && NoteFor(meant[j], k) ==> !taken[j]
  }

  lemma StuckSnoc(meant: seq<Bytes>, taken: seq<bool>, m: Bytes, ok: bool, k: NoteKey, i: nat)
    requires |taken| == |meant|
    ensures StuckAt(meant + [m], taken + [ok], k, i) <==>
              if NoteFor(m, k) && ok then i == |meant| && IsOn(m) else StuckAt(meant, taken, k, i)
  {
    var meant', taken' := meant + [m], taken + [ok];
    assert meant'[|meant|] == m && taken'[|meant|] == ok;
    assert forall j :: 0 <= j < |meant| ==> meant'[j] == meant[j] && taken'[j] == taken[j];
  }

  lemma TakenSnoc(meant: seq<Bytes>, taken: seq<bool>, k: NoteKey)
    requires |taken| == |meant| > 0
    ensures k in Sounding(TakenOf(meant, taken)) <==>
              if NoteFor(Last(meant), k) && Last(taken) then IsOn(Last(meant))
              else k in Sounding(TakenOf(Front(meant), Front(taken)))
  {
    var before := TakenOf(Front(meant), Front(taken));
    if Last(taken) {
      SoundingSnoc(before, Last(meant));
    } else {
      assert TakenOf(meant, taken) == before;
    }
  }

  lemma {:induction false} SoundingIsStuck(meant: seq<Bytes>, taken: seq<bool>, k: NoteKey)
    requires |taken| == |meant|
    ensures k in Sounding(TakenOf(meant, taken)) <==> exists i: nat :: StuckAt(meant, taken, k, i)
    decreases |meant|
  {
    if meant != [] {
      SoundingIsStuck(Front(meant), Front(taken), k);
      TakenSnoc(meant, taken, k);
      FrontAndLast(meant);
      FrontAndLast(taken);
      forall i: nat {
        StuckSnoc(Front(meant), Front(taken), Last(meant), Last(taken), k, i);
      }
      assert NoteFor(Last(meant), k) && Last(taken) && IsOn(Last(meant)) ==> StuckAt(meant, taken, k, |meant| - 1);
    }
  }

  /** Over any run, exactly the keys sound for which the port took a Note On and no note message since. */
  lemma SoundsExactlyWhen(ops: seq<Op>, k: NoteKey)
    ensures var n := ApplyAll(ops);
            && |n.taken| == |n.meant|
            && (k in Sounding(n.written) <==> exists i: nat :: StuckAt(n.meant, n.taken, k, i))
  {
    RunLog(ops);
    SoundingIsStuck(ApplyAll(ops).meant, ApplyAll(ops).taken, k);
  }

  /** A key that sounds and is not held, as after AllNotesOff, is stuck because a release of it was refused. */
  lemma StuckMeansRefusedRelease(ops: seq<Op>, k: NoteKey, i: nat)
    requires AllProper(ops) && k !in ApplyAll(ops).held && |ApplyAll(ops).taken| == |ApplyAll(ops).meant|
    requires StuckAt(ApplyAll(ops).meant, ApplyAll(ops).taken, k, i)
    ensures var n := ApplyAll(ops);
            exists j :: i < j < |n.meant| && NoteFor(n.meant[j], k) && !IsOn(n.meant[j]) && !n.taken[j]
  {
    var n := ApplyAll(ops);
    TableAgreesWithPort(ops);
    var j := LastNote(n.meant, k, i);
    SoundingIsLastOn(n.meant, k);
    assert i != j;
  }

  lemma {:induction false} LastNote(log: seq<Bytes>, k: NoteKey, i: nat) returns (j: nat)
    requires i < |log| && NoteFor(log[i], k)
    ensures i <= j && LastNoteAt(log, k, j)
    decreases |log| - i
  {
    if next :| i < next < |log| && NoteFor(log[next], k) {
      j := LastNote(log, k, next);
    } else {
      j := i;
    }
  }

  // ---------- the size of the table ----------

  lemma {:induction false} ListedIsBounded<T>(members: set<T>, listing: seq<T>)
    requires forall x :: x in members ==> x in listing
    ensures |members| <= |listing|
    decreases |listing|
  {
    if listing == [] {
      assert members == {};
    } else {
      var rest := members - {Last(listing)};
      forall x | x in rest ensures x in Front(listing) {
        FrontAndLast(listing);
      }
      ListedIsBounded(rest, Front(listing));
      assert members <= rest + {Last(listing)};
    }
  }

  function KeyNumber(i: nat): NoteKey
    requires i < 2048
  {
    NoteKey(i / 0x80, i % 0x80)
  }

  lemma KeysAreFew(held: set<NoteKey>)
    requires KeysOk(held)
    ensures |held| <= 2048
  {
    var listing := seq(2048, i requires 0 <= i < 2048 => KeyNumber(i));
    forall k | k in held ensures k in listing {
      var i := 0x80 * k.channel + k.note;
      assert i / 0x80 == k.channel && i % 0x80 == k.note;
      assert listing[i] == k;
    }
    ListedIsBounded(held, listing);
  }

  /** There are at most 2048 held notes, and AllNotesOff's messages are never swallowed by Write's validity check. */
  lemma TableIsBounded(ops: seq<Op>)
    requires AllProper(ops)
    ensures |ApplyAll(ops).held| <= 2048
    ensures forall k :: k in ApplyAll(ops).held ==> Passes(OffMessage(k))
  {
    TableAgreesWithPort(ops);
    var held := ApplyAll(ops).held;
    KeysAreFew(held);
    forall k | k in held ensures Passes(OffMessage(k)) {
      OffMessagePasses(k);
    }
  }
}
