/** src/midiout.go and the MIDI loop of src/main.go as objects. Every method that takes the lock is one step. */
module MidiOut {
  import opened Sequences
  import opened MidiGrammar
  import opened NoteTable
  import PortHealing
  import PortTraces

  /** All events after the first n are writes. */
  ghost predicate OnlyWritesSince(n: nat, es: seq<PortHealing.Event>) {
    forall k :: n <= k < |es| ==> es[k].WriteSucceeds? || es[k].WriteFails?
  }

  lemma WritesJoin(n: nat, es: seq<PortHealing.Event>, es': seq<PortHealing.Event>)
    requires n <= |es| && es <= es' && OnlyWritesSince(n, es) && OnlyWritesSince(|es|, es')
    ensures OnlyWritesSince(n, es')
  {
    assert forall k :: 0 <= k < |es| ==> es'[k] == es[k];
  }

  lemma {:induction false} WritesAreNoTries(es: seq<PortHealing.Event>, es': seq<PortHealing.Event>)
    requires es <= es' && OnlyWritesSince(|es|, es')
    ensures PortTraces.Tries(es') == PortTraces.Tries(es)
    decreases |es'|
  {
    if es' != es {
      WritesAreNoTries(es, Front(es'));
      FrontAndLast(es');
      PortTraces.TriesOn(Front(es'), Last(es'));
    }
  }

  /** oks says of each key, in this order, whether the port has taken its message. */
  ghost predicate Answered(order: seq<NoteKey>, oks: seq<bool>, out: bool, accepted: set<NoteKey>) {
    |oks| == |order| && forall j :: 0 <= j < |order| ==> (oks[j] <==> out && order[j] in accepted)
  }

  lemma AnsweredSnoc(order: seq<NoteKey>, oks: seq<bool>, out: bool, accepted: set<NoteKey>, k: NoteKey)
    requires Answered(order, oks, out, accepted)
    ensures Answered(order + [k], oks + [out && k in accepted], out, accepted)
  {
  }

  /** The output has been closed after the first n events. */
  ghost predicate ClosedSince(n: nat, es: seq<PortHealing.Event>) {
    exists k :: n <= k < |es| && es[k].CloseOutput?
  }

  lemma StillClosed(m: nat, es: seq<PortHealing.Event>, n: nat, es': seq<PortHealing.Event>)
    requires ClosedSince(m, es) && n <= m && es <= es'
    ensures ClosedSince(n, es')
  {
    var k :| m <= k < |es| && es[k].CloseOutput?;
    assert es'[k] == es[k];
  }

  class MidiOutput {
    var notesHeld: set<NoteKey>
    var out: bool
    var drv: Option<nat>
    var consecutiveWriteFails: nat
    var lastReinit: Option<int>
    var reinitInProgress: bool
    // the clock, and the number of driver handles handed out so far
    var now: int
    var drivers: nat

    // history: messages asked for, which of them were taken, and those; the rebuild goroutines, closed and overwritten
    // handles, rebuild times; when the port was opened, and the events since
    ghost var meant: seq<Bytes>
    ghost var asked: seq<bool>
    ghost var written: seq<Bytes>
    ghost var workers: seq<PortHealing.Worker>
    ghost var closed: set<nat>
    ghost var lost: set<nat>
    ghost var starts: seq<int>
    ghost const openedAt: int
    ghost var trace: seq<PortHealing.Event>

    ghost function NotesModel(): Notes
      reads this
    {
      Notes(notesHeld, meant, asked, written)
    }

    ghost function PortModel(): PortHealing.Port
      reads this
    {
      PortHealing.Port(out, drv, consecutiveWriteFails, lastReinit, reinitInProgress, now,
                       workers, drivers, closed, lost, starts)
    }

    /** What has been executed so far is a run of the state machine. */
    ghost predicate Follows()
      reads this
    {
      PortHealing.Leads(openedAt, trace, PortModel())
    }

    /** NewMidiOutput and a successful Init. */
    constructor (now: int)
      ensures NotesModel() == ApplyAll([]) && PortModel() == PortHealing.Opening(now) && Follows() && trace == []
    {
      notesHeld, out, drv, consecutiveWriteFails := {}, true, Some(0), 0;
      lastReinit, reinitInProgress, this.now, drivers := None, false, now, 1;
      meant, asked, written, workers, closed, lost, starts := [], [], [], [], {}, {}, [];
      openedAt, trace := now, [];
    }

    /** The change e stands for has just been made to the state was. */
    ghost method Record(e: PortHealing.Event, was: PortHealing.Port)
      requires PortHealing.Leads(openedAt, trace, was) && PortModel() == PortHealing.Step(was, e)
      modifies this`trace
      ensures Follows() && trace == old(trace) + [e]
    {
      PortHealing.LeadsOn(openedAt, trace, was, e);
      trace := trace + [e];
    }

    method HoldNote(channel: channel4, note: Frames.byte)
      modifies this`notesHeld
      ensures notesHeld == old(notesHeld) + {NoteKey(channel, note)}
    {
      notesHeld := notesHeld + {NoteKey(channel, note)};
    }

    method ReleaseNote(channel: channel4, note: Frames.byte)
      modifies this`notesHeld
      ensures notesHeld == old(notesHeld) - {NoteKey(channel, note)}
    {
      notesHeld := notesHeld - {NoteKey(channel, note)};
    }

    /** The part of Write after the driver has refused a message: from the fifth failure in a row on, start a rebuild,
        unless one is in progress or the last one started five seconds ago or less. */
    method CountFailure()
      modifies this`consecutiveWriteFails, this`reinitInProgress, this`lastReinit, this`workers, this`starts
      ensures PortModel() == PortHealing.FailWrite(old(PortModel()))
    {
      consecutiveWriteFails := consecutiveWriteFails + 1;
      var fails := consecutiveWriteFails;
      var shouldReinit := fails >= PortHealing.REINIT_AFTER_FAILS && !reinitInProgress
                          && (lastReinit.None? || now - lastReinit.value > PortHealing.REINIT_MIN_INTERVAL_MS);
      if shouldReinit {
        reinitInProgress := true;
        lastReinit := Some(now);
        workers := workers + [PortHealing.Closing];
        starts := starts + [now];
      }
    }

    /** The driver is asked to take a message, and does or does not. */
    method Deliver(data: Bytes, taken: bool)
      requires Follows() && out
      modifies this`written, this`consecutiveWriteFails, this`reinitInProgress, this`lastReinit, this`workers,
               this`starts, this`trace
      ensures Follows()
      ensures trace == old(trace) + [if taken then PortHealing.WriteSucceeds else PortHealing.WriteFails]
      ensures written == if taken then old(written) + [data] else old(written)
      ensures old(reinitInProgress) ==> reinitInProgress && workers == old(workers)
    {
      ghost var was := PortModel();
      if taken {
        written := written + [data];
        consecutiveWriteFails := 0;
        Record(PortHealing.WriteSucceeds, was);
      } else {
        CountFailure();
        Record(PortHealing.WriteFails, was);
      }
    }

    /** taken is whether the driver accepts the message, if it is asked; the result is whether an error is returned. */
    method Write(data: Bytes, taken: bool) returns (err: bool)
      requires Follows()
      modifies this`meant, this`asked, this`written, this`consecutiveWriteFails, this`reinitInProgress,
               this`lastReinit, this`workers, this`starts, this`trace
      ensures Follows()
      ensures NotesModel() == NoteTable.Write(old(NotesModel()), data, out && taken)
      ensures if !out || !Passes(data) then trace == old(trace) && PortModel() == old(PortModel())
              else trace == old(trace) + [if taken then PortHealing.WriteSucceeds else PortHealing.WriteFails]
      ensures old(reinitInProgress) ==> reinitInProgress && workers == old(workers)
      ensures err <==> out && Passes(data) && !taken
    {
      meant, asked := meant + [data], asked + [Passes(data) && out && taken];
      if !out {
        return false;
      }
      var valid := ValidMidiMessage(data);
      if !valid {
        return false;
      }
      if |data| >= 3 && data[0] / 16 == 0xB && (data[1] == 123 || data[1] == 120) {
        return false;
      }
      Deliver(data, taken);
      return !taken;
    }

    /** One round of the loop of AllNotesOff; taken is whether the driver accepts the message. */
    method ReleaseKey(k: NoteKey, taken: bool)
      requires Follows()
      modifies this`meant, this`asked, this`written, this`consecutiveWriteFails, this`reinitInProgress,
               this`lastReinit, this`workers, this`starts, this`trace
      ensures NotesModel() == NoteTable.Write(old(NotesModel()), OffMessage(k), out && taken)
      ensures Follows() && old(trace) <= trace && OnlyWritesSince(|old(trace)|, trace)
      ensures old(reinitInProgress) ==> reinitInProgress && workers == old(workers)
    {
      var _ := Write([0x80 + k.channel, k.note, 0], taken);
    }

    /** The loop of AllNotesOff: the keys are visited in whatever order the map yields them, and the driver accepts the
        messages for the given keys. */
    method ReleaseAll(held: set<NoteKey>, accepted: set<NoteKey>)
      returns (ghost order: seq<NoteKey>, ghost oks: seq<bool>)
      requires Follows()
      modifies this`meant, this`asked, this`written, this`consecutiveWriteFails, this`reinitInProgress,
               this`lastReinit, this`workers, this`starts, this`trace
      ensures Answered(order, oks, out, accepted)
      ensures Orders(order, held) && NotesModel() == Release(old(NotesModel()), order, oks)
      ensures Follows() && old(trace) <= trace && OnlyWritesSince(|old(trace)|, trace)
      ensures old(reinitInProgress) ==> reinitInProgress && workers == old(workers)
    {
      var keys := held;
      order, oks := [], [];
      while keys != {}
        invariant Answered(order, oks, out, accepted) && keys <= held && Orders(order, held - keys)
        invariant NotesModel() == Release(old(NotesModel()), order, oks)
        invariant Follows() && old(trace) <= trace && OnlyWritesSince(|old(trace)|, trace)
        invariant old(reinitInProgress) ==> reinitInProgress && workers == old(workers)
        decreases keys
      {
        var k :| k in keys;
        ghost var before := trace;
        ReleaseKey(k, k in accepted);
        ghost var ok := out && k in accepted;
        WritesJoin(|old(trace)|, before, trace);
        AnsweredSnoc(order, oks, out, accepted, k);
        OrdersSnoc(order, held - keys, k);
        ReleaseSnoc(old(NotesModel()), order, oks, k, ok);
        assert held - keys + {k} == held - (keys - {k});
        keys := keys - {k};
        order, oks := order + [k], oks + [ok];
      }
    }

    method AllNotesOff(accepted: set<NoteKey>) returns (ghost order: seq<NoteKey>, ghost oks: seq<bool>)
      requires Follows()
      modifies this`notesHeld, this`meant, this`asked, this`written, this`consecutiveWriteFails, this`reinitInProgress,
               this`lastReinit, this`workers, this`starts, this`trace
      ensures Answered(order, oks, out, accepted) && Orders(order, old(notesHeld))
      ensures NotesModel() == NoteTable.AllNotesOff(old(NotesModel()), order, oks)
      ensures Proper(old(NotesModel()), Silence(order, oks))
      ensures Follows() && old(trace) <= trace && OnlyWritesSince(|old(trace)|, trace)
      ensures old(reinitInProgress) ==> reinitInProgress && workers == old(workers)
    {
      var held := notesHeld;
      notesHeld := {};
      order, oks := ReleaseAll(held, accepted);
    }

    /** The bookkeeping of the MIDI loop. status & 0x0F is written as a remainder, status & 0xF0 as a quotient. */
    method KeepTable(data: Bytes)
      modifies this`notesHeld
      ensures notesHeld == Track(old(notesHeld), data)
    {
      if |data| >= 3 {
        var channel := data[0] % 16;
        if data[0] / 16 == 0x9 {
          if data[2] > 0 {
            HoldNote(channel, data[1]);
          } else {
            ReleaseNote(channel, data[1]);
          }
        } else if data[0] / 16 == 0x8 {
          ReleaseNote(channel, data[1]);
        }
      }
    }

    /** One event of the MIDI loop after it has been published; ready is midiReady. */
    method HandleEvent(data: Bytes, ready: bool, taken: bool)
      requires Follows()
      modifies this`notesHeld, this`meant, this`asked, this`written, this`consecutiveWriteFails, this`reinitInProgress,
               this`lastReinit, this`workers, this`starts, this`trace
      ensures NotesModel() == if ready then Apply(old(NotesModel()), Event(data, out && taken)) else old(NotesModel())
      ensures ready && Parse(data).Some? ==>
                match Parse(data).value
                case NoteOn(c, k, v) =>
                  notesHeld == if v > 0 then old(notesHeld) + {NoteKey(c, k)} else old(notesHeld) - {NoteKey(c, k)}
                case NoteOff(c, k, _) => notesHeld == old(notesHeld) - {NoteKey(c, k)}
                case _ => notesHeld == old(notesHeld)
      ensures ready && IsMidi(data) ==>
                var muted := match Parse(data).value
                             case ControlChange(_, n, _) => n == 120 || n == 123
                             case _ => false;
                written == if out && taken && !muted then old(written) + [data] else old(written)
      ensures Follows()
      ensures if !ready || !out || !Passes(data) then trace == old(trace) && PortModel() == old(PortModel())
              else trace == old(trace) + [if taken then PortHealing.WriteSucceeds else PortHealing.WriteFails]
      ensures old(reinitInProgress) ==> reinitInProgress && workers == old(workers)
    {
      if !ready {
        return;
      }
      KeepTable(data);
      var _ := Write(data, taken);
      if Parse(data).Some? {
        RenderOfParse(data);
        TrackIsByMessage(old(notesHeld), Parse(data).value);
      }
      if IsMidi(data) {
        PassesByGrammar(Parse(data).value);
      }
    }

    // ---------- rebuilding the port ----------

    method CloseLocked()
      modifies this`out, this`drv, this`closed
      ensures PortModel() == PortHealing.CloseLocked(old(PortModel()))
    {
      out := false;
      if drv.Some? {
        closed := closed + {drv.value};
        drv := None;
      }
    }

    /** The public Close. */
    method Close()
      requires Follows()
      modifies this`out, this`drv, this`closed, this`trace
      ensures Follows() && trace == old(trace) + [PortHealing.CloseOutput] && !out && drv.None?
    {
      ghost var was := PortModel();
      CloseLocked();
      Record(PortHealing.CloseOutput, was);
    }

    method PassTime(ms: nat)
      requires Follows()
      modifies this`now, this`trace
      ensures Follows() && trace == old(trace) + [PortHealing.Tick(ms)] && now == old(now) + ms
    {
      ghost var was := PortModel();
      now := now + ms;
      Record(PortHealing.Tick(ms), was);
    }

    /** Anything another goroutine may do while a rebuild does not hold the lock. */
    method OtherGoroutine()
      requires Follows() && reinitInProgress
      modifies this`notesHeld, this`meant, this`asked, this`written, this`consecutiveWriteFails, this`reinitInProgress,
               this`lastReinit, this`workers, this`starts, this`trace, this`now, this`out, this`drv, this`closed
      ensures Follows() && reinitInProgress && workers == old(workers) && old(trace) <= trace
      ensures if out then old(out) && drv == old(drv) else old(out) ==> ClosedSince(|old(trace)|, trace)
      ensures drv.Some? ==> drv == old(drv)
      ensures PortTraces.Tries(trace) == PortTraces.Tries(old(trace))
    {
      var close: bool, silence: bool, data: Bytes, ready: bool, taken: bool, ms: nat := *, *, *, *, *, *;
      var accepted: set<NoteKey> := *;
      if close {
        Close();
        assert trace[|old(trace)|].CloseOutput?;
        PortTraces.TriesOn(old(trace), PortHealing.CloseOutput);
      } else if silence {
        var _, _ := AllNotesOff(accepted);
        WritesAreNoTries(old(trace), trace);
      } else {
        PassTime(ms);
        PortTraces.TriesOn(old(trace), PortHealing.Tick(ms));
        ghost var before := trace;
        HandleEvent(data, ready, taken);
        WritesAreNoTries(before, trace);
      }
    }

    /** Any number of such steps, in any order. */
    method Interfere()
      requires Follows() && reinitInProgress
      modifies this`notesHeld, this`meant, this`asked, this`written, this`consecutiveWriteFails, this`reinitInProgress,
               this`lastReinit, this`workers, this`starts, this`trace, this`now, this`out, this`drv, this`closed
      ensures Follows() && reinitInProgress && workers == old(workers) && old(trace) <= trace
      ensures if out then old(out) && drv == old(drv) else old(out) ==> ClosedSince(|old(trace)|, trace)
      ensures drv.Some? ==> drv == old(drv)
      ensures PortTraces.Tries(trace) == PortTraces.Tries(old(trace))
    {
      var steps: nat := *;
      while steps > 0
        invariant Follows() && reinitInProgress && workers == old(workers) && old(trace) <= trace
        invariant if out then old(out) && drv == old(drv) else old(out) ==> ClosedSince(|old(trace)|, trace)
        invariant drv.Some? ==> drv == old(drv)
        invariant PortTraces.Tries(trace) == PortTraces.Tries(old(trace))
        decreases steps
      {
        steps := steps - 1;
        ghost var before := trace;
        OtherGoroutine();
        if ClosedSince(|old(trace)|, before) {
          StillClosed(|old(trace)|, before, |old(trace)|, trace);
        }
        if ClosedSince(|before|, trace) {
          StillClosed(|before|, trace, |old(trace)|, trace);
        }
      }
    }

    method Init(r: PortHealing.InitResult) returns (err: bool)
      modifies this`out, this`drv, this`drivers, this`lost
      ensures PortModel() == PortHealing.Init(old(PortModel()), r) && err == !r.Opened?
    {
      if drv.Some? {
        lost := lost + {drv.value};
      }
      if r.NoDriver? {
        drv := None;
        return true;
      }
      drv, drivers := Some(drivers), drivers + 1;
      if !r.NoPort? {
        out := true;
      }
      err := !r.Opened?;
    }

    /** reinitAsync up to its loop: close the old port. */
    method BeginRebuild()
      requires Follows() && workers == [PortHealing.Closing]
      modifies this`out, this`drv, this`closed, this`workers, this`trace
      ensures Follows() && trace == old(trace) + [PortHealing.WorkerCloses(0)]
      ensures workers == [PortHealing.Trying(1)] && !out && drv.None? && PortTraces.Tries(trace) == []
    {
      PortTraces.TriesOn(trace, PortHealing.WorkerCloses(0));
      ghost var was := PortModel();
      CloseLocked();
      workers := [PortHealing.Trying(1)];
      Record(PortHealing.WorkerCloses(0), was);
    }

    /** One round of reinitAttempts, under the lock. */
    method TryOnce(ghost k: nat, r: PortHealing.InitResult) returns (ok: bool)
      requires Follows() && workers == [PortHealing.Trying(k)]
      modifies this`out, this`drv, this`drivers, this`lost, this`closed, this`workers, this`trace
      ensures Follows() && trace == old(trace) + [PortHealing.WorkerTries(0, r)] && ok == r.Opened?
      ensures workers == [PortHealing.AfterAttempt(k, r)]
      ensures if ok then out && drv.Some? else !out && drv.None?
    {
      ghost var was := PortModel();
      var err := Init(r);
      if err {
        CloseLocked();
      }
      workers := [PortHealing.AfterAttempt(k, r)];
      Record(PortHealing.WorkerTries(0, r), was);
      ok := !err;
    }

    /** reinitAttempts: at most three rounds, with other goroutines at work between them; results says how each Init
        would end, and those up to the first success are tried, in order. */
    method ReinitAttempts(results: seq<PortHealing.InitResult>) returns (ok: bool)
      requires |results| == PortHealing.REINIT_ATTEMPTS && workers == [PortHealing.Trying(1)]
      requires Follows() && reinitInProgress && !out && drv.None? && PortTraces.Tries(trace) == []
      modifies this
      ensures Follows() && reinitInProgress && workers == [PortHealing.Ending(ok)] && old(trace) <= trace
      ensures ok <==> PortHealing.Opened in results
      ensures var tries := PortTraces.Tries(trace);
              tries <= results && (if ok then tries != [] && Last(tries) == PortHealing.Opened else tries == results)
      ensures if ok then out && drv.Some? else !out && drv.None?
    {
      for attempt := 1 to 4
        invariant forall k :: 0 <= k < attempt - 1 ==> !results[k].Opened?
        invariant PortTraces.Tries(trace) == results[..attempt - 1]
        invariant Follows() && reinitInProgress && !out && drv.None? && old(trace) <= trace
        invariant workers == [if attempt <= 3 then PortHealing.Trying(attempt) else PortHealing.Ending(false)]
      {
        Interfere();
        PortTraces.TriesOn(trace, PortHealing.WorkerTries(0, results[attempt - 1]));
        ok := TryOnce(attempt, results[attempt - 1]);
        assert results[..attempt] == results[..attempt - 1] + [results[attempt - 1]];
        if ok {
          return;
        }
      }
      return false;
    }

    /** The last lines of reinitAsync. */
    method EndRebuild(ok: bool)
      requires Follows() && workers == [PortHealing.Ending(ok)]
      modifies this`reinitInProgress, this`consecutiveWriteFails, this`workers, this`trace
      ensures Follows() && trace == old(trace) + [PortHealing.WorkerEnds(0)]
      ensures workers == [] && !reinitInProgress && (ok ==> consecutiveWriteFails == 0)
    {
      ghost var was := PortModel();
      reinitInProgress := false;
      if ok {
        consecutiveWriteFails := 0;
      }
      assert workers[..0] + workers[1..] == [];
      workers := [];
      Record(PortHealing.WorkerEnds(0), was);
    }

    /** reinitAsync, with other goroutines at work whenever it does not hold the lock. It ends the rebuild. If an
        attempt succeeded there is a live driver and a port, unless somebody closed the output meanwhile, and otherwise
        neither. */
    method ReinitAsync(results: seq<PortHealing.InitResult>) returns (ok: bool)
      requires |results| == PortHealing.REINIT_ATTEMPTS && workers == [PortHealing.Closing] && Follows()
      modifies this
      ensures Follows() && old(trace) <= trace && workers == [] && !reinitInProgress
      ensures ok <==> PortHealing.Opened in results
      ensures out ==> ok && drv.Some?
      ensures ok ==> out || ClosedSince(|old(trace)|, trace)
      ensures !ok ==> drv.None?
    {
      PortHealing.LeadsInv(openedAt, trace, PortModel());
      Interfere();
      BeginRebuild();
      ok := ReinitAttempts(results);
      ghost var before := trace;
      Interfere();
      ghost var between := trace;
      EndRebuild(ok);
      if ClosedSince(|before|, between) {
        StillClosed(|before|, between, |old(trace)|, trace);
      }
    }
  }
}
