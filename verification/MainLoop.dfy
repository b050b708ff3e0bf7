/** The MIDI loop of src/main.go: each event goes to the broadcast server, into the note table and to the port. */
module MainLoop {
  import opened Sequences
  import opened IpcModel
  import opened IpcGoroutines
  import opened IpcServer
  import opened MidiOut
  import NoteTable
  import Session = SessionModel
  import opened Pipeline

  /** The table and the port after a list of events, of which the port is asked to take each. */
  ghost function Played(n: NoteTable.Notes, events: seq<Session.MidiEvent>, oks: seq<bool>): NoteTable.Notes
    requires |oks| == |events|
  {
    if events == [] then n
    else NoteTable.Apply(Played(n, Front(events), Front(oks)), NoteTable.Event(Last(events).data, Last(oks)))
  }

  lemma PlayedSnoc(n: NoteTable.Notes, events: seq<Session.MidiEvent>, oks: seq<bool>, ev: Session.MidiEvent, ok: bool)
    requires |oks| == |events|
    ensures Played(n, events + [ev], oks + [ok])
         == NoteTable.Apply(Played(n, events, oks), NoteTable.Event(ev.data, ok))
  {
    assert Front(events + [ev]) == events && Front(oks + [ok]) == oks;
  }

  lemma {:induction false} CallsAppend(a: seq<Event>, b: seq<Event>)
    ensures Calls(a + b) == Calls(a) + Calls(b)
    decreases |b|
  {
    if b == [] {
      assert a + b == a;
    } else {
      assert Front(a + b) == a + Front(b) && Last(a + b) == Last(b);
      CallsAppend(a, Front(b));
    }
  }

  lemma {:induction false} NoCalls(es: seq<Event>)
    requires NoneBy(es, Publisher)
    ensures Calls(es) == []
    decreases |es|
  {
    if es != [] {
      assert forall k :: 0 <= k < |es| - 1 ==> Front(es)[k] == es[k];
      NoCalls(Front(es));
    }
  }

  lemma {:induction false} OneCall(es: seq<Event>, msg: Bytes)
    requires IsPublish(es, msg)
    ensures Calls(es) == [msg]
    decreases |es|
  {
    if |es| == 1 {
      assert Front(es) == [];
    } else {
      assert Front(es)[0] == es[0] && forall k :: 0 <= k < |es| - 1 ==> Front(es)[k] == es[k];
      OneCall(Front(es), msg);
    }
  }

  /** Others act, and the event is published. */
  method PublishNext(ipc: IPCServer, data: Bytes) returns (ghost es: seq<Event>)
    requires ipc.Valid() && ipc.message.None?
    modifies ipc, ipc.registered
    ensures ipc.Valid() && ipc.message.None? && Leads(old(ipc.Model()), es, ipc.Model()) && Calls(es) == [data]
    ensures old(ipc.registered) <= ipc.registered
    ensures forall k :: |old(ipc.registered)| <= k < |ipc.registered| ==> fresh(ipc.registered[k])
  {
    var steps: nat := *;
    es := ipc.Interfere(steps, Publisher, Publisher);
    ghost var between := ipc.Model();
    ghost var more := ipc.Publish(data);
    LeadsAppend(old(ipc.Model()), es, between, more, ipc.Model());
    NoCalls(es);
    OneCall(more, data);
    CallsAppend(es, more);
    es := es + more;
  }

  /** One round of the loop. */
  method Turn(ev: Session.MidiEvent, ipc: IPCServer, midi: MidiOutput, ready: bool, taken: bool)
    returns (ghost es: seq<Event>)
    requires ipc.Valid() && ipc.message.None? && midi.Follows()
    modifies ipc, ipc.registered, midi
    ensures ipc.Valid() && ipc.message.None? && Leads(old(ipc.Model()), es, ipc.Model()) && Calls(es) == [ev.data]
    ensures old(ipc.registered) <= ipc.registered
    ensures forall k :: |old(ipc.registered)| <= k < |ipc.registered| ==> fresh(ipc.registered[k])
    ensures midi.Follows() && midi.out == old(midi.out)
    ensures midi.NotesModel() == if ready then NoteTable.Apply(old(midi.NotesModel()),
                                                               NoteTable.Event(ev.data, midi.out && taken))
                                 else old(midi.NotesModel())
  {
    es := PublishNext(ipc, ev.data);
    midi.HandleEvent(ev.data, ready, taken);
  }

  /** What the port has made of the messages, as long as it stays there or stays away. */
  function Oks(out: bool, takes: seq<bool>): (oks: seq<bool>)
    ensures |oks| == |takes|
  {
    seq(|takes|, k requires 0 <= k < |takes| => out && takes[k])
  }

  /** Table and port after the first k events; without a port nothing is kept. */
  ghost function After(n: NoteTable.Notes, ready: bool, events: seq<Session.MidiEvent>, out: bool, takes: seq<bool>,
                       k: nat): NoteTable.Notes
    requires |takes| == |events| && k <= |events|
  {
    if ready then Played(n, events[..k], Oks(out, takes[..k])) else n
  }

  /** The loop over the events received from MidiChan; ready is midiReady and takes says which messages the driver
      takes. Publish is called once with the data of each event, in order, and table and port see the same events. */
  method MidiLoop(events: seq<Session.MidiEvent>, ipc: IPCServer, midi: MidiOutput, ready: bool, takes: seq<bool>)
    returns (ghost es: seq<Event>)
    requires |takes| == |events| && ipc.Valid() && ipc.message.None? && midi.Follows()
    modifies ipc, ipc.registered, midi
    ensures ipc.Valid() && ipc.message.None? && Leads(old(ipc.Model()), es, ipc.Model())
    ensures Calls(es) == Datas(events)
    ensures midi.Follows() && midi.out == old(midi.out)
    ensures midi.NotesModel() == After(old(midi.NotesModel()), ready, events, midi.out, takes, |events|)
  {
    es := [];
    for k := 0 to |events|
      invariant ipc.Valid() && ipc.message.None? && Leads(old(ipc.Model()), es, ipc.Model())
      invariant Calls(es) == Datas(events[..k])
      invariant old(ipc.registered) <= ipc.registered
      invariant forall j :: |old(ipc.registered)| <= j < |ipc.registered| ==> fresh(ipc.registered[j])
      invariant midi.Follows() && midi.out == old(midi.out)
      invariant midi.NotesModel() == After(old(midi.NotesModel()), ready, events, midi.out, takes, k)
    {
      ghost var between := ipc.Model();
      ghost var more := Turn(events[k], ipc, midi, ready, takes[k]);
      LeadsAppend(old(ipc.Model()), es, between, more, ipc.Model());
      CallsAppend(es, more);
      es := es + more;
      OneMore(old(midi.NotesModel()), ready, events, midi.out, takes, k);
    }
    assert events[..|events|] == events;
  }

  lemma OneMore(n: NoteTable.Notes, ready: bool, events: seq<Session.MidiEvent>, out: bool, takes: seq<bool>, k: nat)
    requires |takes| == |events| && k < |events|
    ensures Datas(events[..k + 1]) == Datas(events[..k]) + [events[k].data]
    ensures var was := After(n, ready, events, out, takes, k);
            After(n, ready, events, out, takes, k + 1)
            == if ready then NoteTable.Apply(was, NoteTable.Event(events[k].data, out && takes[k])) else was
  {
    assert events[..k + 1] == events[..k] + [events[k]];
    assert Oks(out, takes[..k + 1]) == Oks(out, takes[..k]) + [out && takes[k]];
    PlayedSnoc(n, events[..k], Oks(out, takes[..k]), events[k], out && takes[k]);
  }
}
