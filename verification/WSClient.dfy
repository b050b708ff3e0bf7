/** src/wsclient.go as an object: connectLoop, readPump and the methods they call. Every execution is shown to be a run
    of the state machine, so what is proved about runs holds of this code. */
module WSClientLoop {
  import opened Sequences
  import opened MidiGrammar
  import opened SessionModel
  import SessionTheorems

  /** What a blocking call comes back with: success, failure, or a message that was read. */
  datatype Outcome = Ok | Fails | Got(m: ServerMsg)

  /** What other goroutines do between the steps of connectLoop. */
  type Outside = e: Event | !OfLoop(e) witness Disconnects

  /** The environment, in the order in which it acts. */
  datatype Item = Result(o: Outcome) | Interference(e: Outside)

  /** What happens once a script is used up: the process shuts down. So any finite beginning of any execution is the
      beginning of an execution under some script. */
  const SHUTDOWN: seq<Item> := [Interference(Disconnects), Result(Fails)]

  /** The script b is the script a, or a followed by shutting down. */
  ghost predicate Extends(a: seq<Item>, b: seq<Item>) {
    a <= b && forall k :: |a| <= k < |b| ==> b[k] in SHUTDOWN
  }

  predicate Blocking(e: Event) {
    e.DialFails? || e.DialSucceeds? || e.WriteAuth? || e.ReadFails? || e.Message?
  }

  /** The event a blocking call ends with, given what it came back with. */
  predicate Agrees(e: Event, o: Outcome) {
    match e
    case DialSucceeds => o == Ok
    case DialFails => o != Ok
    case WriteAuth(ok) => ok <==> o == Ok
    case Message(m) => o == Got(m)
    case ReadFails => !o.Got?
    case _ => false
  }

  /** The events of a run report exactly these acts of the environment, in this order. */
  ghost predicate Reports(es: seq<Event>, items: seq<Item>)
    decreases |es|
  {
    if es == [] then items == []
    else
      var e := Last(es);
      if !OfLoop(e) then items != [] && Last(items) == Interference(e) && Reports(Front(es), Front(items))
      else if Blocking(e) then
        items != [] && Last(items).Result? && Agrees(e, Last(items).o) && Reports(Front(es), Front(items))
      else Reports(Front(es), items)
  }

  /** Reports, not unfolded for a caller who only passes it on. */
  ghost predicate Reported(es: seq<Event>, items: seq<Item>) {
    forall fs :: fs == es ==> Reports(fs, items)
  }

  lemma ReportedQuiet(es: seq<Event>, items: seq<Item>, e: Event)
    requires Reported(es, items) && OfLoop(e) && !Blocking(e)
    ensures Reported(es + [e], items)
  {
    assert Front(es + [e]) == es;
    assert Reports(es, items);
  }

  lemma ReportedAct(es: seq<Event>, items: seq<Item>, e: Event, item: Item)
    requires Reported(es, items)
    requires if OfLoop(e) then Blocking(e) && item.Result? && Agrees(e, item.o) else item == Interference(e)
    ensures Reported(es + [e], items + [item])
  {
    assert Front(es + [e]) == es && Front(items + [item]) == items;
    assert Reports(es, items);
  }

  /** The three reasons of readPump: "", "failed" and "closed". */
  datatype Reason = NoReason | Failed | Closed

  class WSClient {
    const cfg: Config
    var reconnectCount: nat
    var conn: Option<nat>
    var authWatchdog: Option<nat>
    var midiChan: seq<MidiEvent>
    var stopped: bool

    // the environment: dialed connections, running timers, connections closed by this client
    var script: seq<Item>
    var sessions: nat
    var armed: set<nat>
    var shut: set<nat>

    // history
    ghost var pc: Pc
    ghost var settled: set<nat>
    ghost var fired: set<nat>
    ghost var handled: seq<MidiEvent>
    ghost var received: seq<MidiEvent>
    ghost var drained: nat
    ghost var overflowed: nat
    ghost var tally: Tally
    ghost var trace: seq<Event>
    // the part of the environment's script that has been acted out, and the whole script
    ghost var consumed: seq<Item>
    ghost var plan: seq<Item>

    ghost function LinkModel(): Link
      reads this
    {
      Link(conn, authWatchdog, armed, shut, sessions, settled, fired)
    }

    ghost function QueueModel(): Queue
      reads this
    {
      Queue(midiChan, handled, received, drained, overflowed)
    }

    ghost function Model(): Client
      reads this
    {
      Client(cfg, pc, reconnectCount, stopped, LinkModel(), QueueModel(), tally)
    }

    /** What has been executed so far is a run of the state machine, driven by the script as far as it has got. */
    ghost predicate Follows()
      reads this
    {
      Leads(cfg, trace, Model()) && Reported(trace, consumed) && consumed + script == plan
    }

    constructor (cfg: Config, script: seq<Item>)
      ensures Follows() && pc.AtTop? && trace == [] && plan == script
    {
      this.cfg := cfg;
      this.script := script;
      reconnectCount, conn, authWatchdog, midiChan, stopped := 0, None, None, [], false;
      sessions, armed, shut := 0, {}, {};
      pc, settled, fired, handled, received := AtTop, {}, {}, [], [];
      drained, overflowed, tally, trace := 0, 0, Tally(0, 0, 0, 0, false), [];
      consumed, plan := [], script;
    }

    ghost method Count(e: Event, was: Client)
      requires Leads(cfg, trace, was) && OfLoop(e) && Enabled(was, e) && Model() == SessionModel.Act(was, e)
      modifies this`tally, this`trace
      ensures Leads(cfg, trace, Model()) && trace == old(trace) + [e]
    {
      LeadsOn(cfg, trace, was, e);
      tally := tally.(steps := tally.steps + 1);
      trace := trace + [e];
    }

    /** This goroutine has just made the change e stands for, from the state was, without asking the environment. */
    ghost method Record(e: Event, was: Client)
      requires Leads(cfg, trace, was) && Reported(trace, consumed) && consumed + script == plan
      requires OfLoop(e) && !Blocking(e) && Enabled(was, e) && Model() == SessionModel.Act(was, e)
      modifies this`tally, this`trace
      ensures Follows() && trace == old(trace) + [e]
    {
      ReportedQuiet(trace, consumed, e);
      Count(e, was);
    }

    /** The environment's next act has been made use of. */
    method Pop()
      requires script != [] && consumed + script == plan
      modifies this`script, this`consumed
      ensures consumed == old(consumed) + [old(script[0])] && script == old(script)[1..] && consumed + script == plan
    {
      HeadAndTail(script);
      Associative(consumed, [script[0]], script[1..]);
      consumed := consumed + [script[0]];
      script := script[1..];
    }

    /** This goroutine has just made the change e stands for, on the result of a blocking call. */
    method RecordAnswer(ghost e: Event, ghost was: Client)
      requires Leads(cfg, trace, was) && Reported(trace, consumed) && consumed + script == plan
      requires script != [] && script[0].Result? && Blocking(e) && Agrees(e, script[0].o)
      requires OfLoop(e) && Enabled(was, e) && Model() == SessionModel.Act(was, e)
      modifies this`tally, this`trace, this`script, this`consumed
      ensures Follows() && trace == old(trace) + [e] && script == old(script)[1..]
    {
      ReportedAct(trace, consumed, e, script[0]);
      Pop();
      Count(e, was);
    }

    /** The steps of this goroutine that change nothing but its place. */
    ghost predicate Moves(e: Event, next: Pc)
      reads this`pc, this`stopped, this`midiChan
    {
      match e
      case CheckStop => pc.AtTop? && next == if stopped then Finished else Checked
      case PumpCheck => pc.PumpTop? && next == if stopped then PumpDone(false) else Reading
      case DrainDone => pc.Draining? && midiChan == [] && next == if pc.failed then Finished else Retry(cfg)
      case Wake => pc.Waiting? && next == if stopped then Finished else AtTop
      case _ => false
    }

    ghost method Advance(e: Event, next: Pc)
      requires Follows() && Moves(e, next)
      modifies this`pc, this`tally, this`trace
      ensures Follows() && pc == next && trace == old(trace) + [e]
    {
      var was := Model();
      pc := next;
      Record(e, was);
    }

    // ---------- other goroutines ----------

    method Disconnect()
      modifies this`stopped, this`shut
      ensures stopped && LinkModel() == ShutConn(old(LinkModel()))
    {
      stopped := true;
      if conn.Some? {
        shut := shut + {conn.value};
      }
    }

    /** The main loop receives from MidiChan, if it can. */
    method ReceiveMidi()
      modifies this`midiChan, this`received
      ensures QueueModel() == if old(midiChan) == [] then old(QueueModel()) else TakeOne(old(QueueModel()))
    {
      if midiChan != [] {
        received := received + [midiChan[0]];
        midiChan := midiChan[1..];
      }
    }

    /** The function armAuthWatchdog hands to its timer, if the timer is still running. */
    method WatchdogFires(c: nat)
      modifies this`armed, this`shut, this`fired
      ensures LinkModel() == if c in old(armed) then FireWatchdog(old(LinkModel()), c) else old(LinkModel())
    {
      if c in armed {
        armed := armed - {c};
        shut := shut + {c};
        fired := fired + {c};
      }
    }

    method OtherGoroutine(e: Outside)
      modifies this`stopped, this`shut, this`midiChan, this`received, this`armed, this`fired
      ensures Model() == Step(old(Model()), e)
      ensures (old(stopped) ==> stopped) && |midiChan| <= |old(midiChan)| && (e.Disconnects? ==> stopped)
    {
      match e {
        case Disconnects => Disconnect();
        case Receive => ReceiveMidi();
        case Fire(c) => WatchdogFires(c);
      }
    }

    method Act(e: Outside)
      requires Leads(cfg, trace, Model())
      modifies this`stopped, this`shut, this`midiChan, this`received, this`armed, this`fired, this`trace
      ensures Leads(cfg, trace, Model()) && trace == old(trace) + [e]
      ensures (old(stopped) ==> stopped) && |midiChan| <= |old(midiChan)| && (e.Disconnects? ==> stopped)
    {
      LeadsOn(cfg, trace, Model(), e);
      OtherGoroutine(e);
      trace := trace + [e];
    }

    /** One act of another goroutine. */
    method Disturb()
      requires Follows() && script != [] && script[0].Interference?
      modifies this`script, this`consumed, this`stopped, this`shut, this`midiChan, this`received, this`armed,
               this`fired, this`trace
      ensures Follows() && script == old(script)[1..]
      ensures (old(stopped) ==> stopped) && |midiChan| <= |old(midiChan)|
      ensures old(script[0]) == Interference(Disconnects) ==> stopped
    {
      var e := script[0].e;
      ReportedAct(trace, consumed, e, script[0]);
      Pop();
      Act(e);
    }

    /** Whatever the script lets happen before this goroutine's next step. */
    method Interfere()
      requires Follows()
      modifies this`script, this`consumed, this`stopped, this`shut, this`midiChan, this`received, this`armed,
               this`fired, this`trace
      ensures Follows() && |script| <= |old(script)| && (script != [] ==> script[0].Result?)
      ensures (old(stopped) ==> stopped) && |midiChan| <= |old(midiChan)|
    {
      while script != [] && script[0].Interference?
        invariant Follows() && |script| <= |old(script)|
        invariant (old(stopped) ==> stopped) && |midiChan| <= |old(midiChan)|
        decreases |script|
      {
        Disturb();
      }
    }

    /** A blocking call returns; a script that is used up continues with shutting down. */
    method Await() returns (o: Outcome)
      requires Follows()
      modifies this`script, this`consumed, this`plan, this`stopped, this`shut, this`midiChan, this`received, this`armed,
               this`fired, this`trace
      ensures Follows() && (old(stopped) ==> stopped) && |midiChan| <= |old(midiChan)|
      ensures script != [] && script[0] == Result(o)
      ensures |script| <= |old(script)| || (o == Fails && stopped && |script| == 1)
      ensures Extends(old(plan), plan)
    {
      Interfere();
      if script == [] {
        assert consumed + SHUTDOWN == plan + SHUTDOWN;
        script, plan := SHUTDOWN, plan + SHUTDOWN;
        Disturb();
      }
      o := script[0].o;
    }

    // ---------- the methods of the source ----------

    method ArmAuthWatchdog()
      requires Follows() && pc.Installed? && sessions > 0
      modifies this`armed, this`authWatchdog, this`pc, this`tally, this`trace
      ensures Follows() && pc.Armed? && trace == old(trace) + [Arm]
    {
      ghost var was := Model();
      armed := armed + {sessions - 1};
      authWatchdog := Some(sessions - 1);
      pc := Armed;
      Record(Arm, was);
    }

    method StopAuthWatchdog()
      requires sessions > 0
      modifies this`armed, this`authWatchdog, this`settled
      ensures LinkModel() == StopWatchdog(old(LinkModel()))
    {
      if authWatchdog.Some? {
        armed := armed - {authWatchdog.value};
        authWatchdog := None;
      }
      settled := settled + {sessions - 1};
    }

    method CloseConn()
      modifies this`conn, this`shut
      ensures LinkModel() == SessionModel.CloseConn(old(LinkModel()))
    {
      if conn.Some? {
        shut := shut + {conn.value};
        conn := None;
      }
    }

    /** The case "midi" of handleMessage. */
    method HandleMidi(data: seq<Frames.byte>, deltaSec: real)
      requires sessions > 0
      modifies this`midiChan, this`handled, this`overflowed
      ensures QueueModel() == Enqueue(old(QueueModel()), data, deltaSec, sessions - 1)
      ensures !IsMidi(data) ==> QueueModel() == old(QueueModel())
      ensures IsMidi(data) ==>
                var ev := MidiEvent(data, deltaSec, sessions - 1);
                && handled == old(handled) + [ev]
                && midiChan == (if |old(midiChan)| < 256 then old(midiChan) + [ev] else old(midiChan))
    {
      var valid := ValidMidiMessage(data);
      if !valid {
        return;
      }
      var ev := MidiEvent(data, deltaSec, sessions - 1);
      handled := handled + [ev];
      if |midiChan| < MIDI_CHAN_SIZE {
        midiChan := midiChan + [ev];
      } else {
        overflowed := overflowed + 1;
      }
    }

    function AfterMessage(reason: Reason): Pc {
      match reason
      case NoReason => PumpTop
      case Failed => PumpDone(true)
      case Closed => PumpDone(false)
    }

    /** The switch of handleMessage. */
    method Dispatch(m: ServerMsg) returns (reason: Reason)
      requires sessions > 0
      modifies this`armed, this`authWatchdog, this`settled, this`midiChan, this`handled, this`overflowed,
               this`reconnectCount, this`pc, this`tally
      ensures Model() == Handle(old(Model()), m) && pc == AfterMessage(reason)
    {
      match m {
        case AuthOk =>
          StopAuthWatchdog();
          reconnectCount := 0;
          tally := tally.(authOks := tally.authOks + 1);
          reason := NoReason;
        case AuthFail =>
          StopAuthWatchdog();
          tally := tally.(authFailed := true);
          reason := Failed;
        case Kicked =>
          StopAuthWatchdog();
          reason := Closed;
        case Midi(data, deltaSec) =>
          HandleMidi(data, deltaSec);
          reason := NoReason;
        case Other =>
          reason := NoReason;
      }
      pc := AfterMessage(reason);
    }

    /** handleMessage, with the return to the top of readPump or out of it. */
    method HandleMessage(m: ServerMsg) returns (reason: Reason)
      requires Follows() && pc.Reading? && sessions > 0 && script != [] && script[0] == Result(Got(m))
      modifies this`armed, this`authWatchdog, this`settled, this`midiChan, this`handled, this`overflowed,
               this`reconnectCount, this`pc, this`tally, this`trace, this`script, this`consumed
      ensures Follows() && pc == AfterMessage(reason)
      ensures trace == old(trace) + [Message(m)] && script == old(script)[1..]
    {
      ghost var was := Model();
      reason := Dispatch(m);
      tally := tally.(messages := tally.messages + 1);
      RecordAnswer(Message(m), was);
    }

    /** A blocking call has failed. */
    method GiveUp(ghost e: Event, ghost next: Pc)
      requires Follows() && script != [] && script[0].Result? && Agrees(e, script[0].o)
      requires || (e.DialFails? && pc.Dialing? && next == Retry(cfg))
               || (e.ReadFails? && pc.Reading? && next == PumpDone(false))
      modifies this`pc, this`tally, this`trace, this`script, this`consumed
      ensures Follows() && pc == next && trace == old(trace) + [e] && script == old(script)[1..]
    {
      ghost var was := Model();
      pc := next;
      RecordAnswer(e, was);
    }

    /** The stop check of readPump. */
    method MayRead() returns (go: bool)
      requires Follows() && pc.PumpTop?
      modifies this
      ensures plan == old(plan)
      ensures Follows() && pc == (if go then Reading else PumpDone(false)) && sessions == old(sessions)
      ensures |script| <= |old(script)| && (old(stopped) ==> stopped)
    {
      Interfere();
      go := !stopped;
      Advance(PumpCheck, if go then Reading else PumpDone(false));
    }

    /** ReadMessage, and what follows it. */
    method ReadOne() returns (reason: Reason)
      requires Follows() && pc.Reading? && sessions > 0
      modifies this
      ensures Extends(old(plan), plan)
      ensures Follows() && pc == AfterMessage(reason) && sessions == old(sessions)
      ensures reason == NoReason ==> |script| < |old(script)|
      ensures |script| <= |old(script)| && (old(stopped) ==> stopped)
    {
      var o := Await();
      if !o.Got? {
        GiveUp(ReadFails, PumpDone(false));
        return Closed;
      }
      reason := HandleMessage(o.m);
    }

    /** One round of the loop of readPump. */
    method PumpOnce() returns (reason: Reason)
      requires Follows() && pc.PumpTop? && sessions > 0
      modifies this
      ensures Extends(old(plan), plan)
      ensures Follows() && pc == AfterMessage(reason) && sessions == old(sessions)
      ensures reason == NoReason ==> |script| < |old(script)|
      ensures |script| <= |old(script)| && (old(stopped) ==> stopped)
    {
      var go := MayRead();
      if !go {
        return Closed;
      }
      reason := ReadOne();
    }

    method ReadPump() returns (reason: Reason)
      requires Follows() && pc.PumpTop? && sessions > 0
      modifies this
      ensures Extends(old(plan), plan)
      ensures Follows() && reason != NoReason && pc == PumpDone(reason == Failed)
      ensures |script| <= |old(script)| && (old(stopped) ==> stopped)
    {
      reason := NoReason;
      while reason == NoReason
        invariant Extends(old(plan), plan)
        invariant Follows() && pc == AfterMessage(reason) && sessions > 0
        invariant |script| <= |old(script)| && (old(stopped) ==> stopped)
        decreases reason == NoReason, |script|
      {
        reason := PumpOnce();
      }
    }

    /** One receive of drainMidiChan. */
    method DrainOne()
      requires Follows() && pc.Draining? && midiChan != []
      modifies this`midiChan, this`drained, this`tally, this`trace
      ensures Follows() && |midiChan| < |old(midiChan)| && trace == old(trace) + [Event.DrainOne]
    {
      ghost var was := Model();
      midiChan := midiChan[1..];
      drained := drained + 1;
      Record(Event.DrainOne, was);
    }

    method DrainMidiChan()
      requires Follows() && pc.Draining?
      modifies this`midiChan, this`drained, this`tally, this`script, this`consumed, this`stopped, this`shut,
               this`received, this`armed, this`fired, this`trace
      ensures Follows() && midiChan == [] && |script| <= |old(script)| && (old(stopped) ==> stopped)
    {
      Interfere();
      while midiChan != []
        invariant Follows() && |script| <= |old(script)| && (old(stopped) ==> stopped)
        decreases |midiChan|
      {
        DrainOne();
        Interfere();
      }
    }

    /** reconnectWait up to its select. */
    method CountRetry()
      requires Follows() && pc.Backoff?
      modifies this`reconnectCount, this`pc, this`tally, this`trace
      ensures Follows() && pc.Waiting? && trace == old(trace) + [StartWait]
    {
      ghost var was := Model();
      reconnectCount := reconnectCount + 1;
      pc := Waiting;
      Record(StartWait, was);
    }

    /** reconnectWait and the check of isStopped after it; whether to go round again. */
    method ReconnectWait() returns (again: bool)
      requires Follows() && pc.Backoff?
      modifies this
      ensures plan == old(plan)
      ensures Follows() && pc == (if again then AtTop else Finished)
      ensures |script| <= |old(script)| && (old(stopped) ==> !again)
    {
      CountRetry();
      Interfere();
      again := !stopped;
      Advance(Wake, if stopped then Finished else AtTop);
    }

    /** The three ways an attempt fails share their ending: return, or wait and go round again. */
    method AfterFailure() returns (again: bool)
      requires Follows() && pc == Retry(cfg)
      modifies this
      ensures plan == old(plan)
      ensures Follows() && pc == (if again then AtTop else Finished)
      ensures |script| <= |old(script)| && (old(stopped) ==> !again)
    {
      if !cfg.enabled {
        return false;
      }
      again := ReconnectWait();
    }

    /** The MaxAttempts check. */
    method CheckMaxAttempts() returns (go: bool)
      requires Follows() && pc.Checked?
      modifies this`pc, this`tally, this`trace
      ensures Follows() && pc == (if go then Dialing else Finished) && trace == old(trace) + [CheckCount]
    {
      ghost var was := Model();
      var count := reconnectCount;
      if cfg.maxAttempts > 0 && count >= cfg.maxAttempts {
        pc := Finished;
        go := false;
      } else {
        pc := Dialing;
        tally := tally.(attempts := tally.attempts + 1);
        go := true;
      }
      Record(CheckCount, was);
    }

    /** The stop check at the top of connectLoop. */
    method PassStopCheck() returns (go: bool)
      requires Follows() && pc.AtTop?
      modifies this
      ensures plan == old(plan)
      ensures Follows() && pc == (if go then Checked else Finished)
      ensures |script| <= |old(script)| && (old(stopped) ==> !go)
    {
      Interfere();
      go := !stopped;
      Advance(CheckStop, if go then Checked else Finished);
    }

    /** The stop check and the MaxAttempts check; whether an attempt starts. */
    method MayDial() returns (go: bool)
      requires Follows() && pc.AtTop?
      modifies this
      ensures plan == old(plan)
      ensures Follows() && pc == (if go then Dialing else Finished)
      ensures |script| <= |old(script)| && (old(stopped) ==> !go)
    {
      go := PassStopCheck();
      if !go {
        return;
      }
      Interfere();
      go := CheckMaxAttempts();
    }

    /** Dial has returned a connection. */
    method Connected()
      requires Follows() && pc.Dialing? && script != [] && script[0] == Result(Ok)
      modifies this`sessions, this`pc, this`tally, this`trace, this`script, this`consumed
      ensures Follows() && pc.Dialed? && sessions == old(sessions) + 1
      ensures trace == old(trace) + [DialSucceeds] && script == old(script)[1..]
    {
      ghost var was := Model();
      sessions := sessions + 1;
      pc := Dialed;
      RecordAnswer(DialSucceeds, was);
    }

    /** w.conn = conn */
    method InstallConn()
      requires Follows() && pc.Dialed? && sessions > 0
      modifies this`conn, this`pc, this`tally, this`trace
      ensures Follows() && pc.Installed? && trace == old(trace) + [Install]
    {
      ghost var was := Model();
      conn := Some(sessions - 1);
      pc := Installed;
      Record(Install, was);
    }

    method KeepConn()
      requires Follows() && pc.Dialing? && script != [] && script[0] == Result(Ok)
      modifies this
      ensures plan == old(plan)
      ensures Follows() && pc.Installed? && sessions > 0 && (old(stopped) ==> stopped) && |script| < |old(script)|
    {
      Connected();
      Interfere();
      InstallConn();
    }

    /** buildDialer and Dial, then w.conn = conn. */
    method Dial() returns (ok: bool)
      requires Follows() && pc.Dialing?
      modifies this
      ensures Extends(old(plan), plan)
      ensures Follows() && pc == (if ok then Installed else Retry(cfg)) && (ok ==> sessions > 0)
      ensures (old(stopped) ==> stopped) && (|script| < |old(script)| || stopped) && |script| <= |old(script)|
    {
      var o := Await();
      if o != Ok {
        GiveUp(DialFails, Retry(cfg));
        return false;
      }
      KeepConn();
      return true;
    }

    /** What follows the write of the auth message: on an error the connection is closed. */
    method AuthWritten(ok: bool)
      requires Follows() && pc.Armed? && script != [] && script[0].Result? && (ok <==> script[0].o == Ok)
      modifies this`conn, this`shut, this`pc, this`tally, this`trace, this`script, this`consumed
      ensures Follows() && pc == (if ok then PumpTop else Retry(cfg))
      ensures trace == old(trace) + [WriteAuth(ok)] && script == old(script)[1..]
    {
      ghost var was := Model();
      if ok {
        pc := PumpTop;
      } else {
        CloseConn();
        pc := Retry(cfg);
      }
      RecordAnswer(WriteAuth(ok), was);
    }

    method SendAuth() returns (ok: bool)
      requires Follows() && pc.Armed?
      modifies this
      ensures Extends(old(plan), plan)
      ensures Follows() && pc == (if ok then PumpTop else Retry(cfg)) && sessions == old(sessions)
      ensures (old(stopped) ==> stopped) && |script| <= |old(script)|
    {
      var o := Await();
      ok := o == Ok;
      AuthWritten(ok);
    }

    /** readDone has been received: closeConn. */
    method ExitPump(reason: Reason)
      requires Follows() && pc == PumpDone(reason == Failed)
      modifies this`conn, this`shut, this`pc, this`tally, this`trace
      ensures Follows() && pc == Draining(reason == Failed) && trace == old(trace) + [PumpExit]
    {
      ghost var was := Model();
      CloseConn();
      pc := Draining(reason == Failed);
      Record(PumpExit, was);
    }

    /** From the end of readPump to the empty channel. */
    method EndSession(reason: Reason)
      requires Follows() && pc == PumpDone(reason == Failed)
      modifies this
      ensures plan == old(plan)
      ensures Follows() && pc == (if reason == Failed then Finished else Retry(cfg)) && midiChan == []
      ensures (old(stopped) ==> stopped) && |script| <= |old(script)|
    {
      Interfere();
      ExitPump(reason);
      DrainMidiChan();
      Advance(DrainDone, if reason == Failed then Finished else Retry(cfg));
    }

    /** From the start of readPump to the empty channel. */
    method RunSession() returns (reason: Reason)
      requires Follows() && pc.PumpTop? && sessions > 0
      modifies this
      ensures Extends(old(plan), plan)
      ensures Follows() && pc == (if reason == Failed then Finished else Retry(cfg)) && midiChan == []
      ensures (old(stopped) ==> stopped) && |script| <= |old(script)|
    {
      reason := ReadPump();
      EndSession(reason);
    }

    /** One round of connectLoop; whether to go round again. */
    method Round() returns (again: bool)
      requires Follows() && pc.AtTop?
      modifies this
      ensures Extends(old(plan), plan)
      ensures Follows() && pc == (if again then AtTop else Finished)
      ensures again ==> |script| < |old(script)|
    {
      var go := MayDial();
      if !go {
        return false;
      }
      var ok := Dial();
      if !ok {
        again := AfterFailure();
        return;
      }
      ArmAuthWatchdog();
      ok := SendAuth();
      if !ok {
        again := AfterFailure();
        return;
      }
      var reason := RunSession();
      if reason == Failed {
        return false;
      }
      again := AfterFailure();
    }

    /** connectLoop returns under every script, and its whole execution, interference included, is a run. */
    method ConnectLoop()
      requires Follows() && pc.AtTop?
      modifies this
      ensures Extends(old(plan), plan)
      ensures Follows() && pc.Finished? && midiChan == []
      ensures cfg.maxAttempts > 0 ==> tally.attempts <= cfg.maxAttempts + tally.authOks * (cfg.maxAttempts - 1)
      ensures !cfg.enabled ==> tally.attempts <= 1
      ensures || stopped || tally.authFailed || !cfg.enabled
              || (cfg.maxAttempts > 0 && reconnectCount >= cfg.maxAttempts)
    {
      var again := true;
      while again
        invariant Extends(old(plan), plan)
        invariant Follows() && pc == (if again then AtTop else Finished)
        decreases again, |script|
      {
        again := Round();
      }
      EndOfRun(cfg, trace, Model());
    }
  }

  /** What the theorems about runs say of an execution that has ended. */
  lemma EndOfRun(cfg: Config, trace: seq<Event>, s: Client)
    requires Leads(cfg, trace, s) && s.pc.Finished? && s.cfg == cfg
    ensures s.queue.chan == []
    ensures cfg.maxAttempts > 0 ==> s.tally.attempts <= cfg.maxAttempts + s.tally.authOks * (cfg.maxAttempts - 1)
    ensures !cfg.enabled ==> s.tally.attempts <= 1
    ensures || s.stopped || s.tally.authFailed || !cfg.enabled
            || (cfg.maxAttempts > 0 && s.reconnectCount >= cfg.maxAttempts)
  {
    assert s == Run(Init(cfg), trace);
    SessionTheorems.ReachableInv(s);
  }
}
