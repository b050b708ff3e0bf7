/** The reconnect loop of src/wsclient.go told by its events alone: what may happen next, and what every field holds,
    as functions of what has happened so far, without a program counter. The state machine agrees with them in every
    run. */
module SessionTraces {
  import opened Sequences
  import opened Frames
  import opened MidiGrammar
  import opened SessionModel
  import opened SessionTheorems

  /** The events of a run that happened when it was their turn. */
  function Log(cfg: Config, es: seq<Event>): seq<Event> {
    if es == [] then []
    else Log(cfg, Front(es)) + if Enabled(Run(Init(cfg), Front(es)), Last(es)) then [Last(es)] else []
  }

  // ---------- what has happened ----------

  /** Connections dialed. */
  function Dials(log: seq<Event>): nat {
    if log == [] then 0 else Dials(Front(log)) + if Last(log).DialSucceeds? then 1 else 0
  }

  /** The number of the current connection. */
  function Session(log: seq<Event>): nat {
    if Dials(log) == 0 then 0 else Dials(log) - 1
  }

  /** Connection attempts that have ended, one way or the other. */
  function Attempts(log: seq<Event>): nat {
    if log == [] then 0
    else Attempts(Front(log)) + if Last(log).DialSucceeds? || Last(log).DialFails? then 1 else 0
  }

  function AuthOks(log: seq<Event>): nat {
    if log == [] then 0 else AuthOks(Front(log)) + if Last(log) == Message(AuthOk) then 1 else 0
  }

  function Messages(log: seq<Event>): nat {
    if log == [] then 0 else Messages(Front(log)) + if Last(log).Message? then 1 else 0
  }

  function Steps(log: seq<Event>): nat {
    if log == [] then 0 else Steps(Front(log)) + if OfLoop(Last(log)) then 1 else 0
  }

  /** Retries since the last auth_ok. */
  function Retries(log: seq<Event>): nat {
    if log == [] || Last(log) == Message(AuthOk) then 0
    else Retries(Front(log)) + if Last(log).StartWait? then 1 else 0
  }

  /** The valid midi messages that have arrived, as they arrived. */
  function Handled(log: seq<Event>): seq<MidiEvent> {
    if log == [] then []
    else
      var before := Handled(Front(log));
      match Last(log)
      case Message(Midi(data, deltaSec)) =>
        if IsMidi(data) then before + [MidiEvent(data, deltaSec, Session(Front(log)))] else before
      case _ => before
  }

  /** MidiChan: 256 places, first in, first out; what arrives when it is full is lost. */
  function Chan(log: seq<Event>): seq<MidiEvent> {
    if log == [] then []
    else
      var before := Chan(Front(log));
      match Last(log)
      case Message(Midi(data, deltaSec)) =>
        if IsMidi(data) && |before| < 256 then before + [MidiEvent(data, deltaSec, Session(Front(log)))] else before
      case Receive => if before == [] then [] else before[1..]
      case DrainOne => if before == [] then [] else before[1..]
      case _ => before
  }

  /** What the main loop has received. */
  function Received(log: seq<Event>): seq<MidiEvent> {
    if log == [] then []
    else
      var before, chan := Received(Front(log)), Chan(Front(log));
      if Last(log).Receive? && chan != [] then before + [chan[0]] else before
  }

  /** An authentication result, on the current connection. */
  predicate Settles(e: Event) {
    e == Message(AuthOk) || e == Message(AuthFail) || e == Message(Kicked)
  }

  /** The watchdog timers that are running: armed, and neither fired nor stopped by a result on their connection. */
  function Timers(log: seq<Event>): set<nat> {
    if log == [] then {}
    else
      var before := Timers(Front(log));
      match Last(log)
      case Arm => before + {Session(Front(log))}
      case Fire(c) => before - {c}
      case e => if Settles(e) then before - {Session(Front(log))} else before
  }

  /** The connections on which an authentication result has been handled. */
  function Settled(log: seq<Event>): set<nat> {
    if log == [] then {}
    else if Settles(Last(log)) then Settled(Front(log)) + {Session(Front(log))}
    else Settled(Front(log))
  }

  /** The connections whose watchdog has fired. */
  function Fired(log: seq<Event>): set<nat> {
    if log == [] then {} else if Last(log).Fire? then Fired(Front(log)) + {Last(log).c} else Fired(Front(log))
  }

  /** Whether there is a current connection: installed, and not closed by the loop since. */
  predicate Connected(log: seq<Event>) {
    if log == [] then false
    else
      match Last(log)
      case Install => true
      case PumpExit => false
      case WriteAuth(ok) => ok && Connected(Front(log))
      case _ => Connected(Front(log))
  }

  /** The connections the client has closed: at the end of their session, by Disconnect, or by a watchdog. */
  function Closed(log: seq<Event>): set<nat> {
    if log == [] then {}
    else
      var before, current := Closed(Front(log)), Session(Front(log));
      match Last(log)
      case PumpExit => before + {current}
      case WriteAuth(ok) => if ok then before else before + {current}
      case Disconnects => if Connected(Front(log)) then before + {current} else before
      case Fire(c) => before + {c}
      case _ => before
  }

  // ---------- what may happen next ----------

  /** Where the last step of the loop is in the log. */
  function LastStep(log: seq<Event>): (k: Option<nat>)
    ensures k.Some? ==> k.value < |log| && OfLoop(log[k.value])
  {
    if log == [] then None else if OfLoop(Last(log)) then Some(|log| - 1) else LastStep(Front(log))
  }

  /** The order in which connectLoop and readPump do things: whether e may follow their step last. before is what had
      happened before that step, failed whether auth_fail has arrived, and empty whether MidiChan is. */
  predicate Follows(cfg: Config, last: Event, before: seq<Event>, failed: bool, empty: bool, e: Event) {
    match last
    case CheckStop => e == CheckCount && Disconnects !in before
    case CheckCount =>
      (e == DialFails || e == DialSucceeds) && !(cfg.maxAttempts > 0 && Retries(before) >= cfg.maxAttempts)
    case DialFails => e == StartWait && cfg.enabled
    case DialSucceeds => e == Install
    case Install => e == Arm
    case Arm => e.WriteAuth?
    case WriteAuth(ok) => if ok then e == PumpCheck else e == StartWait && cfg.enabled
    case PumpCheck => if Disconnects in before then e == PumpExit else e == ReadFails || e.Message?
    case ReadFails => e == PumpExit
    case Message(m) => e == if m == AuthFail || m == Kicked then PumpExit else PumpCheck
    case PumpExit => e == if empty then DrainDone else DrainOne
    case DrainOne => e == if empty then DrainDone else DrainOne
    case DrainDone => e == StartWait && cfg.enabled && !failed
    case StartWait => e == Wake
    case Wake => e == CheckStop && Disconnects !in before
    case _ => false
  }

  /** Whether e may be the loop's next step. */
  predicate MayFollow(cfg: Config, log: seq<Event>, e: Event) {
    var last := LastStep(log);
    if last.None? then e == CheckStop
    else Follows(cfg, log[last.value], log[..last.value], Message(AuthFail) in log, Chan(log) == [], e)
  }

  // ---------- the machine agrees ----------

  /** The machine's place after its step last. */
  function PlaceAfter(cfg: Config, last: Event, before: seq<Event>, failed: bool): Pc {
    var again := if cfg.enabled then Pc.Backoff else Finished;
    var stopped := Disconnects in before;
    match last
    case CheckStop => if stopped then Finished else Checked
    case CheckCount => if cfg.maxAttempts > 0 && Retries(before) >= cfg.maxAttempts then Finished else Dialing
    case DialFails => again
    case DialSucceeds => Dialed
    case Install => Installed
    case Arm => Armed
    case WriteAuth(ok) => if ok then PumpTop else again
    case PumpCheck => if stopped then PumpDone(false) else Reading
    case ReadFails => PumpDone(false)
    case Message(m) => if m == AuthFail || m == Kicked then PumpDone(m == AuthFail) else PumpTop
    case PumpExit => Draining(failed)
    case DrainOne => Draining(failed)
    case DrainDone => if failed then Finished else again
    case StartWait => Waiting
    case Wake => if stopped then Finished else AtTop
    case _ => AtTop
  }

  function PlaceOf(cfg: Config, log: seq<Event>): Pc {
    var last := LastStep(log);
    if last.None? then AtTop
    else PlaceAfter(cfg, log[last.value], log[..last.value], Message(AuthFail) in log)
  }

  ghost predicate PlaceTold(s: Client, log: seq<Event>) {
    && s.pc == PlaceOf(s.cfg, log)
    && (s.stopped <==> Disconnects in log)
    && s.reconnectCount == Retries(log)
    && (s.tally.authFailed <==> Message(AuthFail) in log)
  }

  ghost predicate TallyTold(s: Client, log: seq<Event>) {
    && s.link.sessions == Dials(log)
    && s.tally.attempts == Attempts(log) + (if s.pc.Dialing? then 1 else 0)
    && s.tally.authOks == AuthOks(log)
    && s.tally.messages == Messages(log)
    && s.tally.steps == Steps(log)
  }

  ghost predicate QueueTold(s: Client, log: seq<Event>) {
    && s.queue.handled == Handled(log)
    && s.queue.chan == Chan(log)
    && s.queue.received == Received(log)
  }

  ghost predicate TimersTold(s: Client, log: seq<Event>) {
    s.link.armed == Timers(log) && s.link.settled == Settled(log) && s.link.fired == Fired(log)
  }

  ghost predicate ConnTold(s: Client, log: seq<Event>) {
    s.link.conn == (if Connected(log) then Some(Session(log)) else None) && s.link.shut == Closed(log)
  }

  ghost predicate Told(s: Client, log: seq<Event>) {
    && PlaceTold(s, log)
    && TallyTold(s, log)
    && QueueTold(s, log)
    && TimersTold(s, log)
    && ConnTold(s, log)
  }

  lemma StepBack(log: seq<Event>, e: Event)
    ensures Front(log + [e]) == log && Last(log + [e]) == e
    ensures LastStep(log + [e]) == if OfLoop(e) then Some(|log|) else LastStep(log)
    ensures OfLoop(e) ==> (log + [e])[..|log|] == log
  {
  }

  lemma PlaceKept(cfg: Config, log: seq<Event>, e: Event)
    requires !OfLoop(e)
    ensures PlaceOf(cfg, log + [e]) == PlaceOf(cfg, log)
  {
    StepBack(log, e);
    var last := LastStep(log);
    if last.Some? {
      assert (log + [e])[..last.value] == log[..last.value];
    }
  }

  lemma PlaceMoves(s: Client, log: seq<Event>, e: Event)
    requires PlaceTold(s, log) && ConnOk(s) && Enabled(s, e) && OfLoop(e)
    ensures Step(s, e).pc == PlaceOf(s.cfg, log + [e])
  {
    StepBack(log, e);
    assert Message(AuthFail) in log + [e] <==> Message(AuthFail) in log || e == Message(AuthFail);
  }

  lemma PlaceStep(s: Client, log: seq<Event>, e: Event)
    requires PlaceTold(s, log) && ConnOk(s) && Enabled(s, e)
    ensures PlaceTold(Step(s, e), log + [e])
  {
    StepBack(log, e);
    if OfLoop(e) {
      PlaceMoves(s, log, e);
    } else {
      PlaceKept(s.cfg, log, e);
    }
  }

  lemma TallyStep(s: Client, log: seq<Event>, e: Event)
    requires TallyTold(s, log) && Enabled(s, e)
    ensures TallyTold(Step(s, e), log + [e])
  {
    StepBack(log, e);
  }

  lemma QueueToldMessage(s: Client, log: seq<Event>, m: ServerMsg)
    requires QueueTold(s, log) && s.link.sessions == Dials(log) && Enabled(s, Message(m))
    ensures QueueTold(Step(s, Message(m)), log + [Message(m)])
  {
    StepBack(log, Message(m));
    match m
    case Midi(data, deltaSec) =>
    case _ => assert Step(s, Message(m)).queue == s.queue;
  }

  lemma QueueToldStep(s: Client, log: seq<Event>, e: Event)
    requires QueueTold(s, log) && s.link.sessions == Dials(log) && Enabled(s, e)
    ensures QueueTold(Step(s, e), log + [e])
  {
    StepBack(log, e);
    match e
    case Message(m) => QueueToldMessage(s, log, m);
    case Receive =>
    case DrainOne =>
    case _ => QueueKept(s, e);
  }

  lemma TimersToldMessage(s: Client, log: seq<Event>, m: ServerMsg)
    requires TimersTold(s, log) && s.link.sessions == Dials(log) && CurrentTimerOk(s) && Enabled(s, Message(m))
    ensures TimersTold(Step(s, Message(m)), log + [Message(m)])
  {
    StepBack(log, Message(m));
  }

  lemma TimersToldStep(s: Client, log: seq<Event>, e: Event)
    requires TimersTold(s, log) && s.link.sessions == Dials(log) && CurrentTimerOk(s) && Enabled(s, e)
    ensures TimersTold(Step(s, e), log + [e])
  {
    StepBack(log, e);
    match e
    case Message(m) => TimersToldMessage(s, log, m);
    case _ =>
  }

  lemma ConnToldStep(s: Client, log: seq<Event>, e: Event)
    requires ConnTold(s, log) && s.link.sessions == Dials(log) && ConnOk(s) && Enabled(s, e)
    ensures ConnTold(Step(s, e), log + [e])
  {
    StepBack(log, e);
  }

  /** Told, not unfolded for a proof that only passes it on. */
  ghost predicate Agrees(s: Client, log: seq<Event>) {
    forall l :: l == log ==> Told(s, l) && Inv(s)
  }

  lemma AgreesStep(s: Client, log: seq<Event>, e: Event)
    requires Agrees(s, log) && Enabled(s, e)
    ensures Agrees(Step(s, e), log + [e])
  {
    assert Told(s, log);
    ToldStep(s, log, e);
    StepInv(s, e);
  }

  lemma ToldStep(s: Client, log: seq<Event>, e: Event)
    requires Told(s, log) && Inv(s) && Enabled(s, e)
    ensures Told(Step(s, e), log + [e])
  {
    PlaceStep(s, log, e);
    TallyStep(s, log, e);
    QueueToldStep(s, log, e);
    TimersToldStep(s, log, e);
    ConnToldStep(s, log, e);
  }

  /** In every run the machine's state is what the log of the run tells. */
  lemma {:induction false} StateIsTold(cfg: Config, es: seq<Event>)
    ensures Agrees(Run(Init(cfg), es), Log(cfg, es)) && Run(Init(cfg), es).cfg == cfg
    decreases |es|
  {
    if es == [] {
      InitInv(cfg);
      assert Told(Init(cfg), []);
    } else {
      var before := Run(Init(cfg), Front(es));
      StateIsTold(cfg, Front(es));
      if Enabled(before, Last(es)) {
        AgreesStep(before, Log(cfg, Front(es)), Last(es));
      } else {
        assert Log(cfg, es) == Log(cfg, Front(es));
      }
    }
  }

  /** The steps that are possible at a place of the loop. */
  predicate PossibleAt(pc: Pc, empty: bool, e: Event) {
    match pc
    case AtTop => e == CheckStop
    case Checked => e == CheckCount
    case Dialing => e == DialFails || e == DialSucceeds
    case Dialed => e == Install
    case Installed => e == Arm
    case Armed => e.WriteAuth?
    case PumpTop => e == PumpCheck
    case Reading => e == ReadFails || e.Message?
    case PumpDone(_) => e == PumpExit
    case Draining(_) => e == if empty then DrainDone else DrainOne
    case Backoff => e == StartWait
    case Waiting => e == Wake
    case Finished => false
  }

  lemma EnabledIsPossible(s: Client, e: Event)
    requires ConnOk(s) && OfLoop(e)
    ensures Enabled(s, e) <==> PossibleAt(s.pc, s.queue.chan == [], e)
  {
  }

  lemma PossibleFollows(cfg: Config, last: Event, before: seq<Event>, failed: bool, empty: bool, e: Event)
    requires OfLoop(last) && OfLoop(e)
    ensures PossibleAt(PlaceAfter(cfg, last, before, failed), empty, e) <==> Follows(cfg, last, before, failed, empty, e)
  {
  }

  lemma PossibleMayFollow(cfg: Config, log: seq<Event>, e: Event)
    requires OfLoop(e)
    ensures PossibleAt(PlaceOf(cfg, log), Chan(log) == [], e) <==> MayFollow(cfg, log, e)
  {
    var last := LastStep(log);
    if last.Some? {
      var k := last.value;
      PossibleFollows(cfg, log[k], log[..k], Message(AuthFail) in log, Chan(log) == [], e);
    }
  }

  lemma NextStep(s: Client, log: seq<Event>, e: Event)
    requires PlaceTold(s, log) && s.queue.chan == Chan(log) && ConnOk(s) && OfLoop(e)
    ensures Enabled(s, e) <==> MayFollow(s.cfg, log, e)
  {
    EnabledIsPossible(s, e);
    PossibleMayFollow(s.cfg, log, e);
  }

  /** In every run, exactly those steps of the loop are possible that may follow what has happened. */
  lemma OrderOfSteps(cfg: Config, es: seq<Event>, e: Event)
    requires OfLoop(e)
    ensures Enabled(Run(Init(cfg), es), e) <==> MayFollow(cfg, Log(cfg, es), e)
  {
    StateIsTold(cfg, es);
    assert Told(Run(Init(cfg), es), Log(cfg, es));
    NextStep(Run(Init(cfg), es), Log(cfg, es), e);
  }

  /** What has been handled is what arrived and is valid MIDI, unchanged and in order; the channel takes an event unless
      it holds 256, and gives them out first in, first out. */
  lemma MidiArrives(cfg: Config, es: seq<Event>)
    ensures var q, log := Run(Init(cfg), es).queue, Log(cfg, es);
            q.handled == Handled(log) && q.chan == Chan(log) && q.received == Received(log)
  {
    StateIsTold(cfg, es);
    assert Told(Run(Init(cfg), es), Log(cfg, es));
  }

  /** reconnectCount counts the retries since the last auth_ok, and the loop has ended only for one of the four reasons,
      as far as the log tells. */
  lemma RetriesAreCounted(cfg: Config, es: seq<Event>)
    ensures var s, log := Run(Init(cfg), es), Log(cfg, es);
            && s.reconnectCount == Retries(log)
            && (s.stopped <==> Disconnects in log)
            && (s.pc.Finished? ==>
                  || Disconnects in log || Message(AuthFail) in log || !cfg.enabled
                  || (cfg.maxAttempts > 0 && Retries(log) >= cfg.maxAttempts))
  {
    StateIsTold(cfg, es);
    assert Told(Run(Init(cfg), es), Log(cfg, es));
    assert Reachable(Run(Init(cfg), es));
    if Run(Init(cfg), es).pc.Finished? {
      WhyItEnds(Run(Init(cfg), es));
    }
  }

  /** Which timers run, which connection is current and which ones the client has closed. */
  lemma LinkIsTold(cfg: Config, es: seq<Event>)
    ensures var l, log := Run(Init(cfg), es).link, Log(cfg, es);
            && l.sessions == Dials(log)
            && l.armed == Timers(log) && l.settled == Settled(log) && l.fired == Fired(log)
            && l.conn == (if Connected(log) then Some(Session(log)) else None)
            && l.shut == Closed(log)
  {
    StateIsTold(cfg, es);
    assert Told(Run(Init(cfg), es), Log(cfg, es));
  }

  lemma AttemptsTold(cfg: Config, es: seq<Event>)
    ensures var s, log := Run(Init(cfg), es), Log(cfg, es);
            s.cfg == cfg && Attempts(log) <= s.tally.attempts && s.tally.authOks == AuthOks(log)
  {
    StateIsTold(cfg, es);
    assert Told(Run(Init(cfg), es), Log(cfg, es));
  }

  /** With MaxAttempts = M > 0, a log with A messages auth_ok has at most M + A * (M - 1) attempts that have ended;
      with reconnect disabled it has at most one. */
  lemma AttemptsAreBounded(cfg: Config, es: seq<Event>)
    ensures var log := Log(cfg, es);
            && (cfg.maxAttempts > 0 ==> Attempts(log) <= cfg.maxAttempts + AuthOks(log) * (cfg.maxAttempts - 1))
            && (!cfg.enabled ==> Attempts(log) <= 1)
  {
    AttemptsTold(cfg, es);
    assert Reachable(Run(Init(cfg), es));
    if cfg.maxAttempts > 0 {
      BoundedAttempts(Run(Init(cfg), es));
    }
    if !cfg.enabled {
      SingleAttempt(Run(Init(cfg), es));
    }
  }
}
