/** What the reconnect loop promises, for every run. */
module SessionTheorems {
  import opened Sequences
  import opened Frames
  import opened MidiGrammar
  import opened SessionModel

  // ---------- invariants ----------

  /** Between deciding to connect and counting the failure. */
  predicate InAttempt(pc: Pc) {
    !pc.AtTop? && !pc.Checked? && !pc.Waiting? && !pc.Finished?
  }

  ghost predicate AttemptsOk(s: Client) {
    var m := s.cfg.maxAttempts;
    m > 0 ==>
      && (InAttempt(s.pc) ==>
            s.reconnectCount <= m - 1 && s.tally.attempts <= s.tally.authOks * (m - 1) + s.reconnectCount + 1)
      && (s.pc.AtTop? || s.pc.Checked? || s.pc.Waiting? ==>
            s.reconnectCount <= m && s.tally.attempts <= s.tally.authOks * (m - 1) + s.reconnectCount)
      && (s.pc.Finished? ==> s.tally.attempts <= s.tally.authOks * (m - 1) + m)
  }

  ghost predicate SingleOk(s: Client) {
    !s.cfg.enabled ==>
      && !s.pc.Backoff? && !s.pc.Waiting?
      && s.tally.attempts <= 1
      && (s.pc.AtTop? || s.pc.Checked? ==> s.tally.attempts == 0)
  }

  /** The connection field is set exactly while a session runs; a stopped session cannot block in ReadMessage. */
  ghost predicate ConnOk(s: Client) {
    && s.link.conn == (if s.pc.Installed? || s.pc.Armed? || s.pc.PumpTop? || s.pc.Reading? || s.pc.PumpDone?
                  then Some(s.link.sessions - 1) else None)
    && (s.pc.Dialed? || s.link.conn.Some? || s.pc.Draining? ==> s.link.sessions > 0)
    && (s.pc.Reading? && s.stopped ==> s.link.sessions - 1 in s.link.shut)
    && (s.tally.authFailed ==> s.pc == PumpDone(true) || s.pc == Draining(true) || s.pc.Finished?)
  }

  /** Timers run for dialed connections without an authentication result. */
  ghost predicate TimersOk(l: Link) {
    && (forall c :: c in l.armed ==> c < l.sessions && c !in l.settled)
    && (forall c :: c in l.settled ==> c < l.sessions)
  }

  /** The current connection's timer can still be stopped, and it has none before it is armed. */
  ghost predicate CurrentTimerOk(s: Client) {
    && (s.pc.Dialed? || s.pc.Installed? ==>
          s.link.sessions - 1 !in s.link.armed && s.link.sessions - 1 !in s.link.settled)
    && (s.pc.Armed? ==> s.link.sessions - 1 !in s.link.settled)
    && (s.pc.Armed? || s.pc.PumpTop? || s.pc.Reading? ==>
          && (s.link.sessions - 1 in s.link.armed ==> s.link.watchdog == Some(s.link.sessions - 1))
          && (s.link.watchdog.Some? ==> s.link.watchdog.value == s.link.sessions - 1))
  }

  /** A connection has a timer running, or had it fire or stopped by a result, unless it is about to get one. */
  ghost predicate WatchedOk(s: Client) {
    forall c :: 0 <= c < s.link.sessions ==>
      || c in s.link.armed || c in s.link.settled || c in s.link.fired
      || (c == s.link.sessions - 1 && (s.pc.Dialed? || s.pc.Installed?))
  }

  /** Every connection but the current one has been closed. */
  ghost predicate ClosedOk(s: Client) {
    forall c :: 0 <= c < s.link.sessions ==>
      c in s.link.shut || s.link.conn == Some(c) || (c == s.link.sessions - 1 && s.pc.Dialed?)
  }

  /** The loop ends for a reason. */
  ghost predicate EndOk(s: Client) {
    && (s.pc == PumpDone(true) || s.pc == Draining(true) ==> s.tally.authFailed)
    && (s.pc.Finished? ==>
          || s.stopped || s.tally.authFailed || !s.cfg.enabled
          || (s.cfg.maxAttempts > 0 && s.reconnectCount >= s.cfg.maxAttempts))
  }

  /** Every valid midi message handled is received, drained, lost to a full channel, or queued, in order. */
  ghost predicate QueueOk(q: Queue) {
    && |q.chan| <= MIDI_CHAN_SIZE
    && |q.handled| == |q.received| + q.drained + q.overflowed + |q.chan|
    && Subsequence(q.received + q.chan, q.handled)
    && (forall k :: 0 <= k < |q.handled| ==> IsMidi(q.handled[k].data))
  }

  /** The channel holds events of the current session only, and none between sessions. */
  ghost predicate SessionOk(s: Client) {
    && (s.queue.chan != [] ==> s.pc.PumpTop? || s.pc.Reading? || s.pc.PumpDone? || s.pc.Draining?)
    && (forall k :: 0 <= k < |s.queue.chan| ==> s.queue.chan[k].session == s.link.sessions - 1)
    && |s.queue.handled| <= s.tally.messages
  }

  /** How far into its current round the loop is. */
  function Place(pc: Pc): int {
    match pc
    case AtTop => 0
    case Checked => 1
    case Dialing => 2 - 12
    case Dialed => 3 - 12
    case Installed => 4 - 12
    case Armed => 5 - 12
    case PumpTop => 6 - 12
    case Reading => 7 - 12
    case PumpDone(_) => 8 - 12
    case Draining(_) => 9 - 12
    case Backoff => 10 - 12
    case Waiting => 11 - 12
    case Finished => 2
  }

  ghost predicate StepsOk(s: Client) {
    s.tally.steps <= 12 * s.tally.attempts + Place(s.pc) + 2 * s.tally.messages + s.queue.drained
  }

  ghost predicate Inv(s: Client) {
    && AttemptsOk(s)
    && SingleOk(s)
    && ConnOk(s)
    && TimersOk(s.link)
    && CurrentTimerOk(s)
    && WatchedOk(s)
    && ClosedOk(s)
    && EndOk(s)
    && QueueOk(s.queue)
    && SessionOk(s)
    && StepsOk(s)
  }

  lemma InitInv(cfg: Config)
    ensures Inv(Init(cfg))
  {
  }

  lemma AttemptsStep(s: Client, e: Event)
    requires AttemptsOk(s)
    ensures AttemptsOk(Step(s, e))
  {
    if e == Message(AuthOk) {
      var k := s.cfg.maxAttempts - 1;
      assert (s.tally.authOks + 1) * k == s.tally.authOks * k + k;
    }
  }

  lemma SingleStep(s: Client, e: Event)
    requires SingleOk(s)
    ensures SingleOk(Step(s, e))
  {
  }

  lemma ConnStep(s: Client, e: Event)
    requires ConnOk(s)
    ensures ConnOk(Step(s, e))
  {
    if e.Message? {
      ConnMessage(s, e.m);
    }
  }

  lemma ConnMessage(s: Client, m: ServerMsg)
    requires ConnOk(s)
    ensures ConnOk(Step(s, Message(m)))
  {
  }

  lemma TimersMessage(s: Client, m: ServerMsg)
    requires TimersOk(s.link) && CurrentTimerOk(s) && ConnOk(s)
    ensures TimersOk(Step(s, Message(m)).link)
  {
  }

  /** Only these events touch a timer or settle a connection. */
  lemma TimersKept(s: Client, e: Event)
    requires !e.Message? && !e.Arm? && !e.Fire? && !e.DialSucceeds?
    ensures var l := Step(s, e).link;
            l.armed == s.link.armed && l.settled == s.link.settled && l.sessions == s.link.sessions
            && l.watchdog == s.link.watchdog
  {
  }

  lemma TimersStep(s: Client, e: Event)
    requires TimersOk(s.link) && CurrentTimerOk(s) && ConnOk(s)
    ensures TimersOk(Step(s, e).link)
  {
    match e
    case Message(m) => TimersMessage(s, m);
    case Arm =>
    case Fire(c) =>
    case DialSucceeds =>
    case _ => TimersKept(s, e);
  }

  lemma CurrentTimerMessage(s: Client, m: ServerMsg)
    requires TimersOk(s.link) && CurrentTimerOk(s) && ConnOk(s)
    ensures CurrentTimerOk(Step(s, Message(m)))
  {
  }

  lemma CurrentTimerStep(s: Client, e: Event)
    requires TimersOk(s.link) && CurrentTimerOk(s) && ConnOk(s)
    ensures CurrentTimerOk(Step(s, e))
  {
    match e
    case Message(m) => CurrentTimerMessage(s, m);
    case Arm =>
    case Fire(c) =>
    case DialSucceeds =>
    case _ => TimersKept(s, e);
  }

  lemma WatchedMessage(s: Client, m: ServerMsg)
    requires WatchedOk(s) && CurrentTimerOk(s) && ConnOk(s)
    ensures WatchedOk(Step(s, Message(m)))
  {
  }

  lemma WatchedStep(s: Client, e: Event)
    requires WatchedOk(s) && CurrentTimerOk(s) && ConnOk(s)
    ensures WatchedOk(Step(s, e))
  {
    match e
    case Message(m) => WatchedMessage(s, m);
    case Arm =>
    case Fire(c) =>
    case DialSucceeds =>
    case _ => TimersKept(s, e);
  }

  lemma ClosedStep(s: Client, e: Event)
    requires ClosedOk(s) && ConnOk(s)
    ensures ClosedOk(Step(s, e))
  {
  }

  lemma EndStep(s: Client, e: Event)
    requires EndOk(s)
    ensures EndOk(Step(s, e))
  {
  }

  lemma EnqueueOk(q: Queue, data: seq<byte>, deltaSec: real, session: nat)
    requires QueueOk(q)
    ensures QueueOk(Enqueue(q, data, deltaSec, session))
  {
    var ev := MidiEvent(data, deltaSec, session);
    SubsequenceKeep(q.received + q.chan, q.handled, ev);
    SubsequenceSkip(q.received + q.chan, q.handled, ev);
    Associative(q.received, q.chan, [ev]);
  }

  lemma TakeOneOk(q: Queue)
    requires QueueOk(q) && q.chan != []
    ensures QueueOk(TakeOne(q))
  {
    HeadAndTail(q.chan);
    Associative(q.received, [q.chan[0]], q.chan[1..]);
  }

  lemma DiscardOneOk(q: Queue)
    requires QueueOk(q) && q.chan != []
    ensures QueueOk(DiscardOne(q))
  {
    var all, n := q.received + q.chan, |q.received|;
    SubsequenceDelete(all, q.handled, n);
    assert all[..n] == q.received && all[n + 1..] == q.chan[1..];
  }

  /** Three events touch the channel. */
  lemma QueueKept(s: Client, e: Event)
    requires !e.Message? && !e.Receive? && !e.DrainOne?
    ensures Step(s, e).queue == s.queue && Step(s, e).tally.messages == s.tally.messages
  {
  }

  lemma QueueMessage(s: Client, m: ServerMsg)
    requires QueueOk(s.queue) && Enabled(s, Message(m))
    ensures QueueOk(Step(s, Message(m)).queue)
  {
    match m
    case Midi(data, deltaSec) => EnqueueOk(s.queue, data, deltaSec, Current(s.link));
    case _ => assert Step(s, Message(m)).queue == s.queue;
  }

  lemma QueueStep(s: Client, e: Event)
    requires QueueOk(s.queue)
    ensures QueueOk(Step(s, e).queue)
  {
    if Enabled(s, e) {
      match e
      case Message(m) => QueueMessage(s, m);
      case Receive => TakeOneOk(s.queue);
      case DrainOne => DiscardOneOk(s.queue);
      case _ => QueueKept(s, e);
    }
  }

  lemma SessionMessage(s: Client, m: ServerMsg)
    requires SessionOk(s) && Enabled(s, Message(m))
    ensures SessionOk(Step(s, Message(m)))
  {
  }

  lemma SessionStep(s: Client, e: Event)
    requires SessionOk(s)
    ensures SessionOk(Step(s, e))
  {
    if Enabled(s, e) {
      match e
      case Message(m) => SessionMessage(s, m);
      case Receive =>
      case DrainOne =>
      case _ => QueueKept(s, e);
    }
  }

  lemma StepsStep(s: Client, e: Event)
    requires StepsOk(s)
    ensures StepsOk(Step(s, e))
  {
  }

  lemma StepInv(s: Client, e: Event)
    requires Inv(s)
    ensures Inv(Step(s, e)) && Step(s, e).cfg == s.cfg
  {
    AttemptsStep(s, e);
    SingleStep(s, e);
    ConnStep(s, e);
    TimersStep(s, e);
    CurrentTimerStep(s, e);
    WatchedStep(s, e);
    ClosedStep(s, e);
    EndStep(s, e);
    QueueStep(s, e);
    SessionStep(s, e);
    StepsStep(s, e);
  }

  lemma {:induction false} RunInv(s: Client, es: seq<Event>)
    requires Inv(s)
    ensures Inv(Run(s, es)) && Run(s, es).cfg == s.cfg
    decreases |es|
  {
    if es != [] {
      RunInv(s, Front(es));
      StepInv(Run(s, Front(es)), Last(es));
    }
  }

  ghost predicate Reachable(s: Client) {
    exists cfg, es :: s == Run(Init(cfg), es)
  }

  lemma ReachableInv(s: Client)
    requires Reachable(s)
    ensures Inv(s)
  {
    var cfg, es :| s == Run(Init(cfg), es);
    InitInv(cfg);
    RunInv(Init(cfg), es);
  }

  // ---------- why the loop ends ----------

  /** connectLoop returns only after Disconnect or auth_fail, with reconnect disabled, or when the retries since the
      last auth_ok have used up MaxAttempts. */
  lemma WhyItEnds(s: Client)
    requires Reachable(s) && s.pc.Finished?
    ensures || s.stopped || s.tally.authFailed || !s.cfg.enabled
            || (s.cfg.maxAttempts > 0 && s.reconnectCount >= s.cfg.maxAttempts)
  {
    ReachableInv(s);
  }

  // ---------- bounded attempts ----------

  /** With MaxAttempts = M > 0 and A auth_ok messages handled, at most M + A * (M - 1) attempts have been started,
      however the server behaves. */
  lemma BoundedAttempts(s: Client)
    requires Reachable(s) && s.cfg.maxAttempts > 0
    ensures s.tally.attempts <= s.cfg.maxAttempts + s.tally.authOks * (s.cfg.maxAttempts - 1)
  {
    ReachableInv(s);
  }

  /** Hence connectLoop terminates whenever the server sends finitely many messages: the number of its steps is
      bounded. */
  lemma LoopTerminates(s: Client)
    requires Reachable(s) && s.cfg.maxAttempts > 0
    ensures s.tally.steps
         <= 12 * (s.cfg.maxAttempts + s.tally.authOks * (s.cfg.maxAttempts - 1)) + 2 + 3 * s.tally.messages
  {
    BoundedAttempts(s);
    ReachableInv(s);
  }

  /** With reconnect disabled there is at most one attempt in the whole run. */
  lemma SingleAttempt(s: Client)
    requires Reachable(s) && !s.cfg.enabled
    ensures s.tally.attempts <= 1
  {
    ReachableInv(s);
  }

  // ---------- stopping ----------

  /** An upper bound on the steps connectLoop still takes once stopChan is closed. */
  function Remaining(s: Client): nat {
    |s.queue.chan| +
    match s.pc
    case Finished => 0
    case AtTop => 1
    case Waiting => 1
    case Backoff => 2
    case Draining(_) => 3
    case PumpDone(_) => 4
    case PumpTop => 5
    case Armed => 6
    case Reading => 7
    case Installed => 7
    case Dialed => 8
    case Dialing => 9
    case Checked => 10
  }

  /** Attempts started, and the one about to start. */
  function AttemptsBegun(s: Client): nat {
    s.tally.attempts + if s.pc.Checked? then 1 else 0
  }

  /** Every step of the loop brings a stopped client nearer to its end, and nothing else moves it away. */
  lemma StoppedStep(s: Client, e: Event)
    requires s.stopped
    ensures var s' := Step(s, e);
            && s'.stopped
            && s'.tally.steps + Remaining(s') <= s.tally.steps + Remaining(s)
            && AttemptsBegun(s') <= AttemptsBegun(s)
  {
  }

  /** From whichever point Disconnect interleaves: at most one more attempt starts, and only if the loop was between its
      stop check and the dial; and the loop ends within 266 steps. */
  lemma {:induction false} StopIsPrompt(s: Client, es: seq<Event>)
    requires s.stopped
    ensures var s' := Run(s, es);
            && s'.stopped
            && AttemptsBegun(s') <= AttemptsBegun(s)
            && s'.tally.steps + Remaining(s') <= s.tally.steps + Remaining(s)
    decreases |es|
  {
    if es != [] {
      StopIsPrompt(s, Front(es));
      StoppedStep(Run(s, Front(es)), Last(es));
    }
  }

  lemma FewStepsRemain(s: Client)
    requires Reachable(s)
    ensures Remaining(s) <= 266
  {
    ReachableInv(s);
  }

  /** What lets the stopped loop take its next step without the peer: nothing at all, or a dial that returns, or, inside
      ReadMessage, the fact that its connection has been closed under it. */
  lemma StoppedLoopIsNotBlocked(s: Client)
    requires Reachable(s) && s.stopped && !s.pc.Finished?
    ensures exists e :: OfLoop(e) && Enabled(s, e) && !e.Message?
    ensures s.pc.Reading? ==> s.link.conn.Some? && s.link.conn.value in s.link.shut
  {
    ReachableInv(s);
    var e := match s.pc {
      case AtTop => CheckStop
      case Checked => CheckCount
      case Dialing => DialFails
      case Dialed => Install
      case Installed => Arm
      case Armed => WriteAuth(false)
      case PumpTop => PumpCheck
      case Reading => ReadFails
      case PumpDone(_) => PumpExit
      case Draining(_) => if s.queue.chan == [] then DrainDone else DrainOne
      case Backoff => StartWait
      case _ => Wake
    };
    assert OfLoop(e) && Enabled(s, e) && !e.Message?;
  }

  lemma AuthFailStep(s: Client, e: Event)
    requires ConnOk(s) && s.tally.authFailed
    ensures Step(s, e).tally.authFailed && Step(s, e).tally.attempts == s.tally.attempts
  {
  }

  /** After auth_fail no further attempt starts. */
  lemma {:induction false} AuthFailIsFinal(s: Client, es: seq<Event>)
    requires Inv(s) && s.tally.authFailed
    ensures Run(s, es).tally.authFailed && Run(s, es).tally.attempts == s.tally.attempts
    decreases |es|
  {
    if es != [] {
      AuthFailIsFinal(s, Front(es));
      RunInv(s, Front(es));
      AuthFailStep(Run(s, Front(es)), Last(es));
    }
  }

  // ---------- the MIDI channel ----------

  /** The channel is empty whenever a connection is installed, so at any time it holds events of one session only. */
  lemma SessionsDoNotMix(s: Client)
    requires Reachable(s)
    ensures Enabled(s, Install) ==> s.queue.chan == []
    ensures forall k :: 0 <= k < |s.queue.chan| ==> s.queue.chan[k].session == s.link.sessions - 1
    ensures s.queue.chan != [] ==> !s.pc.Backoff? && !s.pc.Waiting? && !s.pc.AtTop? && !s.pc.Dialing?
  {
    ReachableInv(s);
  }

  /** Every valid midi message handled was received by the main loop, drained, lost to a full channel, or is queued; the
      received ones are an in-order selection of the handled ones and are all well-formed MIDI. */
  lemma MidiIsAccountedFor(s: Client)
    requires Reachable(s)
    ensures |s.queue.handled| == |s.queue.received| + s.queue.drained + s.queue.overflowed + |s.queue.chan|
    ensures Subsequence(s.queue.received, s.queue.handled)
    ensures forall k :: 0 <= k < |s.queue.received| ==> IsMidi(s.queue.received[k].data)
  {
    ReachableInv(s);
    SubsequencePrefix(s.queue.received, s.queue.received + s.queue.chan, s.queue.handled);
    forall k | 0 <= k < |s.queue.received| ensures IsMidi(s.queue.received[k].data) {
      SubsequenceMember(s.queue.received, s.queue.handled, s.queue.received[k]);
    }
  }

  // ---------- the watchdog ----------

  /** A timer that fires closes its own connection, one on which no authentication result has been handled, and leaves
      every other connection alone. */
  lemma WatchdogTarget(s: Client, c: nat)
    requires Reachable(s) && Enabled(s, Fire(c))
    ensures c < s.link.sessions && c !in s.link.settled
    ensures Step(s, Fire(c)).link.shut == s.link.shut + {c}
    ensures Step(s, Fire(c)).link.conn == s.link.conn
  {
    ReachableInv(s);
  }

  lemma SettledStep(s: Client, e: Event, c: nat)
    requires Inv(s) && c in s.link.settled
    ensures c in Step(s, e).link.settled && (c in Step(s, e).link.fired ==> c in s.link.fired)
  {
  }

  /** Once an auth_ok, auth_fail or kicked has been handled on a connection, no watchdog closes it, over any number of
      later reconnects. */
  lemma {:induction false} SettledIsSafe(s: Client, es: seq<Event>, c: nat)
    requires Inv(s) && c in s.link.settled
    ensures c in Run(s, es).link.settled && (c in Run(s, es).link.fired ==> c in s.link.fired)
    decreases |es|
  {
    if es != [] {
      SettledIsSafe(s, Front(es), c);
      RunInv(s, Front(es));
      SettledStep(Run(s, Front(es)), Last(es), c);
    }
  }

  /** No session hangs unauthenticated unwatched: once the watchdog has been armed on a connection, its timer is running
      or has fired, or a result has been handled. */
  lemma EverybodyIsWatched(s: Client, c: nat)
    requires Reachable(s) && c < s.link.sessions && !s.pc.Dialed? && !s.pc.Installed?
    ensures c in s.link.armed || c in s.link.settled || c in s.link.fired
  {
    ReachableInv(s);
  }

  /** Between sessions every connection ever dialed has been closed. */
  lemma EndedSessionsAreClosed(s: Client, c: nat)
    requires Reachable(s) && c < s.link.sessions && s.link.conn != Some(c)
    ensures c in s.link.shut || (c == s.link.sessions - 1 && s.pc.Dialed?)
    ensures s.link.conn.Some? ==> s.link.conn.value == s.link.sessions - 1
  {
    ReachableInv(s);
  }
}
