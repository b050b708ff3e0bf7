/** The self-healing of the output port in src/midiout.go: Write, and the background rebuild it starts. */
module PortHealing {
  import opened Sequences

  const REINIT_AFTER_FAILS := 5
  const REINIT_MIN_INTERVAL_MS := 5000
  const REINIT_ATTEMPTS := 3

  /** How Init ends: driver.New fails; no port can be had; a port is found but not opened; success. */
  datatype InitResult = NoDriver | NoPort | PortNotOpened | Opened

  /** Where a reinitAsync goroutine is: before closing the old port, before its k-th attempt, before its last lines. */
  datatype Worker = Closing | Trying(k: nat) | Ending(ok: bool)

  /** hasOut and drv (a numbered handle) to inProgress are fields of the source and now is the clock. The rest is
      history: the goroutines in flight, the driver handles opened, closed, and overwritten while live, and the rebuild
      times. */
  datatype Port = Port(
    hasOut: bool,
    drv: Option<nat>,
    fails: nat,
    lastReinit: Option<int>,
    inProgress: bool,
    now: int,
    workers: seq<Worker>,
    drivers: nat,
    closed: set<nat>,
    lost: set<nat>,
    starts: seq<int>)

  datatype Event =
    | Tick(ms: nat)
    | WriteSucceeds
    | WriteFails
    | WorkerCloses(i: nat)
    | WorkerTries(i: nat, r: InitResult)
    | WorkerEnds(i: nat)
    | CloseOutput

  /** The port main opens before any other goroutine runs. */
  function Opening(now: int): Port {
    Port(true, Some(0), 0, None, false, now, [], 1, {}, {}, [])
  }

  predicate Enabled(p: Port, e: Event) {
    match e
    case Tick(_) => true
    case WriteSucceeds => p.hasOut
    case WriteFails => p.hasOut
    case WorkerCloses(i) => i < |p.workers| && p.workers[i].Closing?
    case WorkerTries(i, _) => i < |p.workers| && p.workers[i].Trying?
    case WorkerEnds(i) => i < |p.workers| && p.workers[i].Ending?
    case CloseOutput => true
  }

  /** closeLocked */
  function CloseLocked(p: Port): Port {
    var p' := p.(hasOut := false);
    if p.drv.None? then p' else p'.(drv := None, closed := p.closed + {p.drv.value})
  }

  /** Init, which assigns drv whatever it held before. */
  function Init(p: Port, r: InitResult): Port {
    var p' := if p.drv.None? then p else p.(lost := p.lost + {p.drv.value});
    if r.NoDriver? then p'.(drv := None)
    else p'.(drv := Some(p.drivers), drivers := p.drivers + 1, hasOut := p.hasOut || !r.NoPort?)
  }

  predicate ShouldReinit(p: Port, fails: nat) {
    && fails >= REINIT_AFTER_FAILS
    && !p.inProgress
    && (p.lastReinit.Some? ==> p.now - p.lastReinit.value > REINIT_MIN_INTERVAL_MS)
  }

  /** The failure path of Write; the rebuild goroutine is started after the lock is released. */
  function FailWrite(p: Port): Port {
    var fails := p.fails + 1;
    if ShouldReinit(p, fails)
    then p.(fails := fails, inProgress := true, lastReinit := Some(p.now),
            workers := p.workers + [Closing], starts := p.starts + [p.now])
    else p.(fails := fails)
  }

  /** One attempt of reinitAttempts, under the lock: Init, and closeLocked if it failed. */
  function Attempt(p: Port, r: InitResult): Port {
    var p' := Init(p, r);
    if r.Opened? then p' else CloseLocked(p')
  }

  function AfterAttempt(k: nat, r: InitResult): Worker {
    if r.Opened? then Ending(true) else if k < REINIT_ATTEMPTS then Trying(k + 1) else Ending(false)
  }

  function Act(p: Port, e: Event): Port
    requires Enabled(p, e)
  {
    match e
    case Tick(ms) => p.(now := p.now + ms)
    case WriteSucceeds => p.(fails := 0)
    case WriteFails => FailWrite(p)
    case WorkerCloses(i) => CloseLocked(p).(workers := p.workers[i := Trying(1)])
    case WorkerTries(i, r) => Attempt(p, r).(workers := p.workers[i := AfterAttempt(p.workers[i].k, r)])
    case WorkerEnds(i) =>
      p.(inProgress := false, fails := if p.workers[i].ok then 0 else p.fails,
         workers := p.workers[..i] + p.workers[i + 1..])
    case CloseOutput => CloseLocked(p)
  }

  function Step(p: Port, e: Event): Port {
    if Enabled(p, e) then Act(p, e) else p
  }

  function Run(p: Port, es: seq<Event>): Port {
    if es == [] then p else Step(Run(p, Front(es)), Last(es))
  }

  /** Running es from the opened port leads to p. Written with a bound variable so that a caller who only passes the
      fact on does not have Run unfolded for it. */
  ghost predicate Leads(now: int, es: seq<Event>, p: Port) {
    forall fs :: fs == es ==> Run(Opening(now), fs) == p
  }

  lemma LeadsOn(now: int, es: seq<Event>, p: Port, e: Event)
    requires Leads(now, es, p)
    ensures Leads(now, es + [e], Step(p, e))
  {
    assert Front(es + [e]) == es;
  }

  // ---------- what every step keeps ----------

  ghost predicate WorkersOk(p: Port) {
    && |p.workers| <= 1
    && (p.inProgress <==> p.workers != [])
    && (p.workers != [] && (p.workers[0].Trying? || p.workers[0] == Ending(false)) ==> p.drv.None? && !p.hasOut)
  }

  ghost predicate HandlesOk(p: Port) {
    && p.lost == {}
    && (p.drv.Some? ==> p.drv.value < p.drivers && p.drv.value !in p.closed)
    && (forall h: nat :: h < p.drivers ==> h in p.closed || p.drv == Some(h))
    && (forall h :: h in p.closed ==> h < p.drivers)
    && (p.hasOut ==> p.drv.Some?)
  }

  ghost predicate SpacingOk(p: Port) {
    && (if p.starts == [] then p.lastReinit.None? else p.lastReinit == Some(Last(p.starts)) && Last(p.starts) <= p.now)
    && forall k :: 0 < k < |p.starts| ==> p.starts[k] - p.starts[k - 1] > REINIT_MIN_INTERVAL_MS
  }

  ghost predicate Inv(p: Port) {
    WorkersOk(p) && HandlesOk(p) && SpacingOk(p)
  }

  lemma WorkersStep(p: Port, e: Event)
    requires WorkersOk(p)
    ensures WorkersOk(Step(p, e))
  {
    if Enabled(p, e) && e.WorkerEnds? {
      assert p.workers[..e.i] + p.workers[e.i + 1..] == [];
    }
  }

  lemma AttemptHandles(p: Port, r: InitResult)
    requires HandlesOk(p) && p.drv.None?
    ensures HandlesOk(Attempt(p, r))
  {
  }

  lemma HandlesStep(p: Port, e: Event)
    requires HandlesOk(p) && WorkersOk(p)
    ensures HandlesOk(Step(p, e))
  {
    if Enabled(p, e) && e.WorkerTries? {
      AttemptHandles(p, e.r);
    }
  }

  lemma SpacingStep(p: Port, e: Event)
    requires SpacingOk(p)
    ensures SpacingOk(Step(p, e))
  {
    match e
    case WriteFails => FailWriteSpacing(p);
    case _ => StartsKept(p, e);
  }

  lemma StartsKept(p: Port, e: Event)
    requires !e.WriteFails?
    ensures var q := Step(p, e); q.starts == p.starts && q.lastReinit == p.lastReinit && q.now >= p.now
  {
  }

  lemma FailWriteSpacing(p: Port)
    requires SpacingOk(p)
    ensures SpacingOk(FailWrite(p))
  {
  }

  lemma StepInv(p: Port, e: Event)
    requires Inv(p)
    ensures Inv(Step(p, e))
  {
    WorkersStep(p, e);
    HandlesStep(p, e);
    SpacingStep(p, e);
  }

  lemma {:induction false} RunInv(p: Port, es: seq<Event>)
    requires Inv(p)
    ensures Inv(Run(p, es))
    decreases |es|
  {
    if es != [] {
      RunInv(p, Front(es));
      StepInv(Run(p, Front(es)), Last(es));
    }
  }

  lemma LeadsInv(now: int, es: seq<Event>, p: Port)
    requires Leads(now, es, p)
    ensures Inv(p)
  {
    assert p == Run(Opening(now), es);
    RunInv(Opening(now), es);
  }

  /** Over every interleaving of writers, the rebuild goroutine, the clock and Close: at most one rebuild is in flight,
      rebuilds start more than five seconds apart, and no live driver handle is overwritten or forgotten. */
  lemma HealingIsOrderly(now: int, es: seq<Event>)
    ensures var p := Run(Opening(now), es);
            && |p.workers| <= 1
            && (forall k :: 0 < k < |p.starts| ==> p.starts[k] - p.starts[k - 1] > 5000)
            && p.lost == {}
            && (forall h: nat :: h < p.drivers ==> h in p.closed || p.drv == Some(h))
  {
    RunInv(Opening(now), es);
  }

  /** One more event of a run. */
  lemma Then(p0: Port, es: seq<Event>, p: Port, e: Event) returns (es': seq<Event>, p': Port)
    requires p == Run(p0, es)
    ensures es' == es + [e] && p' == Step(p, e) && p' == Run(p0, es')
  {
    es', p' := es + [e], Step(p, e);
    assert Front(es') == es;
  }

  // ---------- will there be another rebuild? ----------

  /** There is a port, or a rebuild in flight that may still open one. */
  predicate CanRebuild(p: Port) {
    p.hasOut || (p.workers != [] && !p.workers[0].Ending?)
  }

  lemma NoPortStep(p: Port, e: Event)
    requires WorkersOk(p) && !CanRebuild(p)
    ensures !CanRebuild(Step(p, e)) && Step(p, e).starts == p.starts
  {
  }

  lemma {:induction false} NoPortNoRebuild(p: Port, es: seq<Event>)
    requires Inv(p) && !CanRebuild(p)
    ensures !CanRebuild(Run(p, es)) && Run(p, es).starts == p.starts
    decreases |es|
  {
    if es != [] {
      NoPortNoRebuild(p, Front(es));
      RunInv(p, Front(es));
      NoPortStep(Run(p, Front(es)), Last(es));
    }
  }

  /** A port that is there, with no rebuild in flight: five failed writes, five seconds after the last rebuild. */
  lemma FailuresStartRebuild(p0: Port, es: seq<Event>, p: Port) returns (es': seq<Event>)
    requires p == Run(p0, es) && Inv(p) && p.hasOut && p.workers == []
    ensures |Run(p0, es').starts| > |p.starts|
  {
    var q: Port;
    es', q := Then(p0, es, p, Tick(REINIT_MIN_INTERVAL_MS + 1));
    var n := 0;
    while n < REINIT_AFTER_FAILS && q.starts == p.starts
      invariant n <= REINIT_AFTER_FAILS && q == Run(p0, es') && (q.starts != p.starts ==> |q.starts| > |p.starts|)
      invariant q.starts == p.starts ==> q.fails >= n && q.hasOut && !q.inProgress && q.lastReinit == p.lastReinit
      invariant q.now > p.now + REINIT_MIN_INTERVAL_MS
      invariant n == REINIT_AFTER_FAILS ==> q.starts != p.starts
      decreases REINIT_AFTER_FAILS - n
    {
      es', q := Then(p0, es', q, WriteFails);
      n := n + 1;
    }
  }

  lemma EndingCanEnd(p0: Port, es: seq<Event>, p: Port) returns (es': seq<Event>, q: Port)
    requires p == Run(p0, es) && p.workers == [Ending(true)] && p.hasOut
    ensures q == Run(p0, es') && q.hasOut && q.workers == [] && q.starts == p.starts
  {
    es', q := Then(p0, es, p, WorkerEnds(0));
    assert p.workers[..0] + p.workers[1..] == [];
  }

  lemma TryingCanEnd(p0: Port, es: seq<Event>, p: Port) returns (es': seq<Event>, q: Port)
    requires p == Run(p0, es) && |p.workers| == 1 && p.workers[0].Trying?
    ensures q == Run(p0, es') && q.hasOut && q.workers == [] && q.starts == p.starts
  {
    es', q := Then(p0, es, p, WorkerTries(0, Opened));
    es', q := EndingCanEnd(p0, es', q);
  }

  /** A rebuild in flight can get a port opened and end. */
  lemma RebuildCanSucceed(p: Port) returns (es: seq<Event>, q: Port)
    requires Inv(p) && CanRebuild(p)
    ensures q == Run(p, es) && q.hasOut && q.workers == [] && q.starts == p.starts
  {
    es, q := [], p;
    if p.workers != [] {
      match p.workers[0] {
        case Closing =>
          es, q := Then(p, es, q, WorkerCloses(0));
          es, q := TryingCanEnd(p, es, q);
        case Trying(_) => es, q := TryingCanEnd(p, es, q);
        case Ending(_) => es, q := EndingCanEnd(p, es, q);
      }
    }
  }

  /** The exact condition for another rebuild ever to start: there is a port, or a rebuild that has not given up yet. */
  lemma RebuildStartsAgain(p: Port)
    requires Inv(p)
    ensures (exists es :: |Run(p, es).starts| > |p.starts|) <==> CanRebuild(p)
  {
    if CanRebuild(p) {
      var es, q := RebuildCanSucceed(p);
      RunInv(p, es);
      es := FailuresStartRebuild(p, es, q);
    } else {
      forall es ensures Run(p, es).starts == p.starts {
        NoPortNoRebuild(p, es);
      }
    }
  }

  lemma GivenUp(p: Port, i: nat)
    requires WorkersOk(p) && i < |p.workers| && p.workers[i] == Ending(false)
    ensures !CanRebuild(p)
  {
  }

  /** A rebuild whose third attempt has failed is the last one: in every continuation, without a port Write returns
      before it counts failures, so none of the retries the log line promises ever happens. */
  lemma FailedRebuildIsFinal(now: int, before: seq<Event>, i: nat, after: seq<Event>)
    requires var p := Run(Opening(now), before); i < |p.workers| && p.workers[i] == Ending(false)
    ensures var p := Run(Opening(now), before);
            !Run(p, after).hasOut && Run(p, after).starts == p.starts
  {
    var p := Run(Opening(now), before);
    RunInv(Opening(now), before);
    GivenUp(p, i);
    NoPortNoRebuild(p, after);
  }

  lemma {:induction false} FailedWrites(n: nat) returns (es: seq<Event>, p: Port)
    requires n < REINIT_AFTER_FAILS
    ensures p == Run(Opening(0), es) && p == Opening(0).(fails := n)
  {
    if n == 0 {
      es, p := [], Opening(0);
    } else {
      es, p := FailedWrites(n - 1);
      es, p := Then(Opening(0), es, p, WriteFails);
    }
  }

  lemma RebuildStarts() returns (es: seq<Event>, p: Port)
    ensures p == Run(Opening(0), es)
    ensures p == Port(false, None, 5, Some(0), true, 0, [Trying(1)], 1, {0}, {}, [0])
  {
    es, p := FailedWrites(4);
    es, p := Then(Opening(0), es, p, WriteFails);
    es, p := Then(Opening(0), es, p, WorkerCloses(0));
  }

  /** Five failed writes and three failed attempts lead there. */
  lemma RebuildCanFail()
    ensures exists es :: var p := Run(Opening(0), es); p.workers == [Ending(false)] && p.starts == [0]
  {
    var p0 := Opening(0);
    var es, p := RebuildStarts();
    es, p := Then(p0, es, p, WorkerTries(0, NoPort));
    es, p := Then(p0, es, p, WorkerTries(0, NoDriver));
    es, p := Then(p0, es, p, WorkerTries(0, PortNotOpened));
  }
}
