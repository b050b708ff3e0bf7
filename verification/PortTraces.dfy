/** The self-healing of src/midiout.go told by its events alone. The state machine agrees with it in every run. */
module PortTraces {
  import opened Sequences
  import opened PortHealing

  /** The events of a run that happened when it was their turn. */
  function Log(now: int, es: seq<Event>): seq<Event> {
    if es == [] then []
    else Log(now, Front(es)) + if Enabled(Run(Opening(now), Front(es)), Last(es)) then [Last(es)] else []
  }

  // ---------- what has happened ----------

  function Clock(now: int, log: seq<Event>): int {
    if log == [] then now else Clock(now, Front(log)) + if Last(log).Tick? then Last(log).ms else 0
  }

  /** Whether there is a port: the last thing that opens or closes it has opened it. */
  predicate IsOpen(log: seq<Event>) {
    if log == [] then true
    else
      match Last(log)
      case WorkerCloses(_) => false
      case WorkerTries(_, r) => r == Opened
      case CloseOutput => false
      case _ => IsOpen(Front(log))
  }

  /** How the attempts of the last rebuild have ended so far. */
  function Tries(log: seq<Event>): seq<InitResult> {
    if log == [] || Last(log).WorkerCloses? then []
    else Tries(Front(log)) + if Last(log).WorkerTries? then [Last(log).r] else []
  }

  lemma TriesOn(log: seq<Event>, e: Event)
    ensures Tries(log + [e])
         == if e.WorkerCloses? then [] else Tries(log) + if e.WorkerTries? then [e.r] else []
  {
    assert Front(log + [e]) == log;
  }

  predicate Succeeded(tries: seq<InitResult>) {
    tries != [] && Last(tries) == Opened
  }

  /** A rebuild is done with trying after a success or three failures. */
  predicate Decided(tries: seq<InitResult>) {
    Succeeded(tries) || |tries| >= 3
  }

  function Closes(log: seq<Event>): nat {
    if log == [] then 0 else Closes(Front(log)) + if Last(log).WorkerCloses? then 1 else 0
  }

  function Ends(log: seq<Event>): nat {
    if log == [] then 0 else Ends(Front(log)) + if Last(log).WorkerEnds? then 1 else 0
  }

  /** Driver handles handed out, the first one at start-up. */
  function Drivers(log: seq<Event>): nat {
    if log == [] then 1
    else Drivers(Front(log)) + if Last(log).WorkerTries? && Last(log).r != NoDriver then 1 else 0
  }

  /** The writes that reached the driver, and whether it took them. */
  function Delivered(log: seq<Event>): seq<bool> {
    if log == [] then []
    else
      Delivered(Front(log))
      + if Last(log).WriteSucceeds? then [true] else if Last(log).WriteFails? then [false] else []
  }

  /** Failed writes since the last success, or since the end of a successful rebuild. */
  function Failures(log: seq<Event>): nat {
    if log == [] then 0
    else
      var before := Failures(Front(log));
      match Last(log)
      case WriteSucceeds => 0
      case WriteFails => before + 1
      case WorkerEnds(_) => if Succeeded(Tries(Front(log))) then 0 else before
      case _ => before
  }

  /** When rebuilds have started: at a failed write, the fifth in a row or later, when none is in flight and the last
      one started more than five seconds ago. */
  function Starts(now: int, log: seq<Event>): seq<int> {
    if log == [] then []
    else
      var before, clock := Starts(now, Front(log)), Clock(now, Front(log));
      if Last(log).WriteFails? && Failures(log) >= 5 && |before| == Ends(Front(log))
         && (before == [] || clock - Last(before) > 5000)
      then before + [clock]
      else before
  }

  /** Whether e may happen next. */
  predicate MayHappen(now: int, log: seq<Event>, e: Event) {
    match e
    case Tick(_) => true
    case WriteSucceeds => IsOpen(log)
    case WriteFails => IsOpen(log)
    case WorkerCloses(i) => i == 0 && |Starts(now, log)| > Closes(log)
    case WorkerTries(i, _) => i == 0 && |Starts(now, log)| == Closes(log) > Ends(log) && !Decided(Tries(log))
    case WorkerEnds(i) => i == 0 && |Starts(now, log)| == Closes(log) > Ends(log) && Decided(Tries(log))
    case CloseOutput => true
  }

  // ---------- the machine agrees ----------

  function WorkersOf(now: int, log: seq<Event>): seq<Worker> {
    var tries := Tries(log);
    if |Starts(now, log)| > Closes(log) then [Closing]
    else if Closes(log) <= Ends(log) then []
    else if Decided(tries) then [Ending(Succeeded(tries))]
    else [Trying(|tries| + 1)]
  }

  ghost predicate PortTold(p: Port, now: int, log: seq<Event>) {
    && p.hasOut == IsOpen(log)
    && p.now == Clock(now, log)
    && p.drivers == Drivers(log)
  }

  ghost predicate WorkersTold(p: Port, now: int, log: seq<Event>) {
    && p.fails == Failures(log)
    && p.starts == Starts(now, log)
    && p.workers == WorkersOf(now, log)
    && Ends(log) <= Closes(log) <= |Starts(now, log)| <= Ends(log) + 1
  }

  ghost predicate Told(p: Port, now: int, log: seq<Event>) {
    PortTold(p, now, log) && WorkersTold(p, now, log)
  }

  lemma PortToldStep(p: Port, now: int, log: seq<Event>, e: Event)
    requires PortTold(p, now, log) && Enabled(p, e)
    ensures PortTold(Step(p, e), now, log + [e])
  {
    assert Front(log + [e]) == log;
  }

  /** A rebuild is due by the fields exactly when it is due by the log. */
  lemma DueIsTold(p: Port, now: int, log: seq<Event>)
    requires Told(p, now, log) && Inv(p)
    ensures var starts := Starts(now, log);
            ShouldReinit(p, p.fails + 1) <==>
              Failures(log) + 1 >= 5 && |starts| == Ends(log)
              && (starts == [] || Clock(now, log) - Last(starts) > 5000)
  {
    assert p.inProgress <==> p.workers != [];
    assert p.workers == [] <==> |Starts(now, log)| == Ends(log);
  }

  lemma AfterFailure(now: int, log: seq<Event>)
    ensures var log', before := log + [WriteFails], Starts(now, log);
            && Failures(log') == Failures(log) + 1 && Ends(log') == Ends(log) && Closes(log') == Closes(log)
            && Tries(log') == Tries(log)
            && Starts(now, log')
               == if Failures(log) + 1 >= 5 && |before| == Ends(log)
                     && (before == [] || Clock(now, log) - Last(before) > 5000)
                  then before + [Clock(now, log)] else before
  {
    assert Front(log + [WriteFails]) == log;
  }

  lemma FailToldStep(p: Port, now: int, log: seq<Event>)
    requires Told(p, now, log) && Inv(p) && Enabled(p, WriteFails)
    ensures WorkersTold(Step(p, WriteFails), now, log + [WriteFails])
  {
    DueIsTold(p, now, log);
    AfterFailure(now, log);
  }

  lemma TryToldStep(p: Port, now: int, log: seq<Event>, i: nat, r: InitResult)
    requires Told(p, now, log) && Enabled(p, WorkerTries(i, r))
    ensures WorkersTold(Step(p, WorkerTries(i, r)), now, log + [WorkerTries(i, r)])
  {
    assert Front(log + [WorkerTries(i, r)]) == log;
  }

  lemma EndToldStep(p: Port, now: int, log: seq<Event>, i: nat)
    requires Told(p, now, log) && Enabled(p, WorkerEnds(i))
    ensures WorkersTold(Step(p, WorkerEnds(i)), now, log + [WorkerEnds(i)])
  {
    assert Front(log + [WorkerEnds(i)]) == log;
    assert p.workers[..0] + p.workers[1..] == [];
  }

  lemma WorkersToldStep(p: Port, now: int, log: seq<Event>, e: Event)
    requires Told(p, now, log) && Inv(p) && Enabled(p, e)
    ensures WorkersTold(Step(p, e), now, log + [e])
  {
    assert Front(log + [e]) == log;
    match e
    case WriteFails => FailToldStep(p, now, log);
    case WorkerTries(i, r) => TryToldStep(p, now, log, i, r);
    case WorkerEnds(i) => EndToldStep(p, now, log, i);
    case _ =>
  }

  lemma ToldStep(p: Port, now: int, log: seq<Event>, e: Event)
    requires Told(p, now, log) && Inv(p) && Enabled(p, e)
    ensures Told(Step(p, e), now, log + [e])
  {
    PortToldStep(p, now, log, e);
    WorkersToldStep(p, now, log, e);
  }

  /** Told, not unfolded for a proof that only passes it on. */
  ghost predicate Agrees(p: Port, now: int, log: seq<Event>) {
    forall l :: l == log ==> Told(p, now, l) && Inv(p)
  }

  lemma AgreesStep(p: Port, now: int, log: seq<Event>, e: Event)
    requires Agrees(p, now, log) && Enabled(p, e)
    ensures Agrees(Step(p, e), now, log + [e])
  {
    assert Told(p, now, log);
    ToldStep(p, now, log, e);
    StepInv(p, e);
  }

  /** In every run the machine's state is what the log of the run tells. */
  lemma {:induction false} StateIsTold(now: int, es: seq<Event>)
    ensures Agrees(Run(Opening(now), es), now, Log(now, es))
    decreases |es|
  {
    if es == [] {
      assert Told(Opening(now), now, []);
    } else {
      var before := Run(Opening(now), Front(es));
      StateIsTold(now, Front(es));
      if Enabled(before, Last(es)) {
        AgreesStep(before, now, Log(now, Front(es)), Last(es));
      } else {
        assert Log(now, es) == Log(now, Front(es));
      }
    }
  }

  lemma MayHappenNext(p: Port, now: int, log: seq<Event>, e: Event)
    requires Told(p, now, log)
    ensures Enabled(p, e) <==> MayHappen(now, log, e)
  {
  }

  /** In every run, exactly those events are possible: writes reach the driver while the port is open, a rebuild closes
      the old port, tries three times or until it succeeds, and ends. */
  lemma OrderOfRebuilding(now: int, es: seq<Event>, e: Event)
    ensures Enabled(Run(Opening(now), es), e) <==> MayHappen(now, Log(now, es), e)
  {
    StateIsTold(now, es);
    assert Told(Run(Opening(now), es), now, Log(now, es));
    MayHappenNext(Run(Opening(now), es), now, Log(now, es), e);
  }

  /** The failure counter holds the failed writes since the last success; rebuilds start when it says so; and there is
      a port exactly when the last thing that opens or closes it has opened it. */
  lemma CountersAreTold(now: int, es: seq<Event>)
    ensures var p, log := Run(Opening(now), es), Log(now, es);
            && p.fails == Failures(log) && p.starts == Starts(now, log)
            && p.hasOut == IsOpen(log) && p.now == Clock(now, log) && p.drivers == Drivers(log)
  {
    StateIsTold(now, es);
    assert Told(Run(Opening(now), es), now, Log(now, es));
  }

  lemma {:induction false} FailuresAreTrailing(log: seq<Event>)
    ensures var d, n := Delivered(log), Failures(log);
            n <= |d| && forall k :: |d| - n <= k < |d| ==> !d[k]
    decreases |log|
  {
    if log != [] {
      FailuresAreTrailing(Front(log));
    }
  }

  /** The failures that start a rebuild are consecutive: whenever one starts, at least five writes have reached the
      driver, and it has refused the last five. */
  lemma RebuildNeedsFiveFailures(now: int, es: seq<Event>)
    requires es != [] && |Run(Opening(now), es).starts| > |Run(Opening(now), Front(es)).starts|
    ensures var d := Delivered(Log(now, es));
            |d| >= 5 && forall k :: |d| - 5 <= k < |d| ==> !d[k]
  {
    CountersAreTold(now, es);
    CountersAreTold(now, Front(es));
    FailuresAreTrailing(Log(now, es));
    StartNeedsFailures(now, Log(now, Front(es)), Log(now, es));
  }

  lemma StartNeedsFailures(now: int, before: seq<Event>, log: seq<Event>)
    requires log == before || (log != [] && before == Front(log))
    requires |Starts(now, log)| > |Starts(now, before)|
    ensures Failures(log) >= 5
  {
  }
}
