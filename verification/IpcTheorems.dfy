/** What the broadcast server promises, for every run. */
module IpcTheorems {
  import opened Sequences
  import opened Frames
  import opened IpcModel
  import opened IpcInvariant

  /** The states of the server: whatever its goroutines did, in whatever order. */
  ghost predicate Reachable(s: Server) {
    exists hello, es :: |hello| > 0 && s == Run(Init(hello), es)
  }

  lemma ReachableInv(s: Server)
    requires Reachable(s)
    ensures Inv(s)
  {
    var hello, es :| |hello| > 0 && s == Run(Init(hello), es);
    InitInv(hello);
    RunInv(Init(hello), es);
  }

  // ---------- slots ----------

  /** The connections whose write goroutine has not deregistered yet. */
  ghost function LiveWriters(s: Server): set<nat> {
    set i: nat | 0 <= i < |s.conns| && !s.conns[i].writer.Gone?
  }

  /** No slot leaks: the active set never exceeds 8 and, while the server is open, holds exactly the live writers. */
  lemma NoSlotLeaks(s: Server)
    requires Reachable(s)
    ensures |s.active| <= 8
    ensures s.active == if s.closed then {} else LiveWriters(s)
  {
    ReachableInv(s);
  }

  /** addConn refuses a consumer exactly when the server is closed or 8 writers are alive. */
  lemma RefusedOnlyWhenFull(s: Server)
    requires Reachable(s) && Enabled(s, AddConn)
    ensures |Step(s, AddConn).conns| == |s.conns| <==> s.closed || |LiveWriters(s)| == 8
    ensures |Step(s, AddConn).conns| != |s.conns| ==>
              && Step(s, AddConn).conns == s.conns + [Registered(s.hello)]
              && |s.conns| in Step(s, AddConn).active
  {
    NoSlotLeaks(s);
  }

  /** A slot is given back by removeConn, not by the disconnect itself: until connection i deregisters or the server is
      closed, it stays active whatever else happens, its own close included. */
  lemma {:induction false} SlotIsHeldUntilDeregistered(s: Server, es: seq<Event>, i: nat)
    requires Inv(s) && i in s.active && At(i, Deregister) !in es && CloseSwap !in es
    ensures i in Run(s, es).active
    decreases |es|
  {
    if es != [] {
      FrontAndLast(es);
      SlotIsHeldUntilDeregistered(s, Front(es), i);
      RunInv(s, Front(es));
      SlotStep(Run(s, Front(es)), Last(es), i);
    }
  }

  lemma SlotStep(s: Server, e: Event, i: nat)
    requires Inv(s) && i in s.active && e != At(i, Deregister) && e != CloseSwap
    ensures i in Step(s, e).active
  {
  }

  // ---------- queues and counters ----------

  /** Conservation: no frame is lost or invented between Publish and the socket, and every drop is counted once. */
  lemma Conservation(s: Server)
    requires Reachable(s)
    ensures forall i :: 0 <= i < |s.conns| ==>
              var c := s.conns[i];
              && |c.offered| == |c.accepted| + c.drops
              && 1 + |c.accepted| == |c.taken| + |c.send|
    ensures s.dropped == TotalDrops(s.conns) % 0x1_0000_0000_0000_0000
    ensures s.warnings == WarningsFor(TotalDrops(s.conns))
  {
    ReachableInv(s);
    forall i | 0 <= i < |s.conns|
      ensures var c := s.conns[i];
              |c.offered| == |c.accepted| + c.drops && 1 + |c.accepted| == |c.taken| + |c.send|
    {
      assert ConnOk(s.hello, s.conns[i]);
      QueueCount(s.hello, s.conns[i]);
    }
  }

  function CeilDiv(n: nat, d: nat): nat
    requires d > 0
  {
    (n + d - 1) / d
  }

  /** Totals for which the log holds one warning per 500 drops, rounded up: all below 2^64, some of the next 2^64. */
  predicate SpacingHolds(n: nat) {
    n < UINT64 || (n < 2 * UINT64 && (n % UINT64 - 1) % DROP_LOG_INTERVAL >= 384)
  }

  /** 2^64 is 116 more than a multiple of 500, so after one wrap there is a warning too many, except at 116 drops in
      every 500; after two there always is. */
  lemma SpacingIsExact(n: nat)
    ensures WarningsFor(n) == CeilDiv(n, 500) <==> SpacingHolds(n)
  {
  }

  /** dropped is the true total exactly until the 64-bit counter wraps, and the warnings are spaced as documented
      exactly for the totals above. */
  lemma WarningsAreSpaced(s: Server)
    requires Reachable(s)
    ensures s.dropped == TotalDrops(s.conns) <==> TotalDrops(s.conns) < 0x1_0000_0000_0000_0000
    ensures s.warnings == CeilDiv(TotalDrops(s.conns), 500) <==> SpacingHolds(TotalDrops(s.conns))
  {
    Conservation(s);
    SpacingIsExact(TotalDrops(s.conns));
  }

  /** One offer: dropped exactly when the backlog is 2048, otherwise queued last; queued frames are never touched and
      no other connection is. */
  lemma DropNewest(s: Server, i: nat)
    requires Reachable(s) && Enabled(s, OfferNext(i))
    ensures var s' := Step(s, OfferNext(i));
            var c, c' := s.conns[i], s'.conns[i];
            && |c'.send| <= 2048
            && c.send <= c'.send
            && (c'.drops == c.drops + 1 <==> 1 + |c.accepted| - |c.taken| == 2048)
            && (c'.drops != c.drops ==> c'.send == c.send && s'.drops == s.drops + 1)
            && (c'.drops == c.drops ==> c'.send == c.send + [MidiFrame(s.publisher.msg)] && s'.dropped == s.dropped)
            && forall j :: 0 <= j < |s.conns| && j != i ==> s'.conns[j] == s.conns[j]
  {
    Conservation(s);
    ReachableInv(s);
    assert ConnOk(s.hello, s.conns[i]);
    ConnStepOk(s.hello, s.conns[i], Offer(s.publisher.msg));
  }

  /** The first 2047 frames offered to a connection are never dropped. */
  lemma FirstOffersAreKept(s: Server, i: nat)
    requires Reachable(s) && i < |s.conns|
    ensures var c := s.conns[i];
            && c.offered[..Min(|c.offered|, 2047)] <= c.accepted
            && (|c.offered| < 2048 ==> c.drops == 0 && c.accepted == c.offered)
  {
    ReachableInv(s);
    assert ConnOk(s.hello, s.conns[i]);
    var c := s.conns[i];
    if |c.offered| < SEND_QUEUE_SIZE {
      assert c.offered[..|c.offered|] == c.offered;
    }
  }

  /** The bound is exact: a consumer whose writer never gets to run keeps 2047 messages and loses all later ones. */
  lemma StalledConsumer(s: Server, i: nat)
    requires Reachable(s) && i < |s.conns| && s.conns[i].taken == []
    ensures var c := s.conns[i];
            && |c.accepted| == Min(|c.offered|, 2047)
            && c.drops == |c.offered| - |c.accepted|
            && c.accepted == c.offered[..|c.accepted|]
  {
    FirstOffersAreKept(s, i);
    Conservation(s);
    ReachableInv(s);
    assert ConnOk(s.hello, s.conns[i]);
  }

  /** Whenever Publish reaches connection i during this run, there is room in its queue. */
  ghost predicate KeepsUp(s: Server, es: seq<Event>, i: nat)
    decreases |es|
  {
    || es == []
    || (&& KeepsUp(s, Front(es), i)
        && var t := Run(s, Front(es));
           (Last(es) == OfferNext(i) && Enabled(t, Last(es)) ==> |t.conns[i].send| < SEND_QUEUE_SIZE))
  }

  lemma RoomMeansNoDrop(s: Server, e: Event, i: nat)
    requires i < |s.conns|
    requires e == OfferNext(i) && Enabled(s, e) ==> |s.conns[i].send| < SEND_QUEUE_SIZE
    ensures i < |Step(s, e).conns| && Step(s, e).conns[i].drops == s.conns[i].drops
  {
  }

  /** A consumer with room in its queue at each offer loses nothing, whatever the others do. */
  lemma {:induction false} KeepingUpLosesNothing(s: Server, es: seq<Event>, i: nat)
    requires i < |s.conns| && KeepsUp(s, es, i)
    ensures i < |Run(s, es).conns| && Run(s, es).conns[i].drops == s.conns[i].drops
    decreases |es|
  {
    if es != [] {
      KeepingUpLosesNothing(s, Front(es), i);
      RoomMeansNoDrop(Run(s, Front(es)), Last(es), i);
    }
  }

  // ---------- the stream of one connection ----------

  /** The socket carries a prefix of the hello frame followed by the accepted frames, and these are an in-order
      selection of what was published while the connection was registered, complete if there were no drops. */
  lemma StreamOfConnection(s: Server, i: nat)
    requires Reachable(s) && i < |s.conns|
    ensures HasWindow(s, i) && (i in s.left <==> i !in s.active)
    ensures MessagesFit(s.conns[i].accepted)
    ensures s.conns[i].wire <= Flatten([s.hello] + MidiFrames(s.conns[i].accepted))
    ensures Subsequence(s.conns[i].accepted, Window(s, i))
    ensures s.conns[i].writer.Idle? && s.conns[i].send == [] ==>
              s.conns[i].wire == Flatten([s.hello] + MidiFrames(s.conns[i].accepted))
    ensures s.publisher.Resting? && s.conns[i].drops == 0 ==> s.conns[i].accepted == Window(s, i)
  {
    ReachableInv(s);
    var c := s.conns[i];
    assert ConnOk(s.hello, c);
    assert OfferedAt(s, i);
    WireIsTaken(c);
    FlattenAppend(c.taken, c.send);
    if Owed(s, i) {
      FrontAndLast(Window(s, i));
      SubsequenceSkip(c.accepted, c.offered, Last(Window(s, i)));
    }
    if c.writer.Idle? && c.send == [] {
      assert c.taken + c.send == c.taken;
    }
    if c.drops == 0 {
      FullSubsequence(c.accepted, c.offered);
    }
  }

  // ---------- after a connection has left ----------

  /** What a step can do to connection i: nothing, a step of its own, or an offer while it is active. */
  lemma ConnAfterStep(s: Server, e: Event, i: nat)
    requires PublisherOk(s) && i < |s.conns|
    ensures i < |Step(s, e).conns|
    ensures var c, c' := s.conns[i], Step(s, e).conns[i];
            || c' == c
            || (exists ce :: ConnEnabled(c, ce) && !ce.Offer? && c' == ConnStep(c, ce))
            || (i in s.active && s.publisher.FanOut? && Fits(s.publisher.msg) && c' == OfferTo(c, s.publisher.msg))
  {
    if Enabled(s, e) {
      match e
      case At(j, ce) => assert j == i ==> Step(s, e).conns[i] == ConnStep(s.conns[i], ce);
      case CloseNext(j) => assert j == i ==> Step(s, e).conns[i] == ConnStep(s.conns[i], CloseOnce);
      case OfferNext(j) =>
      case _ =>
    }
  }

  lemma LeftConn(s: Server, e: Event, i: nat)
    requires PublisherOk(s) && i < |s.conns| && i !in s.active
    ensures i < |Step(s, e).conns|
    ensures Step(s, e).conns[i].accepted == s.conns[i].accepted && Step(s, e).conns[i].drops == s.conns[i].drops
  {
    ConnAfterStep(s, e, i);
  }

  /** Histories only grow, and a connection that is not in the map does not come back. */
  lemma HistoryStep(s: Server, e: Event, i: nat)
    requires i < |s.conns| && i in s.left && i !in s.active
    ensures var s' := Step(s, e);
            && s.joined <= s'.joined && s.published <= s'.published
            && i in s'.left && s'.left[i] == s.left[i] && i !in s'.active
  {
  }

  lemma LeftStep(s: Server, e: Event, i: nat)
    requires Inv(s) && i < |s.conns| && i !in s.active
    ensures var s' := Step(s, e);
            && i < |s'.conns| && i !in s'.active
            && HasWindow(s, i) && HasWindow(s', i) && Window(s', i) == Window(s, i)
            && s'.conns[i].accepted == s.conns[i].accepted && s'.conns[i].drops == s.conns[i].drops
  {
    assert OfferedAt(s, i);
    HistoryStep(s, e, i);
    LeftConn(s, e, i);
  }

  /** Once a connection has left the map, by removeConn or by Close, its window stays closed in every continuation:
      it is offered nothing, accepts nothing and counts no drop again. */
  lemma {:induction false} LeftIsLeft(s: Server, es: seq<Event>, i: nat)
    requires Inv(s) && i < |s.conns| && i !in s.active
    ensures var s' := Run(s, es);
            && i < |s'.conns| && i !in s'.active
            && HasWindow(s, i) && HasWindow(s', i) && Window(s', i) == Window(s, i)
            && s'.conns[i].accepted == s.conns[i].accepted && s'.conns[i].drops == s.conns[i].drops
    decreases |es|
  {
    if es == [] {
      assert OfferedAt(s, i);
    } else {
      LeftIsLeft(s, Front(es), i);
      RunInv(s, Front(es));
      LeftStep(Run(s, Front(es)), Last(es), i);
    }
  }

  lemma GoneStep(s: Server, e: Event, i: nat)
    requires Inv(s) && i < |s.conns| && s.conns[i].writer.Gone?
    ensures i < |Step(s, e).conns| && Step(s, e).conns[i] == s.conns[i]
  {
    assert ConnOk(s.hello, s.conns[i]);
    assert i !in s.active;
    ConnAfterStep(s, e, i);
  }

  /** A connection whose writer has deregistered never changes again. */
  lemma {:induction false} GoneIsFinal(s: Server, es: seq<Event>, i: nat)
    requires Inv(s) && i < |s.conns| && s.conns[i].writer.Gone?
    ensures i < |Run(s, es).conns| && Run(s, es).conns[i] == s.conns[i]
    decreases |es|
  {
    if es != [] {
      GoneIsFinal(s, Front(es), i);
      RunInv(s, Front(es));
      GoneStep(Run(s, Front(es)), Last(es), i);
    }
  }

  lemma WireIsTaken(c: Conn)
    requires WireOk(c)
    ensures c.wire <= Flatten(c.taken)
  {
    if c.writer.Writing? {
      AbandonWire(c);
    }
  }

  lemma {:induction false} FullSubsequence<T>(a: seq<T>, b: seq<T>)
    requires Subsequence(a, b) && |a| == |b|
    ensures a == b
    decreases |b|
  {
    if a != [] {
      if Subsequence(a, Front(b)) {
        SubsequenceIsShorter(a, Front(b));
        assert false;
      }
      FullSubsequence(Front(a), Front(b));
      FrontAndLast(a);
      FrontAndLast(b);
    }
  }

  lemma {:induction false} SubsequenceIsShorter<T>(a: seq<T>, b: seq<T>)
    requires Subsequence(a, b)
    ensures |a| <= |b|
    decreases |b|
  {
    if a != [] {
      if Subsequence(a, Front(b)) {
        SubsequenceIsShorter(a, Front(b));
      } else {
        SubsequenceIsShorter(Front(a), Front(b));
      }
    }
  }

  // ---------- isolation of consumers ----------

  /** What connection i can notice: the Publish calls, its own turn in each, its own goroutines, and shutdown. */
  datatype Notice = Begin(msg: Bytes) | Reached | Own(e: ConnEvent) | Swapped

  function Noticed(e: Event, i: nat): seq<Notice> {
    match e
    case BeginPublish(msg) => [Begin(msg)]
    case OfferNext(j) => if j == i then [Reached] else []
    case At(j, ce) => if j == i then [Own(ce)] else []
    case CloseSwap => [Swapped]
    case CloseNext(j) => if j == i then [Own(CloseOnce)] else []
    case _ => []
  }

  function AllNoticed(es: seq<Event>, i: nat): seq<Notice> {
    if es == [] then [] else AllNoticed(Front(es), i) + Noticed(Last(es), i)
  }

  /** Connection i, the message Publish still owes it, and whether the server is closed. */
  datatype View = View(conn: Conn, owed: Option<Bytes>, closed: bool)

  function ViewOf(s: Server, i: nat): View
    requires i < |s.conns|
  {
    View(s.conns[i], if s.publisher.FanOut? && i in s.publisher.todo then Some(s.publisher.msg) else None, s.closed)
  }

  /** One connection on its own: no other consumer appears in this function. */
  function ViewStep(v: View, n: Notice): View {
    match n
    case Begin(msg) =>
      if msg == [] || v.closed || v.conn.writer.Gone? || !Fits(msg) then v else v.(owed := Some(msg))
    case Reached =>
      if v.owed.Some? && Fits(v.owed.value) then v.(conn := OfferTo(v.conn, v.owed.value), owed := None) else v
    case Own(e) =>
      if ConnEnabled(v.conn, e) then v.(conn := ConnStep(v.conn, e)) else v
    case Swapped => v.(closed := true)
  }

  function ViewRun(v: View, ns: seq<Notice>): View {
    if ns == [] then v else ViewStep(ViewRun(v, Front(ns)), Last(ns))
  }

  lemma ViewRunAppend(v: View, ns: seq<Notice>, ms: seq<Notice>)
    requires |ms| <= 1
    ensures ViewRun(v, ns + ms) == ViewRun(ViewRun(v, ns), ms)
  {
    if ms == [] {
      assert ns + ms == ns;
    } else {
      assert Front(ns + ms) == ns && Front(ms) == [];
    }
  }

  /** Every event of the run happened when it was its turn. */
  ghost predicate Legal(s: Server, es: seq<Event>)
    decreases |es|
  {
    es == [] || (Legal(s, Front(es)) && Enabled(Run(s, Front(es)), Last(es)))
  }

  lemma BeginIsLocal(s: Server, msg: Bytes, i: nat)
    requires Inv(s) && Enabled(s, BeginPublish(msg)) && i < |s.conns|
    ensures i < |Step(s, BeginPublish(msg)).conns|
    ensures ViewOf(Step(s, BeginPublish(msg)), i) == ViewStep(ViewOf(s, i), Begin(msg))
  {
    assert i in s.active <==> !s.closed && !s.conns[i].writer.Gone?;
  }

  lemma OfferIsLocal(s: Server, j: nat, i: nat)
    requires Enabled(s, OfferNext(j)) && i < |s.conns|
    ensures i < |Step(s, OfferNext(j)).conns|
    ensures ViewOf(Step(s, OfferNext(j)), i) == if j == i then ViewStep(ViewOf(s, i), Reached) else ViewOf(s, i)
  {
  }

  lemma StepIsLocal(s: Server, e: Event, i: nat)
    requires Inv(s) && Enabled(s, e) && i < |s.conns|
    ensures i < |Step(s, e).conns|
    ensures ViewOf(Step(s, e), i) == ViewRun(ViewOf(s, i), Noticed(e, i))
  {
    var v := ViewOf(s, i);
    if Noticed(e, i) != [] {
      assert ViewRun(v, Front(Noticed(e, i))) == v;
    }
    match e
    case BeginPublish(msg) => BeginIsLocal(s, msg, i);
    case OfferNext(j) => OfferIsLocal(s, j, i);
    case _ =>
  }

  /** Projecting a run of the whole server onto one connection gives a run of that connection alone. */
  lemma {:induction false} RunIsLocal(s: Server, es: seq<Event>, i: nat)
    requires Inv(s) && Legal(s, es) && i < |s.conns|
    ensures i < |Run(s, es).conns|
    ensures ViewOf(Run(s, es), i) == ViewRun(ViewOf(s, i), AllNoticed(es, i))
    decreases |es|
  {
    if es != [] {
      RunIsLocal(s, Front(es), i);
      RunInv(s, Front(es));
      StepIsLocal(Run(s, Front(es)), Last(es), i);
      ViewRunAppend(ViewOf(s, i), AllNoticed(Front(es), i), Noticed(Last(es), i));
    }
  }

  /** A connection is closed exactly if its peer, Close or its own writer has closed it, and its writer leaves its loop
      only after the peer or Close has, or after a failed write. */
  lemma {:induction false} ClosedForAReason(hello: Bytes, es: seq<Event>, i: nat)
    requires Legal(Init(hello), es) && i < |Run(Init(hello), es).conns|
    ensures var c := Run(Init(hello), es).conns[i];
            && (c.closed <==> At(i, CloseOnce) in es || CloseNext(i) in es || At(i, WriterCloses) in es)
            && (c.writer.Leaving? || c.writer.Shut? || c.writer.Gone? || At(i, WriterCloses) in es ==>
                  At(i, CloseOnce) in es || CloseNext(i) in es || At(i, SendFails) in es)
    decreases |es|
  {
    if es != [] {
      var s := Run(Init(hello), Front(es));
      FrontAndLast(es);
      if i < |s.conns| {
        ClosedForAReason(hello, Front(es), i);
      } else {
        NotYetRegistered(hello, Front(es), i);
      }
      CloseReason(s, Last(es), i);
    }
  }

  lemma CloseReason(s: Server, e: Event, i: nat)
    requires Enabled(s, e) && i < |Step(s, e).conns|
    ensures var c' := Step(s, e).conns[i];
            if i < |s.conns| then
              && (c'.closed <==> s.conns[i].closed || e == At(i, CloseOnce) || e == CloseNext(i)
                                 || e == At(i, WriterCloses))
              && (c'.writer.Leaving? || c'.writer.Shut? || c'.writer.Gone? ==>
                    || s.conns[i].writer.Leaving? || s.conns[i].writer.Shut? || s.conns[i].writer.Gone?
                    || e == At(i, SendFails) || s.conns[i].closed)
              && (e == At(i, WriterCloses) ==> s.conns[i].writer.Leaving?)
            else !c'.closed && c'.writer.Idle? && e == AddConn
  {
  }

  lemma {:induction false} NotYetRegistered(hello: Bytes, es: seq<Event>, i: nat)
    requires Legal(Init(hello), es) && i >= |Run(Init(hello), es).conns|
    ensures At(i, CloseOnce) !in es && CloseNext(i) !in es && At(i, WriterCloses) !in es && At(i, SendFails) !in es
    decreases |es|
  {
    if es != [] {
      FrontAndLast(es);
      NotYetRegistered(hello, Front(es), i);
    }
  }

  /** A newly registered connection looks the same whatever the server has done before. */
  lemma NewcomersAreAlike(s: Server)
    requires Reachable(s) && Enabled(s, AddConn) && |Step(s, AddConn).conns| > |s.conns|
    ensures ViewOf(Step(s, AddConn), |s.conns|) == View(Registered(s.hello), None, false)
  {
    ReachableInv(s);
  }

  /** Isolation: take two runs of the server and a connection in each that starts out alike, as two newcomers do. If the
      runs agree on the Publish calls and on that connection's own events, the connection ends up identical in both,
      queue, accepted messages, socket bytes and drops included, whatever all other consumers did. */
  lemma Isolation(s: Server, es: seq<Event>, i: nat, s': Server, es': seq<Event>, i': nat)
    requires Reachable(s) && i < |s.conns| && Legal(s, es)
    requires Reachable(s') && i' < |s'.conns| && Legal(s', es')
    requires ViewOf(s, i) == ViewOf(s', i') && AllNoticed(es, i) == AllNoticed(es', i')
    ensures i < |Run(s, es).conns| && i' < |Run(s', es').conns|
    ensures Run(s, es).conns[i] == Run(s', es').conns[i']
  {
    ReachableInv(s);
    ReachableInv(s');
    RunIsLocal(s, es, i);
    RunIsLocal(s', es', i');
  }

  // ---------- shutdown ----------

  /** Nothing is ever queued again, and what was queued only drains. */
  ghost predicate Quiet(s: Server, s': Server) {
    && s'.closed && s'.active == {}
    && |s'.conns| == |s.conns|
    && s'.dropped == s.dropped && s'.drops == s.drops && s'.published == s.published
    && forall i :: 0 <= i < |s.conns| ==> QuietConn(s.conns[i], s'.conns[i])
  }

  ghost predicate QuietConn(c: Conn, c': Conn) {
    && |c'.send| <= |c.send| && c'.send == c.send[|c.send| - |c'.send|..]
    && c'.accepted == c.accepted && c'.offered == c.offered && c'.drops == c.drops
  }

  lemma QuietConnStep(c: Conn, d: Conn, e: ConnEvent)
    requires QuietConn(c, d) && ConnEnabled(d, e) && !e.Offer?
    ensures QuietConn(c, ConnStep(d, e))
  {
    if e.Take? {
      assert d.send[1..] == c.send[|c.send| - |d.send| + 1..];
    }
  }

  lemma QuietStep(s: Server, t: Server, e: Event)
    requires Inv(t) && Quiet(s, t)
    ensures Quiet(s, Step(t, e)) && (t.closer.Returned? ==> Step(t, e).closer.Returned?)
  {
    if Enabled(t, e) {
      match e
      case At(i, ce) => QuietConnStep(s.conns[i], t.conns[i], ce);
      case CloseNext(i) => QuietConnStep(s.conns[i], t.conns[i], CloseOnce);
      case _ =>
    }
  }

  /** From the moment Close has swapped the map out, for every continuation of the run. */
  lemma {:induction false} QuietAfterSwap(s: Server, es: seq<Event>)
    requires Inv(s) && s.closed
    ensures Quiet(s, Run(s, es)) && (s.closer.Returned? ==> Run(s, es).closer.Returned?)
    decreases |es|
  {
    if es != [] {
      QuietAfterSwap(s, Front(es));
      RunInv(s, Front(es));
      QuietStep(s, Run(s, Front(es)), Last(es));
    }
  }

  /** Shutdown is complete and final: once Close has returned, done has been closed exactly once for every connection
      ever registered, none is active, and in no continuation does a queue grow or a counter move. */
  lemma ShutdownIsFinal(s: Server, es: seq<Event>)
    requires Reachable(s) && s.closer.Returned?
    ensures var s' := Run(s, es);
            && Quiet(s, s')
            && s'.closer.Returned?
            && forall i :: 0 <= i < |s'.conns| ==> s'.conns[i].doneCloses == 1
  {
    ReachableInv(s);
    QuietAfterSwap(s, es);
    RunInv(s, es);
    var s' := Run(s, es);
    forall i | 0 <= i < |s'.conns| ensures s'.conns[i].doneCloses == 1 {
      assert ConnOk(s'.hello, s'.conns[i]);
    }
  }

  lemma ClosedStep(s: Server, e: Event, i: nat)
    requires i < |s.conns| && s.conns[i].closed
    ensures i < |Step(s, e).conns| && Step(s, e).conns[i].closed
  {
  }

  /** Whichever of readLoop, writeLoop and Close comes first closes done; nobody who comes later closes it again, and
      nothing reopens the connection. */
  lemma {:induction false} ClosedOnceForGood(s: Server, es: seq<Event>, i: nat)
    requires Inv(s) && i < |s.conns| && s.conns[i].closed
    ensures i < |Run(s, es).conns| && Run(s, es).conns[i].closed && Run(s, es).conns[i].doneCloses == 1
    decreases |es|
  {
    if es == [] {
      assert ConnOk(s.hello, s.conns[i]);
    } else {
      ClosedOnceForGood(s, Front(es), i);
      RunInv(s, es);
      ClosedStep(Run(s, Front(es)), Last(es), i);
      assert ConnOk(Run(s, es).hello, Run(s, es).conns[i]);
    }
  }
}
