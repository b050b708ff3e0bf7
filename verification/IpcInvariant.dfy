/** What every step of the broadcast server keeps, in every interleaving. */
module IpcInvariant {
  import opened Sequences
  import opened Frames
  import opened IpcModel

  // ---------- one connection ----------

  ghost predicate MessagesFit(ms: seq<Bytes>) {
    forall k :: 0 <= k < |ms| ==> Fits(ms[k])
  }

  ghost function MidiFrames(ms: seq<Bytes>): seq<Bytes>
    requires MessagesFit(ms)
  {
    seq(|ms|, k requires 0 <= k < |ms| => MidiFrame(ms[k]))
  }

  /** The bytes on the socket are whole frames, in the order taken, then at most a part of the frame being written. */
  ghost predicate WireOk(c: Conn) {
    match c.writer
    case Idle => c.wire == Flatten(c.taken)
    case Writing(f, n) => c.taken != [] && f == Last(c.taken) && n < |f| && c.wire == Flatten(Front(c.taken)) + f[..n]
    case _ => c.wire <= Flatten(c.taken)
  }

  ghost predicate QueueOk(hello: Bytes, c: Conn) {
    && |c.send| <= SEND_QUEUE_SIZE
    && MessagesFit(c.offered) && MessagesFit(c.accepted)
    && c.taken + c.send == [hello] + MidiFrames(c.accepted)
  }

  ghost predicate DropsOk(c: Conn) {
    && |c.offered| == |c.accepted| + c.drops
    && Subsequence(c.accepted, c.offered)
    && c.offered[..Min(|c.offered|, SEND_QUEUE_SIZE - 1)] <= c.accepted
  }

  ghost predicate CloseOk(c: Conn) {
    && c.doneCloses == (if c.closed then 1 else 0)
    && (c.writer.Shut? || c.writer.Gone? ==> c.closed)
  }

  ghost predicate ConnOk(hello: Bytes, c: Conn) {
    && QueueOk(hello, c)
    && DropsOk(c)
    && WireOk(c)
    && CloseOk(c)
    && |hello| > 0
  }

  lemma RegisteredOk(hello: Bytes)
    requires |hello| > 0
    ensures ConnOk(hello, Registered(hello))
  {
  }

  lemma MoreOfFrame(before: Bytes, f: Bytes, m: nat, n: nat)
    requires m + n <= |f|
    ensures before + f[..m] + f[m..m + n] == before + f[..m + n]
  {
    SlicesJoin(f, 0, m, m + n);
    assert f[0..m] == f[..m] && f[0..m + n] == f[..m + n];
    Associative(before, f[..m], f[m..m + n]);
  }

  lemma WholeFrame(taken: seq<Bytes>)
    requires taken != []
    ensures Flatten(Front(taken)) + Last(taken)[..|Last(taken)|] == Flatten(taken)
  {
    FlattenSnoc(Front(taken), Last(taken));
    FrontAndLast(taken);
    assert Last(taken)[..|Last(taken)|] == Last(taken);
  }

  lemma TransmitWire(c: Conn, n: nat)
    requires WireOk(c) && c.writer.Writing? && c.writer.sent + n <= |c.writer.frame|
    ensures WireOk(Transmit(c, n))
  {
    MoreOfFrame(Flatten(Front(c.taken)), c.writer.frame, c.writer.sent, n);
    WholeFrame(c.taken);
  }

  lemma AbandonWire(c: Conn)
    requires WireOk(c) && c.writer.Writing?
    ensures c.wire <= Flatten(c.taken)
  {
    WholeFrame(c.taken);
  }

  lemma WireStep(c: Conn, e: ConnEvent)
    requires ConnEnabled(c, e) && WireOk(c) && forall k :: 0 <= k < |c.send| ==> |c.send[k]| > 0
    ensures WireOk(ConnStep(c, e))
  {
    match e
    case Take =>
      assert Front(c.taken + [c.send[0]]) == c.taken;
      assert Flatten(c.taken) + c.send[0][..0] == Flatten(c.taken);
    case Sent(n) => TransmitWire(c, n);
    case SendFails => AbandonWire(c);
    case _ =>
  }

  lemma QueueStep(hello: Bytes, c: Conn, e: ConnEvent)
    requires ConnEnabled(c, e) && QueueOk(hello, c)
    ensures QueueOk(hello, ConnStep(c, e))
  {
    match e
    case Offer(msg) =>
      if |c.send| < SEND_QUEUE_SIZE {
        assert MidiFrames(c.accepted + [msg]) == MidiFrames(c.accepted) + [MidiFrame(msg)];
        Associative(c.taken, c.send, [MidiFrame(msg)]);
        Associative([hello], MidiFrames(c.accepted), [MidiFrame(msg)]);
      }
    case Take =>
      HeadAndTail(c.send);
      Associative(c.taken, [c.send[0]], c.send[1..]);
    case _ =>
  }

  lemma OfferDrops(c: Conn, msg: Bytes)
    requires DropsOk(c) && Fits(msg)
    requires |c.send| >= SEND_QUEUE_SIZE ==> |c.accepted| >= SEND_QUEUE_SIZE - 1
    ensures DropsOk(OfferTo(c, msg))
  {
    if |c.send| < SEND_QUEUE_SIZE {
      SubsequenceKeep(c.accepted, c.offered, msg);
      EarlyOffersKept(c.accepted, c.offered, msg, SEND_QUEUE_SIZE - 1);
    } else {
      SubsequenceSkip(c.accepted, c.offered, msg);
    }
  }

  lemma EarlyOffersKept(accepted: seq<Bytes>, offered: seq<Bytes>, msg: Bytes, n: nat)
    requires offered[..Min(|offered|, n)] <= accepted && |accepted| <= |offered|
    ensures (offered + [msg])[..Min(|offered| + 1, n)] <= accepted + [msg]
  {
    if |offered| < n {
      assert offered[..|offered|] == offered;
      assert accepted == offered;
    } else {
      assert (offered + [msg])[..n] == offered[..n];
    }
  }

  /** The conservation law of one queue: hello and what was accepted, less what was taken, is what is queued. */
  lemma QueueCount(hello: Bytes, c: Conn)
    requires QueueOk(hello, c)
    ensures |c.taken| + |c.send| == 1 + |c.accepted|
  {
    assert |c.taken + c.send| == |[hello] + MidiFrames(c.accepted)|;
  }

  lemma DropsStep(c: Conn, e: ConnEvent)
    requires ConnEnabled(c, e) && DropsOk(c)
    requires |c.send| >= SEND_QUEUE_SIZE ==> |c.accepted| >= SEND_QUEUE_SIZE - 1
    ensures DropsOk(ConnStep(c, e))
  {
    match e
    case Offer(msg) => OfferDrops(c, msg);
    case _ =>
  }

  lemma ConnStepOk(hello: Bytes, c: Conn, e: ConnEvent)
    requires ConnEnabled(c, e) && ConnOk(hello, c)
    ensures ConnOk(hello, ConnStep(c, e))
  {
    forall k | 0 <= k < |c.send| ensures |c.send[k]| > 0 {
      assert (c.taken + c.send)[|c.taken| + k] == c.send[k];
    }
    WireStep(c, e);
    QueueStep(hello, c, e);
    QueueCount(hello, c);
    DropsStep(c, e);
  }

  // ---------- the server ----------

  ghost predicate ConnsOk(s: Server) {
    && |s.joined| == |s.conns|
    && forall i :: 0 <= i < |s.conns| ==> ConnOk(s.hello, s.conns[i])
  }

  /** The active set is exactly the connections whose writer has not deregistered, until Close empties it. */
  ghost predicate SlotsOk(s: Server) {
    && (forall i :: i in s.active <==> 0 <= i < |s.conns| && !s.closed && !s.conns[i].writer.Gone?)
    && |s.active| <= MAX_CONNECTIONS
  }

  ghost predicate PublisherOk(s: Server) {
    && MessagesFit(s.published)
    && (s.publisher.FanOut? ==>
          && s.publisher.todo <= s.active
          && !s.closed
          && s.published != []
          && Last(s.published) == s.publisher.msg)
  }

  ghost predicate Owed(s: Server, i: nat) {
    s.publisher.FanOut? && i in s.publisher.todo
  }

  function Until(s: Server, i: nat): nat {
    if i in s.left then s.left[i] else |s.published|
  }

  predicate HasWindow(s: Server, i: nat) {
    i < |s.joined| && s.joined[i] <= Until(s, i) <= |s.published|
  }

  /** What was published while connection i was in the map. */
  function Window(s: Server, i: nat): seq<Bytes>
    requires HasWindow(s, i)
  {
    s.published[s.joined[i]..Until(s, i)]
  }

  /** A connection has been offered exactly what was published while it was in the map, except the current message if
      the fan-out has not reached it yet. */
  ghost predicate OfferedAt(s: Server, i: nat)
    requires i < |s.conns|
  {
    && HasWindow(s, i)
    && (i in s.left <==> i !in s.active)
    && if Owed(s, i) then Window(s, i) != [] && s.conns[i].offered == Front(Window(s, i))
       else s.conns[i].offered == Window(s, i)
  }

  ghost predicate OfferedOk(s: Server) {
    && (forall i :: i in s.left ==> i < |s.conns|)
    && forall i :: 0 <= i < |s.conns| ==> OfferedAt(s, i)
  }

  ghost predicate CloserOk(s: Server) {
    && (s.closer.Running? <==> !s.closed)
    && (s.closed ==> s.publisher.Resting?)
    && (s.closer.Closing? ==> forall i :: 0 <= i < |s.conns| ==> s.conns[i].closed || i in s.closer.todo)
    && (s.closer.Returned? ==> forall i :: 0 <= i < |s.conns| ==> s.conns[i].closed)
  }

  function TotalDrops(conns: seq<Conn>): nat {
    if conns == [] then 0 else TotalDrops(Front(conns)) + Last(conns).drops
  }

  /** Warnings logged for the first n drops: in each round of 2^64, those numbered 1, 501, 1001, ... by the counter. */
  function WarningsFor(n: nat): nat {
    n / UINT64 * ((UINT64 - 1 + DROP_LOG_INTERVAL - 1) / DROP_LOG_INTERVAL)
    + (n % UINT64 + DROP_LOG_INTERVAL - 1) / DROP_LOG_INTERVAL
  }

  ghost predicate CountsOk(s: Server) {
    && s.drops == TotalDrops(s.conns)
    && s.dropped == s.drops % UINT64
    && s.warnings == WarningsFor(s.drops)
  }

  ghost predicate Inv(s: Server) {
    && |s.hello| > 0
    && ConnsOk(s)
    && SlotsOk(s)
    && PublisherOk(s)
    && OfferedOk(s)
    && CloserOk(s)
    && CountsOk(s)
  }

  lemma {:induction false} TotalDropsUpdate(conns: seq<Conn>, i: nat, c: Conn)
    requires i < |conns|
    ensures TotalDrops(conns[i := c]) == TotalDrops(conns) - conns[i].drops + c.drops
  {
    if i == |conns| - 1 {
      assert Front(conns[i := c]) == Front(conns);
    } else {
      assert Front(conns[i := c]) == Front(conns)[i := c];
      TotalDropsUpdate(Front(conns), i, c);
    }
  }

  lemma TotalDropsSnoc(conns: seq<Conn>, c: Conn)
    ensures TotalDrops(conns + [c]) == TotalDrops(conns) + c.drops
  {
    assert Front(conns + [c]) == conns;
  }

  lemma WarningsNext(n: nat)
    ensures (n + 1) % UINT64 == (n % UINT64 + 1) % UINT64
    ensures WarningsFor(n + 1) == WarningsFor(n) + (if (n + 1) % UINT64 % DROP_LOG_INTERVAL == 1 then 1 else 0)
  {
    var q, r := n / UINT64, n % UINT64;
    assert n == q * UINT64 + r;
    if r == UINT64 - 1 {
      assert n + 1 == (q + 1) * UINT64 + 0;
      assert (n + 1) / UINT64 == q + 1 && (n + 1) % UINT64 == 0;
    } else {
      assert n + 1 == q * UINT64 + (r + 1);
      assert (n + 1) / UINT64 == q && (n + 1) % UINT64 == r + 1;
    }
  }

  lemma InitInv(hello: Bytes)
    requires |hello| > 0
    ensures Inv(Init(hello))
  {
  }

  lemma UpdateKeepsConns(s: Server, i: nat, e: ConnEvent)
    requires ConnsOk(s) && i < |s.conns| && ConnEnabled(s.conns[i], e)
    ensures ConnsOk(Update(s, i, e))
  {
    ConnStepOk(s.hello, s.conns[i], e);
  }

  /** Nothing OfferedAt speaks of has changed for connection j. */
  lemma OfferedUnchanged(s: Server, s': Server, j: nat)
    requires j < |s.conns| && j < |s'.conns| && OfferedAt(s, j)
    requires s'.published == s.published && s'.conns[j].offered == s.conns[j].offered
    requires j < |s'.joined| && s'.joined[j] == s.joined[j]
    requires j in s'.left <==> j in s.left
    requires j in s.left ==> s'.left[j] == s.left[j]
    requires (j in s'.active <==> j in s.active) && (Owed(s', j) <==> Owed(s, j))
    ensures OfferedAt(s', j)
  {
  }

  /** Connection j leaves the map; from now on its window is closed. */
  lemma OfferedUntilNow(s: Server, s': Server, j: nat)
    requires j < |s.conns| && j < |s'.conns| && OfferedAt(s, j) && j in s.active
    requires s'.published == s.published && s'.conns[j].offered == s.conns[j].offered && s'.joined == s.joined
    requires j !in s'.active && j in s'.left && s'.left[j] == |s.published| && !Owed(s, j) && !Owed(s', j)
    ensures OfferedAt(s', j)
  {
  }

  lemma AddConnConns(s: Server)
    requires ConnsOk(s) && |s.hello| > 0
    ensures ConnsOk(Register(s))
  {
    var s' := Register(s);
    RegisteredOk(s.hello);
    forall j | 0 <= j < |s'.conns| ensures ConnOk(s.hello, s'.conns[j]) {
      assert j < |s.conns| ==> s'.conns[j] == s.conns[j];
    }
  }

  lemma AddConnOffered(s: Server)
    requires |s.joined| == |s.conns| && OfferedOk(s) && s.publisher.Resting?
    requires SlotsOk(s) && !s.closed && |s.active| < MAX_CONNECTIONS
    ensures OfferedOk(Register(s))
  {
    var s' := Register(s);
    forall j | 0 <= j < |s'.conns| ensures OfferedAt(s', j) {
      if j < |s.conns| {
        assert OfferedAt(s, j);
        OfferedUnchanged(s, s', j);
      }
    }
  }

  lemma AddConnSlots(s: Server)
    requires SlotsOk(s) && CloserOk(s) && !s.closed && |s.active| < MAX_CONNECTIONS
    ensures SlotsOk(Register(s)) && CloserOk(Register(s))
  {
    assert |s.conns| !in s.active;
  }

  lemma AddConnInv(s: Server)
    requires Inv(s) && s.publisher.Resting?
    ensures Inv(Register(s))
  {
    if !s.closed && |s.active| < MAX_CONNECTIONS {
      AddConnConns(s);
      TotalDropsSnoc(s.conns, Registered(s.hello));
      AddConnOffered(s);
      AddConnSlots(s);
    }
  }

  lemma BeginPublishInv(s: Server, msg: Bytes)
    requires Inv(s) && s.publisher.Resting?
    ensures Inv(StartFanOut(s, msg))
  {
    var s' := StartFanOut(s, msg);
    if s' != s {
      forall i | 0 <= i < |s'.conns| ensures OfferedAt(s', i) {
        assert OfferedAt(s, i);
        if i in s.active {
          assert Window(s', i) == Window(s, i) + [msg];
        } else {
          assert Window(s', i) == Window(s, i);
        }
      }
    }
  }

  lemma OfferNextCounts(s: Server, i: nat)
    requires CountsOk(s) && Enabled(s, OfferNext(i))
    ensures CountsOk(FanOutTo(s, i))
  {
    TotalDropsUpdate(s.conns, i, OfferTo(s.conns[i], s.publisher.msg));
    WarningsNext(s.drops);
  }

  lemma OfferNextOffered(s: Server, i: nat)
    requires OfferedOk(s) && PublisherOk(s) && Enabled(s, OfferNext(i))
    ensures OfferedOk(FanOutTo(s, i))
  {
    var s' := FanOutTo(s, i);
    forall j | 0 <= j < |s'.conns| ensures OfferedAt(s', j) {
      assert OfferedAt(s, j);
      if j == i {
        assert Last(Window(s, i)) == s.publisher.msg;
        FrontAndLast(Window(s, i));
      } else {
        OfferedUnchanged(s, s', j);
      }
    }
  }

  lemma OfferNextInv(s: Server, i: nat)
    requires Inv(s) && Enabled(s, OfferNext(i))
    ensures Inv(FanOutTo(s, i))
  {
    var e := Offer(s.publisher.msg);
    UpdateKeepsConns(s, i, e);
    OfferNextCounts(s, i);
    OfferNextOffered(s, i);
    UpdateKeepsSlots(s, i, e);
  }

  /** A step of one connection other than removeConn leaves slots and shutdown bookkeeping intact. */
  lemma UpdateKeepsSlots(s: Server, i: nat, e: ConnEvent)
    requires i < |s.conns| && ConnEnabled(s.conns[i], e) && SlotsOk(s) && CloserOk(s) && !e.Deregister?
    ensures SlotsOk(Update(s, i, e)) && CloserOk(Update(s, i, e))
  {
    var c, c' := s.conns[i], ConnStep(s.conns[i], e);
    assert c'.writer.Gone? <==> c.writer.Gone?;
    assert c.closed ==> c'.closed;
  }

  lemma UpdateKeepsCounts(s: Server, i: nat, e: ConnEvent)
    requires i < |s.conns| && ConnEnabled(s.conns[i], e) && CountsOk(s) && !e.Offer?
    ensures CountsOk(Update(s, i, e))
  {
    TotalDropsUpdate(s.conns, i, ConnStep(s.conns[i], e));
  }

  lemma UpdateKeepsOffered(s: Server, i: nat, e: ConnEvent)
    requires OfferedOk(s) && i < |s.conns| && ConnEnabled(s.conns[i], e) && !e.Offer?
    ensures OfferedOk(Update(s, i, e))
  {
    var s' := Update(s, i, e);
    assert ConnStep(s.conns[i], e).offered == s.conns[i].offered;
    forall j | 0 <= j < |s'.conns| ensures OfferedAt(s', j) {
      assert OfferedAt(s, j);
      OfferedUnchanged(s, s', j);
    }
  }

  lemma RemoveOffered(s: Server, i: nat)
    requires i < |s.conns| && OfferedOk(s) && s.publisher.Resting?
    ensures OfferedOk(Remove(s, i))
  {
    var s' := Remove(s, i);
    forall j | 0 <= j < |s'.conns| ensures OfferedAt(s', j) {
      assert OfferedAt(s, j);
      if j == i && i in s.active {
        OfferedUntilNow(s, s', j);
      } else {
        OfferedUnchanged(s, s', j);
      }
    }
  }

  lemma DeregisterSlots(s: Server, i: nat)
    requires SlotsOk(s) && CloserOk(s) && Enabled(s, At(i, Deregister))
    ensures SlotsOk(Step(s, At(i, Deregister))) && CloserOk(Step(s, At(i, Deregister)))
  {
    var s' := Step(s, At(i, Deregister));
    assert s'.active == s.active - {i};
    if i in s.active {
      assert |s.active - {i}| == |s.active| - 1;
    }
  }

  /** removeConn: the connection leaves the active set, and only that one. */
  lemma DeregisterInv(s: Server, i: nat)
    requires Inv(s) && Enabled(s, At(i, Deregister))
    ensures Inv(Step(s, At(i, Deregister)))
  {
    UpdateKeepsConns(s, i, Deregister);
    UpdateKeepsCounts(s, i, Deregister);
    UpdateKeepsOffered(s, i, Deregister);
    RemoveOffered(Update(s, i, Deregister), i);
    DeregisterSlots(s, i);
  }

  lemma AtInv(s: Server, i: nat, e: ConnEvent)
    requires Inv(s) && Enabled(s, At(i, e))
    ensures Inv(Step(s, At(i, e)))
  {
    if e.Deregister? {
      DeregisterInv(s, i);
    } else {
      UpdateKeepsConns(s, i, e);
      UpdateKeepsSlots(s, i, e);
      UpdateKeepsCounts(s, i, e);
      UpdateKeepsOffered(s, i, e);
    }
  }

  lemma CloseNextInv(s: Server, i: nat)
    requires Inv(s) && Enabled(s, CloseNext(i))
    ensures Inv(Step(s, CloseNext(i)))
  {
    UpdateKeepsConns(s, i, CloseOnce);
    UpdateKeepsSlots(s, i, CloseOnce);
    UpdateKeepsCounts(s, i, CloseOnce);
    UpdateKeepsOffered(s, i, CloseOnce);
    var t, s' := Update(s, i, CloseOnce), Step(s, CloseNext(i));
    forall j | 0 <= j < |s'.conns| ensures OfferedAt(s', j) {
      assert OfferedAt(t, j);
      OfferedUnchanged(t, s', j);
    }
  }

  lemma CloseSwapInv(s: Server)
    requires Inv(s) && Enabled(s, CloseSwap)
    ensures Inv(Step(s, CloseSwap))
  {
    var s' := Step(s, CloseSwap);
    forall j | 0 <= j < |s'.conns| ensures OfferedAt(s', j) {
      assert OfferedAt(s, j);
      if j in s.active {
        OfferedUntilNow(s, s', j);
      } else {
        OfferedUnchanged(s, s', j);
      }
    }
    forall j | 0 <= j < |s'.conns| ensures s'.conns[j].closed || j in s'.closer.todo {
      assert ConnOk(s.hello, s.conns[j]);
    }
  }

  /** Steps that only move the publisher or the closer on. */
  lemma BookkeepingInv(s: Server, e: Event)
    requires Inv(s) && Enabled(s, e) && (e.EndPublish? || e.CloseReturns?)
    ensures Inv(Step(s, e))
  {
    var s' := Step(s, e);
    forall j | 0 <= j < |s'.conns| ensures OfferedAt(s', j) {
      assert OfferedAt(s, j);
      OfferedUnchanged(s, s', j);
    }
  }

  lemma StepInv(s: Server, e: Event)
    requires Inv(s)
    ensures Inv(Step(s, e)) && Step(s, e).hello == s.hello
  {
    if Enabled(s, e) {
      match e
      case AddConn => AddConnInv(s);
      case BeginPublish(msg) => BeginPublishInv(s, msg);
      case OfferNext(i) => OfferNextInv(s, i);
      case At(i, ce) => AtInv(s, i, ce);
      case CloseSwap => CloseSwapInv(s);
      case CloseNext(i) => CloseNextInv(s, i);
      case _ => BookkeepingInv(s, e);
    }
  }

  /** The invariant holds after every finite interleaving of the server's atomic actions. */
  lemma {:induction false} RunInv(s: Server, es: seq<Event>)
    requires Inv(s)
    ensures Inv(Run(s, es)) && Run(s, es).hello == s.hello
    decreases |es|
  {
    if es == [] {
    } else {
      RunInv(s, Front(es));
      StepInv(Run(s, Front(es)), Last(es));
    }
  }
}
