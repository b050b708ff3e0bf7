/** Runs of the broadcast server that reach the extreme states the theorems speak of. */
module IpcWitnesses {
  import opened Sequences
  import opened Frames
  import opened IpcModel
  import opened IpcInvariant
  import opened IpcTheorems

  lemma Then(hello: Bytes, es: seq<Event>, s: Server, e: Event) returns (es': seq<Event>, s': Server)
    requires s == Run(Init(hello), es)
    ensures es' == es + [e] && s' == Step(s, e) && s' == Run(Init(hello), es')
  {
    es', s' := es + [e], Step(s, e);
    RunSnoc(Init(hello), es, e);
  }

  // ---------- a consumer whose writer never runs ----------

  /** The server has one consumer, which has been offered m messages and has taken no frame. */
  ghost predicate Stalled(s: Server, m: nat) {
    && |s.conns| == 1 && s.active == {0} && !s.closed && s.publisher.Resting?
    && s.conns[0].taken == [] && |s.conns[0].offered| == m
  }

  lemma PublishToStalled(hello: Bytes, es: seq<Event>, s: Server, m: nat) returns (es': seq<Event>, s': Server)
    requires s == Run(Init(hello), es) && Stalled(s, m)
    ensures s' == Run(Init(hello), es') && Stalled(s', m + 1)
  {
    es', s' := Then(hello, es, s, BeginPublish([0xF8]));
    assert s'.publisher == FanOut([0xF8], {0});
    es', s' := Then(hello, es', s', OfferNext(0));
    assert s'.publisher.todo == {};
    es', s' := Then(hello, es', s', EndPublish);
  }

  lemma {:induction false} StalledRun(hello: Bytes, m: nat) returns (es: seq<Event>, s: Server)
    ensures s == Run(Init(hello), es) && Stalled(s, m)
  {
    if m == 0 {
      es, s := Then(hello, [], Init(hello), AddConn);
    } else {
      es, s := StalledRun(hello, m - 1);
      es, s := PublishToStalled(hello, es, s, m - 1);
    }
  }

  /** Every number of drops is reached by some run, those past the wrap of the counter included. */
  lemma EveryTotalIsReached(hello: Bytes, n: nat)
    requires |hello| > 0
    ensures exists es :: TotalDrops(Run(Init(hello), es).conns) == n
  {
    var es, s := StalledRun(hello, SEND_QUEUE_SIZE - 1 + n);
    assert Reachable(s);
    StalledConsumer(s, 0);
    assert Front(s.conns) == [];
    assert TotalDrops(s.conns) == n;
  }

  // ---------- a closed connection that holds a slot ----------

  lemma {:induction false} Registrations(hello: Bytes, k: nat) returns (es: seq<Event>, s: Server)
    requires k <= MAX_CONNECTIONS
    ensures s == Run(Init(hello), es) && !s.closed && s.publisher.Resting?
    ensures |s.conns| == k == |s.active| && forall i :: i in s.active <==> 0 <= i < k
  {
    if k == 0 {
      es, s := [], Init(hello);
    } else {
      es, s := Registrations(hello, k - 1);
      assert k - 1 !in s.active;
      es, s := Then(hello, es, s, AddConn);
    }
  }

  /** Eight consumers have joined, consumer i has disconnected, and a ninth is refused all the same, because the writer
      of the closed connection has not deregistered yet. */
  lemma ClosedConnectionHoldsASlot(hello: Bytes, i: nat)
    requires i < MAX_CONNECTIONS
    ensures exists es ::
              var s := Run(Init(hello), es);
              && i < |s.conns| && s.conns[i].closed && i in s.active
              && !s.closed && Enabled(s, AddConn) && Step(s, AddConn) == s
  {
    var es, s := Registrations(hello, MAX_CONNECTIONS);
    es, s := Then(hello, es, s, At(i, CloseOnce));
    assert s.conns[i].closed && i in s.active && !s.closed;
    assert Enabled(s, AddConn) && Step(s, AddConn) == s;
  }
}
