/** Whose events are whose, and what the loops of Publish and Close achieve while others are at work. */
module IpcGoroutines {
  import opened Sequences
  import opened IpcModel
  import Frames

  /** The goroutines that run a loop: main calling Publish, whoever calls Close, and the writer of connection i. */
  datatype Goroutine = Publisher | Closer | WriterOf(i: nat)

  predicate By(e: Event, g: Goroutine) {
    match g
    case Publisher => e.BeginPublish? || e.OfferNext? || e.EndPublish?
    case Closer => e.CloseSwap? || e.CloseNext? || e.CloseReturns?
    case WriterOf(i) => e.At? && e.i == i && !e.e.CloseOnce?
  }

  ghost predicate NoneBy(es: seq<Event>, g: Goroutine) {
    forall k :: 0 <= k < |es| ==> !By(es[k], g)
  }

  /** No call of Publish begins or ends. */
  ghost predicate SamePublish(es: seq<Event>) {
    forall k :: 0 <= k < |es| ==> !es[k].BeginPublish? && !es[k].EndPublish?
  }

  /** The event e leads from s to t; like Leads, not unfolded for a caller who only passes it on. */
  ghost predicate Steps(s: Server, e: Event, t: Server) {
    forall f :: f == e ==> Step(s, f) == t
  }

  lemma LeadsStep(s: Server, es: seq<Event>, t: Server, e: Event, u: Server)
    requires Leads(s, es, t) && Steps(t, e, u)
    ensures Leads(s, es + [e], u)
  {
    LeadsOn(s, es, t, e);
    assert Step(t, e) == u;
  }

  lemma LeadsAppend(s: Server, a: seq<Event>, t: Server, b: seq<Event>, u: Server)
    requires Leads(s, a, t) && Leads(t, b, u)
    ensures Leads(s, a + b, u)
  {
    RunAppend(s, a, b);
    assert Run(s, a) == t && Run(t, b) == u;
  }

  /** While Publish fans a message out, whatever else happens, each connection it has reached has been offered the
      message once, and no other connection has been offered anything. */
  lemma {:induction false} FanOutProgress(s: Server, es: seq<Event>)
    requires s.publisher.FanOut? && SamePublish(es)
    ensures var t := Run(s, es);
            && t.publisher.FanOut? && t.publisher.msg == s.publisher.msg && t.publisher.todo <= s.publisher.todo
            && t.published == s.published && t.active == s.active && |t.conns| == |s.conns|
            && forall i :: 0 <= i < |s.conns| ==>
                 t.conns[i].offered == s.conns[i].offered
                                       + if i in s.publisher.todo - t.publisher.todo then [s.publisher.msg] else []
    decreases |es|
  {
    if es != [] {
      assert forall k :: 0 <= k < |es| - 1 ==> Front(es)[k] == es[k];
      FanOutProgress(s, Front(es));
      FanOutStep(Run(s, Front(es)), Last(es));
    }
  }

  lemma FanOutStep(s: Server, e: Event)
    requires s.publisher.FanOut? && !e.BeginPublish? && !e.EndPublish?
    ensures var t := Step(s, e);
            && t.publisher.FanOut? && t.publisher.msg == s.publisher.msg && t.publisher.todo <= s.publisher.todo
            && t.published == s.published && t.active == s.active && |t.conns| == |s.conns|
            && forall i :: 0 <= i < |s.conns| ==>
                 t.conns[i].offered == s.conns[i].offered
                                       + if i in s.publisher.todo - t.publisher.todo then [s.publisher.msg] else []
  {
  }

  /** While Close disconnects the consumers it swapped out, those it has reached are closed and stay closed. */
  lemma {:induction false} CloseProgress(s: Server, es: seq<Event>)
    requires s.closer.Closing? && CloseReturns !in es
    ensures var t := Run(s, es);
            && t.closer.Closing? && t.closer.todo <= s.closer.todo && |s.conns| <= |t.conns|
            && forall i :: 0 <= i < |s.conns| && (s.conns[i].closed || i in s.closer.todo - t.closer.todo) ==>
                 t.conns[i].closed
    decreases |es|
  {
    if es != [] {
      FrontAndLast(es);
      CloseProgress(s, Front(es));
      CloseStep(Run(s, Front(es)), Last(es));
    }
  }

  lemma CloseStep(s: Server, e: Event)
    requires s.closer.Closing? && e != CloseReturns
    ensures var t := Step(s, e);
            && t.closer.Closing? && t.closer.todo <= s.closer.todo && |s.conns| <= |t.conns|
            && forall i :: 0 <= i < |s.conns| && (s.conns[i].closed || i in s.closer.todo - t.closer.todo) ==>
                 t.conns[i].closed
  {
  }

  lemma LeadsIsRun(s: Server, es: seq<Event>, t: Server)
    requires Leads(s, es, t)
    ensures Run(s, es) == t
  {
  }

  /** One call of Publish, and nothing else that Publish does. */
  ghost predicate IsPublish(es: seq<Event>, msg: Bytes) {
    es != [] && es[0] == BeginPublish(msg) && forall k :: 0 < k < |es| ==> !es[k].BeginPublish?
  }

  /** What a call of Publish achieves: a message that is sent at all is offered once to each active connection. */
  ghost predicate Published(s: Server, msg: Bytes, t: Server) {
    var sent := msg != [] && !s.closed && s.active != {} && Frames.Fits(msg);
    && t.published == (if sent then s.published + [msg] else s.published)
    && |s.conns| <= |t.conns|
    && forall i :: 0 <= i < |s.conns| ==>
         t.conns[i].offered == s.conns[i].offered + if sent && i in s.active then [msg] else []
  }

  lemma PublishedOnce(s: Server, msg: Bytes, offers: seq<Event>, t: Server)
    requires s.publisher.Resting? && StartFanOut(s, msg).publisher.FanOut?
    requires Leads(StartFanOut(s, msg), offers, t) && SamePublish(offers) && t.publisher == FanOut(msg, {})
    ensures Published(s, msg, t.(publisher := Resting))
  {
    FanOutProgress(StartFanOut(s, msg), offers);
    LeadsIsRun(StartFanOut(s, msg), offers, t);
  }
}
