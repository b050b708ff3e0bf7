/** The loop of writeLoop against its environment: what the goroutine may do, and that it serves its consumer. */
module IpcWriting {
  import opened Sequences
  import opened Frames
  import opened IpcModel
  import opened IpcInvariant
  import opened IpcGoroutines

  /** What the socket does with a piece of a frame: take that many bytes, or what is left of the frame, or fail. */
  datatype Outcome = Takes(n: nat) | Fails

  /** What is still to come: the events of all other goroutines and of the peer, and what the socket will do. hungup:
      the script of the others was used up, and the peer has gone. broken: that of the socket was, and it has failed.
      */
  datatype Env = Env(outside: seq<Event>, socket: seq<Outcome>, hungup: bool, broken: bool)

  /** Whether e may happen next, if the goroutine of connection i takes only the steps writeLoop gives it: its frames go
      out as far as the socket takes them, it fails only with the socket, it sees done only when closed, and the peer
      goes of its own accord only when the goroutine is waiting with nothing to send. */
  predicate MayPlay(s: Server, env: Env, i: nat, e: Event)
    requires i < |s.conns|
  {
    var c := s.conns[i];
    if !By(e, WriterOf(i)) then
      if env.outside != [] then e == env.outside[0]
      else e == At(i, CloseOnce) && !env.hungup && !c.closed && c.writer.Idle? && c.send == []
    else
      match e.e
      case Take => c.writer.Idle? && c.send != []
      case Sent(n) =>
        && c.writer.Writing? && c.writer.sent <= |c.writer.frame|
        && env.socket != [] && env.socket[0].Takes?
        && n == Min(env.socket[0].n, |c.writer.frame| - c.writer.sent)
      case SendFails => c.writer.Writing? && (env.socket == [] || env.socket[0].Fails?)
      case SeeDone => c.writer.Idle? && c.closed
      case _ => false
  }

  /** The goroutine of connection i does none of these. */
  ghost predicate Foreign(es: seq<Event>, i: nat) {
    forall k :: 0 <= k < |es| ==> !By(es[k], WriterOf(i))
  }

  predicate IsPiece(e: Event, i: nat) {
    e.At? && e.i == i && (e.e.Sent? || e.e.SendFails?)
  }

  function Remaining(env: Env, i: nat, e: Event): Env {
    if !By(e, WriterOf(i)) then
      if env.outside == [] then env.(hungup := true) else env.(outside := env.outside[1..])
    else if IsPiece(e, i) then
      if env.socket == [] then env.(broken := true) else env.(socket := env.socket[1..])
    else env
  }

  function EnvAfter(env: Env, i: nat, es: seq<Event>): Env {
    if es == [] then env else Remaining(EnvAfter(env, i, Front(es)), i, Last(es))
  }

  ghost predicate Fair(s: Server, env: Env, i: nat, es: seq<Event>)
    decreases |es|
  {
    || es == []
    || (&& Fair(s, env, i, Front(es))
        && i < |Run(s, Front(es)).conns|
        && MayPlay(Run(s, Front(es)), EnvAfter(env, i, Front(es)), i, Last(es)))
  }

  /** From s, with env to come, the events es are played and lead to t, with env' still to come. Written with a bound
      variable so that a caller who only passes the fact on does not have it unfolded. */
  ghost predicate Plays(s: Server, env: Env, i: nat, es: seq<Event>, t: Server, env': Env) {
    forall fs :: fs == es ==> Fair(s, env, i, fs) && Run(s, fs) == t && EnvAfter(env, i, fs) == env'
  }

  lemma PlaysNothing(s: Server, env: Env, i: nat)
    ensures Plays(s, env, i, [], s, env)
  {
  }

  lemma PlaysOn(s: Server, env: Env, i: nat, es: seq<Event>, t: Server, env': Env, e: Event)
    requires Plays(s, env, i, es, t, env') && i < |t.conns| && MayPlay(t, env', i, e)
    ensures Plays(s, env, i, es + [e], Step(t, e), Remaining(env', i, e))
  {
    assert Front(es + [e]) == es && Last(es + [e]) == e;
    assert Fair(s, env, i, es);
  }

  lemma {:induction false} PlaysAppend(s: Server, env: Env, i: nat, a: seq<Event>, t: Server, env': Env, b: seq<Event>,
                                       u: Server, env'': Env)
    requires Plays(s, env, i, a, t, env') && Plays(t, env', i, b, u, env'')
    ensures Plays(s, env, i, a + b, u, env'')
    decreases |b|
  {
    assert Fair(t, env', i, b);
    if b == [] {
      assert a + b == a;
    } else {
      var u', v := Run(t, Front(b)), EnvAfter(env', i, Front(b));
      assert Plays(t, env', i, Front(b), u', v);
      PlaysAppend(s, env, i, a, t, env', Front(b), u', v);
      PlaysOn(s, env, i, a + Front(b), u', v, Last(b));
      FrontAndLast(b);
      assert a + Front(b) + [Last(b)] == a + b;
    }
  }

  lemma PlaysIsRun(s: Server, env: Env, i: nat, es: seq<Event>, t: Server, env': Env)
    requires Plays(s, env, i, es, t, env')
    ensures Leads(s, es, t)
  {
    assert Fair(s, env, i, es);
  }

  // ---------- progress ----------

  /** Nobody closes connection i and the socket never fails. */
  ghost predicate Calm(env: Env, i: nat) {
    && (forall k :: 0 <= k < |env.outside| ==> env.outside[k] != At(i, CloseOnce) && env.outside[k] != CloseNext(i)
                                               && !By(env.outside[k], WriterOf(i)))
    && (forall k :: 0 <= k < |env.socket| ==> env.socket[k].Takes?)
  }

  /** While it is calm the goroutine stops for two reasons only: it has run out of things to send, and everything has
      been sent, or the socket has done all it was willing to. */
  ghost predicate Serving(c: Conn, env: Env) {
    && (env.hungup ==> env.outside == [] && c.send == [] && (c.writer.Idle? || c.writer.Leaving?)
                       && c.wire == Flatten(c.taken) && !env.broken)
    && (!env.hungup ==> !c.closed && (c.writer.Idle? || c.writer.Writing? || (c.writer.Leaving? && env.broken)))
    && (env.broken ==> env.socket == [] && c.writer.Leaving?)
  }

  lemma OwnStepServes(s: Server, env: Env, i: nat, e: Event)
    requires Inv(s) && i < |s.conns| && Calm(env, i) && Serving(s.conns[i], env)
    requires By(e, WriterOf(i)) && MayPlay(s, env, i, e)
    ensures i < |Step(s, e).conns| && Serving(Step(s, e).conns[i], Remaining(env, i, e))
  {
    assert ConnOk(s.hello, s.conns[i]);
  }

  lemma OtherStepServes(s: Server, env: Env, i: nat, e: Event)
    requires Inv(s) && i < |s.conns| && Calm(env, i) && Serving(s.conns[i], env)
    requires !By(e, WriterOf(i)) && MayPlay(s, env, i, e)
    ensures i < |Step(s, e).conns| && Serving(Step(s, e).conns[i], Remaining(env, i, e))
  {
    if env.outside != [] {
      assert e == env.outside[0];
      OtherStepKeeps(s, e, i);
      ClosersClose(s, e, i);
    }
  }

  lemma ClosersClose(s: Server, e: Event, i: nat)
    requires i < |s.conns| && !By(e, WriterOf(i)) && e != At(i, CloseOnce) && e != CloseNext(i)
    ensures i < |Step(s, e).conns| && Step(s, e).conns[i].closed == s.conns[i].closed
  {
  }

  /** Calm and serving, at some point of a run. */
  ghost predicate Ok(s: Server, env: Env, i: nat) {
    Inv(s) && i < |s.conns| && Calm(env, i) && Serving(s.conns[i], env)
  }

  lemma StepServes(s: Server, env: Env, i: nat, e: Event)
    requires Ok(s, env, i) && MayPlay(s, env, i, e)
    ensures Ok(Step(s, e), Remaining(env, i, e), i) && Step(s, e).hello == s.hello
  {
    StepInv(s, e);
    if By(e, WriterOf(i)) {
      OwnStepServes(s, env, i, e);
    } else {
      OtherStepServes(s, env, i, e);
    }
  }

  lemma {:induction false} ServesWhileCalm(s: Server, env: Env, i: nat, es: seq<Event>)
    requires Ok(s, env, i) && Fair(s, env, i, es)
    ensures Ok(Run(s, es), EnvAfter(env, i, es), i) && Run(s, es).hello == s.hello
    decreases |es|
  {
    if es != [] {
      ServesWhileCalm(s, env, i, Front(es));
      StepServes(Run(s, Front(es)), EnvAfter(env, i, Front(es)), i, Last(es));
    }
  }

  /** The goroutine serves its consumer: if nobody closes the connection and the socket does not fail, then when it
      stops, either everything accepted for the consumer has gone out, hello first, or the socket has done all it was
      willing to. */
  lemma WriterServes(s: Server, env: Env, i: nat, es: seq<Event>, t: Server, env': Env)
    requires Inv(s) && i < |s.conns| && s.conns[i].writer.Idle? && !s.conns[i].closed
    requires Calm(env, i) && !env.hungup && !env.broken
    requires Plays(s, env, i, es, t, env')
    ensures i < |t.conns| && MessagesFit(t.conns[i].accepted)
    ensures t.conns[i].writer.Leaving? ==>
              || (t.conns[i].send == [] && t.conns[i].wire == Flatten([t.hello] + MidiFrames(t.conns[i].accepted)))
              || (env'.broken && env'.socket == [])
  {
    assert Fair(s, env, i, es);
    ServesWhileCalm(s, env, i, es);
    var c := t.conns[i];
    assert ConnOk(t.hello, c);
    if c.send == [] {
      assert c.taken + c.send == c.taken;
    }
  }

  // ---------- frame by frame ----------

  /** Each thing the socket does is to take a whole frame, or what is left of one. */
  ghost predicate Whole(env: Env, n: nat) {
    forall k :: 0 <= k < |env.socket| ==> env.socket[k].Takes? && env.socket[k].n >= n
  }

  ghost predicate FramesFit(c: Conn, n: nat) {
    && (forall k :: 0 <= k < |c.send| ==> |c.send[k]| <= n)
    && (c.writer.Writing? ==> |c.writer.frame| <= n)
  }

  /** n frames had been taken when the socket had m frames still to take. */
  ghost predicate Counted(c: Conn, env: Env, n: nat, m: nat) {
    && |env.socket| <= m
    && (c.writer.Idle? ==> |c.taken| == n + m - |env.socket|)
    && (c.writer.Writing? ==> c.writer.sent == 0 && |c.taken| == n + m - |env.socket| + 1)
    && (c.writer.Leaving? && env.broken ==> |c.taken| == n + m + 1 && c.wire == Flatten(Front(c.taken)))
    && (c.writer.Leaving? && !env.broken ==> |c.taken| == n + m - |env.socket|)
  }

  lemma FramesAreSmall(hello: Bytes, c: Conn)
    requires ConnOk(hello, c)
    ensures FramesFit(c, |hello| + 4 + MAX_FRAME_SIZE)
  {
    var all := c.taken + c.send;
    assert forall k :: 0 <= k < |all| ==> |all[k]| <= |hello| + 4 + MAX_FRAME_SIZE;
    assert forall k :: 0 <= k < |c.send| ==> c.send[k] == all[|c.taken| + k];
    if c.writer.Writing? {
      assert c.writer.frame == all[|c.taken| - 1];
    }
  }

  lemma OwnStepCounts(c: Conn, env: Env, i: nat, e: ConnEvent, n: nat, m: nat, size: nat)
    requires Counted(c, env, n, m) && Whole(env, size) && FramesFit(c, size) && WireOk(c) && !env.broken
    requires ConnEnabled(c, e) && By(At(i, e), WriterOf(i)) && !e.Offer? && !e.WriterCloses? && !e.Deregister?
    requires e.Sent? ==> env.socket != [] && e.n == Min(env.socket[0].n, |c.writer.frame| - c.writer.sent)
    requires e.SendFails? ==> env.socket == []
    ensures Counted(ConnStep(c, e), Remaining(env, i, At(i, e)), n, m)
    ensures Whole(Remaining(env, i, At(i, e)), size)
  {
    if e.SendFails? {
      assert c.writer.frame[..0] == [];
      assert c.wire == Flatten(Front(c.taken));
    }
  }

  /** First in, first out: a connection goes on taking what was queued, in order. */
  ghost predicate Continues(c: Conn, c': Conn) {
    c.taken + c.send <= c'.taken + c'.send && |c.taken| <= |c'.taken|
  }

  lemma ConnContinues(c: Conn, e: ConnEvent)
    requires ConnEnabled(c, e)
    ensures Continues(c, ConnStep(c, e))
  {
    match e
    case Take =>
      HeadAndTail(c.send);
      Associative(c.taken, [c.send[0]], c.send[1..]);
    case Offer(msg) =>
      if |c.send| < SEND_QUEUE_SIZE {
        Associative(c.taken, c.send, [MidiFrame(msg)]);
      }
    case _ =>
  }

  lemma StepContinues(s: Server, e: Event, i: nat)
    requires i < |s.conns|
    ensures i < |Step(s, e).conns| && Continues(s.conns[i], Step(s, e).conns[i])
  {
    if Enabled(s, e) {
      match e
      case At(j, ce) => ConnContinues(s.conns[j], ce);
      case OfferNext(j) => ConnContinues(s.conns[j], Offer(s.publisher.msg));
      case CloseNext(j) => ConnContinues(s.conns[j], CloseOnce);
      case _ =>
    }
  }

  /** Steps of others leave what the goroutine has done alone. */
  lemma OtherStepKeeps(s: Server, e: Event, i: nat)
    requires i < |s.conns| && !By(e, WriterOf(i))
    ensures i < |Step(s, e).conns|
    ensures var c, c' := s.conns[i], Step(s, e).conns[i];
            c'.writer == c.writer && c'.taken == c.taken && c'.wire == c.wire
  {
  }

  ghost predicate Tracks(c0: Conn, s: Server, env: Env, i: nat, m: nat) {
    && Ok(s, env, i)
    && Whole(env, |s.hello| + 4 + MAX_FRAME_SIZE)
    && Counted(s.conns[i], env, |c0.taken|, m)
    && Continues(c0, s.conns[i])
  }

  lemma StepTracks(c0: Conn, s: Server, env: Env, i: nat, m: nat, e: Event)
    requires Tracks(c0, s, env, i, m) && MayPlay(s, env, i, e)
    ensures Tracks(c0, Step(s, e), Remaining(env, i, e), i, m)
  {
    StepServes(s, env, i, e);
    StepContinues(s, e, i);
    if By(e, WriterOf(i)) {
      OwnStepTracks(c0, s, env, i, m, e.e);
    } else {
      OtherStepKeeps(s, e, i);
    }
  }

  lemma OwnStepTracks(c0: Conn, s: Server, env: Env, i: nat, m: nat, e: ConnEvent)
    requires Tracks(c0, s, env, i, m) && MayPlay(s, env, i, At(i, e)) && By(At(i, e), WriterOf(i))
    ensures i < |Step(s, At(i, e)).conns| && Step(s, At(i, e)).hello == s.hello
    ensures Counted(Step(s, At(i, e)).conns[i], Remaining(env, i, At(i, e)), |c0.taken|, m)
    ensures Whole(Remaining(env, i, At(i, e)), |s.hello| + 4 + MAX_FRAME_SIZE)
  {
    assert ConnOk(s.hello, s.conns[i]);
    FramesAreSmall(s.hello, s.conns[i]);
    OwnStepCounts(s.conns[i], env, i, e, |c0.taken|, m, |s.hello| + 4 + MAX_FRAME_SIZE);
  }

  lemma {:induction false} RunTracks(c0: Conn, s: Server, env: Env, i: nat, m: nat, es: seq<Event>)
    requires Tracks(c0, s, env, i, m) && Fair(s, env, i, es)
    ensures Tracks(c0, Run(s, es), EnvAfter(env, i, es), i, m)
    decreases |es|
  {
    if es != [] {
      RunTracks(c0, s, env, i, m, Front(es));
      StepTracks(c0, Run(s, Front(es)), EnvAfter(env, i, Front(es)), i, m, Last(es));
    }
  }

  /** Frame by frame: with at least m frames queued, nobody closing the connection and a socket that takes m whole
      frames, exactly the first m queued frames go out, after what had gone out before. */
  lemma FramesGoOut(s: Server, env: Env, i: nat, es: seq<Event>, t: Server, env': Env)
    requires Inv(s) && i < |s.conns| && s.conns[i].writer.Idle? && !s.conns[i].closed
    requires Calm(env, i) && !env.hungup && !env.broken && Whole(env, |s.hello| + 4 + MAX_FRAME_SIZE)
    requires |s.conns[i].send| >= |env.socket|
    requires Plays(s, env, i, es, t, env') && i < |t.conns| && t.conns[i].writer.Leaving?
    ensures t.conns[i].wire == Flatten(s.conns[i].taken + s.conns[i].send[..|env.socket|])
  {
    var c0, m := s.conns[i], |env.socket|;
    assert Fair(s, env, i, es);
    RunTracks(c0, s, env, i, m, es);
    var c := t.conns[i];
    var sent := if env'.broken then Front(c.taken) else c.taken;
    assert c.wire == Flatten(sent) && |sent| == |c0.taken| + m;
    FirstOfQueue(c0, c, sent, m);
  }

  lemma FirstOfQueue(c0: Conn, c: Conn, sent: seq<Bytes>, m: nat)
    requires Continues(c0, c) && m <= |c0.send| && sent <= c.taken && |sent| == |c0.taken| + m
    ensures sent == c0.taken + c0.send[..m]
  {
    assert sent == (c.taken + c.send)[..|sent|];
    assert sent == (c0.taken + c0.send)[..|sent|];
  }
}
