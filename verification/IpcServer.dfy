/** src/ipc.go as objects: the atomic actions of its goroutines, each one event of the state machine, and Publish, Close
    and writeLoop as loops over them, with the other goroutines at work in between. */
module IpcServer {
  import opened Sequences
  import opened Frames
  import opened IpcModel
  import opened IpcGoroutines
  import IpcTheorems
  import opened IpcWriting

  /** ipcConn. writer is the program counter of writeLoop; the ghost fields are its history. */
  class IpcConn {
    var send: seq<Bytes>
    var closed: bool
    var writer: Writer
    ghost var doneCloses: nat
    ghost var wire: Bytes
    ghost var taken: seq<Bytes>
    ghost var offered: seq<Bytes>
    ghost var accepted: seq<Bytes>
    ghost var drops: nat

    ghost function Model(): Conn
      reads this
    {
      Conn(send, closed, doneCloses, writer, wire, taken, offered, accepted, drops)
    }

    constructor (hello: Bytes)
      ensures Model() == Registered(hello)
    {
      send := [hello];
      closed, writer := false, Idle;
      doneCloses, wire, taken, offered, accepted, drops := 0, [], [], [], [], 0;
    }

    /** close: sync.Once around close(done) and conn.Close. */
    method Close()
      modifies this
      ensures Model() == ConnStep(old(Model()), CloseOnce)
    {
      if !closed {
        closed := true;
        doneCloses := doneCloses + 1;
      }
    }

    /** writeLoop, case frame := <-c.send */
    method Take()
      requires ConnEnabled(Model(), IpcModel.Take)
      modifies this
      ensures Model() == ConnStep(old(Model()), IpcModel.Take)
    {
      var frame := send[0];
      send := send[1..];
      writer := Writing(frame, 0);
      taken := taken + [frame];
    }

    /** writeLoop, the socket takes n more bytes; conn.Write returns once the frame is out. */
    method Transmit(n: nat)
      requires ConnEnabled(Model(), Sent(n))
      modifies this
      ensures Model() == ConnStep(old(Model()), Sent(n))
    {
      var frame, sent := writer.frame, writer.sent;
      wire := wire + frame[sent..sent + n];
      if sent + n == |frame| {
        writer := Idle;
      } else {
        writer := Writing(frame, sent + n);
      }
    }

    /** A step of the connection's own goroutines or of its peer, if it is its turn; removeConn is the server's. */
    method Act(e: ConnEvent)
      requires !e.Offer? && !e.Deregister?
      modifies this
      ensures Model() == if ConnEnabled(old(Model()), e) then ConnStep(old(Model()), e) else old(Model())
    {
      match e {
        case Take =>
          if writer.Idle? && send != [] {
            Take();
          }
        case Sent(n) =>
          if writer.Writing? && writer.sent + n <= |writer.frame| {
            Transmit(n);
          }
        case SendFails =>
          if writer.Writing? {
            writer := Leaving;
          }
        case SeeDone =>
          if writer.Idle? && closed {
            writer := Leaving;
          }
        case CloseOnce =>
          Close();
        case WriterCloses =>
          if writer.Leaving? {
            Close();
            writer := Shut;
          }
      }
    }

    /** The select of Publish. */
    method Offer(ghost msg: Bytes, frame: Bytes) returns (dropped: bool)
      requires Fits(msg) && frame == MidiFrame(msg)
      modifies this
      ensures Model() == ConnStep(old(Model()), IpcModel.Offer(msg))
      ensures dropped <==> |old(send)| >= SEND_QUEUE_SIZE
    {
      offered := offered + [msg];
      if |send| < SEND_QUEUE_SIZE {
        send := send + [frame];
        accepted := accepted + [msg];
        dropped := false;
      } else {
        drops := drops + 1;
        dropped := true;
      }
    }
  }

  ghost function Models(cs: seq<IpcConn>): seq<Conn>
    reads cs
  {
    seq(|cs|, i requires 0 <= i < |cs| reads cs => cs[i].Model())
  }

  lemma ModelsSnoc(cs: seq<IpcConn>, c: IpcConn)
    ensures Models(cs + [c]) == Models(cs) + [c.Model()]
  {
  }

  /** How far the one call of Close has come. */
  datatype Phase = NotClosed | Disconnecting | CloseReturned

  /** IPCServer. message, frame and toOffer are the locals of the publishing goroutine, phase and toClose those of
      Close. registered is every connection there ever was; the goroutines of removed ones go on running. */
  class IPCServer {
    const hello: Bytes
    var conns: set<IpcConn>
    var closed: bool
    var dropped: nat
    var message: Option<Bytes>
    var frame: Bytes
    var toOffer: set<IpcConn>
    var phase: Phase
    var toClose: set<IpcConn>
    var registered: seq<IpcConn>
    ghost var published: seq<Bytes>
    ghost var joined: seq<nat>
    ghost var left: map<nat, nat>
    ghost var drops: nat
    ghost var warnings: nat

    ghost predicate Valid()
      reads this
    {
      && (forall i, j :: 0 <= i < j < |registered| ==> registered[i] != registered[j])
      && (forall c :: c in conns + toOffer + toClose ==> c in registered)
      && (message.None? ==> toOffer == {})
      && (phase != Disconnecting ==> toClose == {})
      && (message.Some? ==> Fits(message.value) && frame == MidiFrame(message.value))
    }

    ghost function Model(): Server
      reads this, registered
    {
      Server(hello, Models(registered), PositionsOf(registered, conns), closed, dropped,
             if message.None? then Resting else FanOut(message.value, PositionsOf(registered, toOffer)),
             match phase {
               case NotClosed => Running
               case Disconnecting => Closing(PositionsOf(registered, toClose))
               case CloseReturned => Returned
             },
             published, joined, left, drops, warnings)
    }

    constructor (hello: Bytes)
      ensures Valid() && Model() == Init(hello)
    {
      this.hello := hello;
      conns, closed, dropped := {}, false, 0;
      message, frame, toOffer := None, [], {};
      phase, toClose := NotClosed, {};
      registered, published, joined, left, drops, warnings := [], [], [], map[], 0, 0;
    }

    /** The part of addConn that builds the connection, queues the hello frame and enters it in the map. */
    method Enrol() returns (c: IpcConn)
      requires Valid()
      modifies this`conns, this`registered, this`joined
      ensures Valid() && fresh(c) && Model().conns == old(Model()).conns + [Registered(hello)]
      ensures conns == old(conns) + {c} && registered == old(registered) + [c] && joined == old(joined) + [|published|]
    {
      c := new IpcConn(hello);
      conns := conns + {c};
      registered := registered + [c];
      joined := joined + [|published|];
      ModelsSnoc(old(registered), c);
      assert Models(old(registered)) == old(Models(registered));
    }

    /** addConn; None is the refusal. */
    method AddConn() returns (r: Option<IpcConn>)
      requires Valid() && Enabled(Model(), IpcModel.AddConn)
      modifies this`conns, this`registered, this`joined
      ensures Valid() && Model() == Step(old(Model()), IpcModel.AddConn)
      ensures r.Some? <==> !old(closed) && |old(conns)| < MAX_CONNECTIONS
      ensures r.Some? ==> fresh(r.value) && r.value in conns && registered == old(registered) + [r.value]
      ensures r.None? ==> registered == old(registered) && conns == old(conns)
    {
      assert |PositionsOf(registered, conns)| == |conns| by {
        PositionsCount(registered, conns);
      }
      if closed {
        return None;
      }
      if |conns| >= MAX_CONNECTIONS {
        return None;
      }
      ghost var was := Model();
      var c := Enrol();
      assert PositionsOf(registered, conns) == was.active + {|was.conns|} by {
        PositionsSnoc(old(registered), old(conns), c);
      }
      assert PositionsOf(registered, toClose) == PositionsOf(old(registered), toClose) by {
        PositionsSnoc(old(registered), toClose, c);
      }
      return Some(c);
    }

    /** The write goroutine of c ends once removeConn has returned. */
    method EndWriter(c: IpcConn, ghost i: nat)
      requires Valid() && i < |registered| && registered[i] == c && c.writer.Shut?
      modifies c`writer
      ensures Valid() && Model() == Update(old(Model()), i, Deregister) && c.writer.Gone?
    {
      ghost var was := Model();
      c.writer := Gone;
      assert Model().conns == was.conns[i := ConnStep(was.conns[i], Deregister)];
    }

    /** removeConn, deferred by the write goroutine of c. */
    method RemoveConn(c: IpcConn, ghost i: nat)
      requires Valid() && i < |registered| && registered[i] == c && message.None? && c.writer.Shut?
      modifies this`conns, this`left, c`writer
      ensures Valid() && Model() == Step(old(Model()), At(i, Deregister))
      ensures conns == old(conns) - {c} && c.writer.Gone?
    {
      if c in conns {
        left := left[i := |published|];
      }
      conns := conns - {c};
      assert PositionsOf(registered, conns) == old(PositionsOf(registered, conns)) - {i};
      assert Models(registered) == old(Models(registered));
      EndWriter(c, i);
    }

    method Encoded(msg: Bytes) returns (r: Option<Bytes>)
      ensures r == if Fits(msg) then Some(MidiFrame(msg)) else None
    {
      var encoded := EncodeFrame(KIND_MIDI, msg);
      r := if encoded.None? then None else Some(encoded.value[..]);
    }

    method StartFanOut(msg: Bytes, encoded: Bytes)
      requires Valid() && message.None? && Fits(msg) && encoded == MidiFrame(msg)
      modifies this`message, this`frame, this`toOffer, this`published
      ensures Valid() && message == Some(msg) && toOffer == conns
      ensures Model() == old(Model()).(publisher := FanOut(msg, old(Model()).active),
                                       published := old(published) + [msg])
    {
      message, frame, toOffer := Some(msg), encoded, conns;
      published := published + [msg];
      assert Models(registered) == old(Models(registered));
    }

    /** Publish up to its loop. */
    method BeginPublish(msg: Bytes)
      requires Valid() && Enabled(Model(), IpcModel.BeginPublish(msg))
      modifies this`message, this`frame, this`toOffer, this`published
      ensures Valid() && Model() == Step(old(Model()), IpcModel.BeginPublish(msg))
      ensures message.None? <==> msg == [] || closed || conns == {} || !Fits(msg)
      ensures published == if message.None? then old(published) else old(published) + [msg]
      ensures message.Some? ==> message.value == msg && toOffer == conns
    {
      if |msg| == 0 {
        return;
      }
      assert PositionsOf(registered, conns) == {} <==> conns == {} by {
        PositionsEmpty(registered, conns);
      }
      if closed || |conns| == 0 {
        return;
      }
      var encoded := Encoded(msg);
      if encoded.None? {
        return;
      }
      StartFanOut(msg, encoded.value);
    }

    /** dropped.Add(1) and the spaced log line. */
    method CountDrop()
      requires Valid()
      modifies this`dropped, this`drops, this`warnings
      ensures Valid() && Model() == IpcModel.CountDrop(old(Model()))
    {
      dropped := (dropped + 1) % UINT64;
      drops := drops + 1;
      if dropped % DROP_LOG_INTERVAL == 1 {
        warnings := warnings + 1;
      }
      assert Models(registered) == old(Models(registered));
    }

    /** The select of Publish for one consumer. */
    method Select(c: IpcConn, ghost i: nat) returns (full: bool)
      requires Valid() && i < |registered| && registered[i] == c && c in toOffer
      modifies this`toOffer, c
      ensures Valid() && toOffer == old(toOffer) - {c} && c.Model() == OfferTo(old(c.Model()), message.value)
      ensures full <==> |old(c.send)| >= SEND_QUEUE_SIZE
      ensures Model() == Update(old(Model()), i, IpcModel.Offer(message.value))
                         .(publisher := FanOut(message.value, PositionsOf(registered, old(toOffer)) - {i}))
    {
      ghost var was := Model();
      assert was.conns[i] == c.Model();
      toOffer := toOffer - {c};
      full := c.Offer(message.value, frame);
      assert Model().conns == was.conns[i := ConnStep(was.conns[i], IpcModel.Offer(message.value))];
      assert PositionsOf(registered, toOffer) == PositionsOf(registered, old(toOffer)) - {i};
    }

    /** One round of the loop of Publish; the map is iterated in any order. */
    method OfferNext(c: IpcConn, ghost i: nat)
      requires Valid() && i < |registered| && registered[i] == c && c in toOffer
      modifies this`toOffer, this`dropped, this`drops, this`warnings, c
      ensures Valid() && Model() == Step(old(Model()), IpcModel.OfferNext(i))
      ensures toOffer == old(toOffer) - {c} && c.Model() == OfferTo(old(c.Model()), message.value)
    {
      var full := Select(c, i);
      if full {
        CountDrop();
      }
    }

    /** Publish has reached every consumer and releases the lock. */
    method EndPublish()
      requires Valid() && message.Some? && toOffer == {}
      modifies this`message
      ensures Valid() && message.None? && Model() == Step(old(Model()), IpcModel.EndPublish)
    {
      assert PositionsOf(registered, toOffer) == {};
      message := None;
      assert Models(registered) == old(Models(registered));
    }

    // ---------- any event of the machine ----------

    /** A step of the goroutines of connection c, or of its peer, other than removeConn. */
    method Act(c: IpcConn, i: nat, e: ConnEvent)
      requires Valid() && i < |registered| && registered[i] == c && !e.Offer? && !e.Deregister?
      modifies c
      ensures Valid() && Model() == Step(old(Model()), At(i, e))
      ensures c.Model() == if ConnEnabled(old(c.Model()), e) then ConnStep(old(c.Model()), e) else old(c.Model())
    {
      ghost var was := Model();
      assert was.conns[i] == c.Model();
      c.Act(e);
      assert Model().conns == was.conns[i := c.Model()];
    }

    /** Close under the lock: mark the server closed and take the map away. */
    method CloseSwap()
      requires Valid() && Enabled(Model(), IpcModel.CloseSwap)
      modifies this`closed, this`toClose, this`phase, this`conns, this`left
      ensures Valid() && Model() == Step(old(Model()), IpcModel.CloseSwap)
      ensures phase == Disconnecting && toClose == old(conns) && closed && conns == {}
    {
      closed := true;
      left := left + map i | i in PositionsOf(registered, conns) :: |published|;
      toClose, phase := conns, Disconnecting;
      conns := {};
      assert Models(registered) == old(Models(registered));
    }

    /** One round of the loop of Close. */
    method CloseNext(c: IpcConn, ghost i: nat)
      requires Valid() && i < |registered| && registered[i] == c && phase == Disconnecting && c in toClose
      modifies this`toClose, c
      ensures Valid() && Model() == Step(old(Model()), IpcModel.CloseNext(i))
      ensures toClose == old(toClose) - {c} && c.Model() == IpcModel.Close(old(c.Model()))
    {
      ghost var was := Model();
      assert was.conns[i] == c.Model();
      toClose := toClose - {c};
      c.Close();
      assert Model().conns == was.conns[i := ConnStep(was.conns[i], CloseOnce)];
      assert PositionsOf(registered, toClose) == was.closer.todo - {i};
    }

    method MarkReturned()
      requires Valid() && phase == Disconnecting && toClose == {}
      modifies this`phase
      ensures Valid() && phase == CloseReturned && Model() == Step(old(Model()), CloseReturns)
    {
      assert PositionsOf(registered, toClose) == {};
      phase := CloseReturned;
      assert Models(registered) == old(Models(registered));
    }

    method PublisherActs(e: Event)
      requires Valid() && By(e, Publisher)
      modifies this`message, this`frame, this`toOffer, this`published, this`dropped, this`drops, this`warnings,
               registered
      ensures Valid() && Steps(old(Model()), e, Model())
      ensures forall c :: c in registered ==> c.writer == old(c.writer)
    {
      match e {
        case BeginPublish(msg) =>
          if message.None? {
            BeginPublish(msg);
          }
        case OfferNext(i) =>
          if message.Some? && i < |registered| && registered[i] in toOffer {
            OfferNext(registered[i], i);
          }
        case EndPublish =>
          if message.Some? {
            PositionsEmpty(registered, toOffer);
            if toOffer == {} {
              EndPublish();
            }
          }
      }
    }

    method CloserActs(e: Event)
      requires Valid() && By(e, Closer)
      modifies this`closed, this`toClose, this`phase, this`conns, this`left, registered
      ensures Valid() && Steps(old(Model()), e, Model())
      ensures forall c :: c in registered ==> c.writer == old(c.writer)
      ensures (conns == old(conns) || conns == {}) && (old(closed) ==> closed)
    {
      match e {
        case CloseSwap =>
          if phase == NotClosed && message.None? {
            CloseSwap();
          }
        case CloseNext(i) =>
          if phase == Disconnecting && i < |registered| && registered[i] in toClose {
            CloseNext(registered[i], i);
          }
        case CloseReturns =>
          if phase == Disconnecting {
            PositionsEmpty(registered, toClose);
            if toClose == {} {
              MarkReturned();
            }
          }
      }
    }

    method ConnActs(i: nat, e: ConnEvent)
      requires Valid()
      modifies this`conns, this`left, registered
      ensures Valid() && Steps(old(Model()), At(i, e), Model())
      ensures forall j :: 0 <= j < |registered| && j != i ==> registered[j].writer == old(registered[j].writer)
      ensures e.CloseOnce? ==> forall c :: c in registered ==> c.writer == old(c.writer)
      ensures conns <= old(conns)
    {
      if i >= |registered| || e.Offer? {
        return;
      }
      var c := registered[i];
      assert Model().conns[i] == c.Model();
      if !e.Deregister? {
        Act(c, i, e);
      } else if message.None? && c.writer.Shut? {
        RemoveConn(c, i);
      }
    }

    method Accept()
      requires Valid()
      modifies this`conns, this`registered, this`joined
      ensures Valid() && Steps(old(Model()), IpcModel.AddConn, Model())
      ensures old(registered) <= registered
      ensures forall k :: |old(registered)| <= k < |registered| ==> fresh(registered[k])
      ensures old(closed) ==> conns <= old(conns)
    {
      if message.None? {
        var _ := AddConn();
      }
    }

    /** The objects can execute every event of the machine, and an event out of turn changes nothing. */
    method Perform(e: Event, ghost w: nat)
      requires Valid()
      modifies this, registered
      ensures Valid() && Steps(old(Model()), e, Model())
      ensures old(registered) <= registered
      ensures forall k :: |old(registered)| <= k < |registered| ==> fresh(registered[k])
      ensures !By(e, Publisher) ==> message == old(message) && toOffer == old(toOffer)
      ensures !By(e, Closer) ==> phase == old(phase) && toClose == old(toClose)
      ensures w < |old(registered)| && !By(e, WriterOf(w)) ==> registered[w].writer == old(registered[w].writer)
      ensures old(closed) ==> closed && conns <= old(conns)
    {
      match e {
        case AddConn =>
          Accept();
        case At(i, ce) =>
          ConnActs(i, ce);
        case BeginPublish(_) | OfferNext(_) | EndPublish =>
          PublisherActs(e);
        case CloseSwap | CloseNext(_) | CloseReturns =>
          CloserActs(e);
      }
    }

    /** Some event, by anyone but the two goroutines named, or none. */
    method Disturb(g: Goroutine, h: Goroutine) returns (ghost es: seq<Event>)
      requires Valid()
      modifies this, registered
      ensures Valid() && Leads(old(Model()), es, Model()) && NoneBy(es, g) && NoneBy(es, h)
      ensures old(registered) <= registered
      ensures forall k :: |old(registered)| <= k < |registered| ==> fresh(registered[k])
      ensures g == Publisher || h == Publisher ==> message == old(message) && toOffer == old(toOffer)
      ensures g == Closer || h == Closer ==> phase == old(phase) && toClose == old(toClose)
      ensures g.WriterOf? && g.i < |old(registered)| ==> registered[g.i].writer == old(registered[g.i].writer)
      ensures old(closed) ==> closed && conns <= old(conns)
    {
      es := [];
      var e: Event := *;
      if !By(e, g) && !By(e, h) {
        Perform(e, if g.WriterOf? then g.i else 0);
        LeadsStep(old(Model()), [], old(Model()), e, Model());
        es := [] + [e];
      }
    }

    /** Any number of such events. */
    method Interfere(steps: nat, g: Goroutine, h: Goroutine) returns (ghost es: seq<Event>)
      requires Valid()
      modifies this, registered
      ensures Valid() && Leads(old(Model()), es, Model()) && NoneBy(es, g) && NoneBy(es, h)
      ensures old(registered) <= registered
      ensures forall k :: |old(registered)| <= k < |registered| ==> fresh(registered[k])
      ensures g == Publisher || h == Publisher ==> message == old(message) && toOffer == old(toOffer)
      ensures g == Closer || h == Closer ==> phase == old(phase) && toClose == old(toClose)
      ensures g.WriterOf? && g.i < |old(registered)| ==> registered[g.i].writer == old(registered[g.i].writer)
      ensures old(closed) ==> closed && conns <= old(conns)
      decreases steps
    {
      es := [];
      if steps > 0 {
        es := Disturb(g, h);
        ghost var between := Model();
        ghost var more := Interfere(steps - 1, g, h);
        LeadsAppend(old(Model()), es, between, more, Model());
        es := es + more;
      }
    }

    // ---------- Publish ----------

    method OfferSome() returns (ghost i: nat)
      requires Valid() && message.Some? && toOffer != {}
      modifies this`toOffer, this`dropped, this`drops, this`warnings, registered
      ensures Valid() && Steps(old(Model()), IpcModel.OfferNext(i), Model()) && toOffer < old(toOffer)
      ensures forall c :: c in registered ==> c.writer == old(c.writer)
    {
      var c :| c in toOffer;
      i := PositionIn(registered, c);
      OfferNext(c, i);
    }

    /** One round of the loop of Publish, and what others do before it. h, which waits for the lock, does nothing. */
    method OfferRound(h: Goroutine) returns (ghost es: seq<Event>)
      requires Valid() && message.Some? && toOffer != {}
      modifies this, registered
      ensures Valid() && Leads(old(Model()), es, Model()) && SamePublish(es) && (h != Publisher ==> NoneBy(es, h))
      ensures message == old(message) && toOffer < old(toOffer)
      ensures old(registered) <= registered
      ensures forall k :: |old(registered)| <= k < |registered| ==> fresh(registered[k])
      ensures h == Closer ==> phase == old(phase) && toClose == old(toClose)
      ensures h.WriterOf? && h.i < |old(registered)| ==> registered[h.i].writer == old(registered[h.i].writer)
      ensures old(closed) ==> closed && conns <= old(conns)
    {
      var steps: nat := *;
      es := Interfere(steps, h, Publisher);
      ghost var between := Model();
      ghost var i := OfferSome();
      LeadsStep(old(Model()), es, between, IpcModel.OfferNext(i), Model());
      es := es + [IpcModel.OfferNext(i)];
    }

    /** The loop of Publish. */
    method OfferToAll(h: Goroutine) returns (ghost es: seq<Event>)
      requires Valid() && message.Some?
      modifies this, registered
      ensures Valid() && Leads(old(Model()), es, Model()) && SamePublish(es) && (h != Publisher ==> NoneBy(es, h))
      ensures message == old(message) && toOffer == {}
      ensures old(registered) <= registered
      ensures forall k :: |old(registered)| <= k < |registered| ==> fresh(registered[k])
      ensures h == Closer ==> phase == old(phase) && toClose == old(toClose)
      ensures h.WriterOf? && h.i < |old(registered)| ==> registered[h.i].writer == old(registered[h.i].writer)
      ensures old(closed) ==> closed && conns <= old(conns)
    {
      es := [];
      while toOffer != {}
        invariant Valid() && Leads(old(Model()), es, Model())
        invariant SamePublish(es) && (h != Publisher ==> NoneBy(es, h))
        invariant message == old(message)
        invariant old(registered) <= registered
        invariant forall k :: |old(registered)| <= k < |registered| ==> fresh(registered[k])
        invariant h == Closer ==> phase == old(phase) && toClose == old(toClose)
        invariant h.WriterOf? && h.i < |old(registered)| ==> registered[h.i].writer == old(registered[h.i].writer)
        invariant old(closed) ==> closed && conns <= old(conns)
        decreases toOffer
      {
        ghost var between := Model();
        ghost var more := OfferRound(h);
        LeadsAppend(old(Model()), es, between, more, Model());
        es := es + more;
      }
    }

    /** The loop of Publish, and the release of the lock. */
    method FanOutAndEnd(msg: Bytes, ghost m: Server) returns (ghost es: seq<Event>)
      requires Valid() && message.Some? && m.publisher.Resting? && Model() == IpcModel.StartFanOut(m, msg)
      modifies this, registered
      ensures Valid() && message.None? && Leads(old(Model()), es, Model())
      ensures (forall k :: 0 <= k < |es| ==> !es[k].BeginPublish?) && Published(m, msg, Model())
      ensures old(registered) <= registered
      ensures forall k :: |old(registered)| <= k < |registered| ==> fresh(registered[k])
    {
      ghost var begun := Model();
      es := OfferToAll(Publisher);
      ghost var offered := Model();
      PositionsEmpty(registered, toOffer);
      PublishedOnce(m, msg, es, offered);
      EndPublish();
      LeadsOn(begun, es, offered, IpcModel.EndPublish);
      es := es + [IpcModel.EndPublish];
    }

    /** Publish, with the other goroutines at work before each of its rounds, and whatever the order of the map: each
        connection that was active is offered the message once, and no other connection is offered anything. */
    method Publish(msg: Bytes) returns (ghost es: seq<Event>)
      requires Valid() && message.None?
      modifies this, registered
      ensures Valid() && message.None?
      ensures Leads(old(Model()), es, Model()) && IsPublish(es, msg)
      ensures Published(old(Model()), msg, Model())
      ensures old(registered) <= registered
      ensures forall k :: |old(registered)| <= k < |registered| ==> fresh(registered[k])
    {
      ghost var m := Model();
      PositionsEmpty(registered, conns);
      BeginPublish(msg);
      LeadsOn(m, [], m, IpcModel.BeginPublish(msg));
      es := [] + [IpcModel.BeginPublish(msg)];
      if message.Some? {
        ghost var begun := Model();
        ghost var rest := FanOutAndEnd(msg, m);
        LeadsAppend(m, es, begun, rest, Model());
        es := es + rest;
      }
    }

    /** h acquires the write lock: a fan-out in progress ends first, since none of its rounds can block. */
    method AwaitLock(h: Goroutine) returns (ghost es: seq<Event>)
      requires Valid() && h != Publisher
      modifies this, registered
      ensures Valid() && message.None? && Leads(old(Model()), es, Model()) && NoneBy(es, h)
      ensures Model().active == old(Model()).active && |old(Model()).conns| <= |Model().conns|
      ensures old(registered) <= registered
      ensures forall k :: |old(registered)| <= k < |registered| ==> fresh(registered[k])
      ensures h == Closer ==> phase == old(phase) && toClose == old(toClose)
      ensures h.WriterOf? && h.i < |old(registered)| ==> registered[h.i].writer == old(registered[h.i].writer)
      ensures old(closed) ==> closed && conns <= old(conns)
    {
      es := [];
      if message.Some? {
        ghost var m := Model();
        es := OfferToAll(h);
        ghost var offered := Model();
        FanOutProgress(m, es);
        LeadsIsRun(m, es, offered);
        EndPublish();
        LeadsOn(m, es, offered, IpcModel.EndPublish);
        es := es + [IpcModel.EndPublish];
      }
    }

    // ---------- Close ----------

    /** One round of the loop of Close, and what others do before it. */
    method CloseRound() returns (ghost es: seq<Event>)
      requires Valid() && phase == Disconnecting && closed && toClose != {}
      modifies this, registered
      ensures Valid() && Leads(old(Model()), es, Model()) && CloseReturns !in es
      ensures phase == Disconnecting && toClose < old(toClose)
      ensures closed && conns <= old(conns)
      ensures old(registered) <= registered
      ensures forall k :: |old(registered)| <= k < |registered| ==> fresh(registered[k])
    {
      var steps: nat := *;
      es := Interfere(steps, Closer, Closer);
      ghost var between := Model();
      var c :| c in toClose;
      ghost var i := PositionIn(registered, c);
      CloseNext(c, i);
      LeadsOn(old(Model()), es, between, IpcModel.CloseNext(i));
      es := es + [IpcModel.CloseNext(i)];
    }

    /** The loop of Close. */
    method DisconnectAll() returns (ghost es: seq<Event>)
      requires Valid() && phase == Disconnecting && closed
      modifies this, registered
      ensures Valid() && Leads(old(Model()), es, Model()) && CloseReturns !in es
      ensures phase == Disconnecting && toClose == {}
      ensures closed && conns <= old(conns)
      ensures old(registered) <= registered
      ensures forall k :: |old(registered)| <= k < |registered| ==> fresh(registered[k])
    {
      es := [];
      while toClose != {}
        invariant Valid() && Leads(old(Model()), es, Model()) && CloseReturns !in es
        invariant phase == Disconnecting && closed && conns <= old(conns)
        invariant old(registered) <= registered
        invariant forall k :: |old(registered)| <= k < |registered| ==> fresh(registered[k])
        decreases toClose
      {
        ghost var between := Model();
        ghost var more := CloseRound();
        LeadsAppend(old(Model()), es, between, more, Model());
        es := es + more;
      }
    }

    /** Close, with the other goroutines at work before each of its rounds: when it returns, every connection that was
        active is closed and none is left in the map. A second call finds closeOnce used and does nothing. */
    method Close() returns (ghost es: seq<Event>)
      requires Valid() && phase != Disconnecting
      modifies this, registered
      ensures Valid() && phase == CloseReturned && Leads(old(Model()), es, Model())
      ensures old(phase) == CloseReturned ==> Model() == old(Model())
      ensures old(phase) == NotClosed ==>
                && closed && conns == {}
                && forall i :: i in old(Model()).active ==> i < |Model().conns| && Model().conns[i].closed
      ensures old(registered) <= registered
      ensures forall k :: |old(registered)| <= k < |registered| ==> fresh(registered[k])
    {
      es := [];
      if phase == CloseReturned {
        return;
      }
      ghost var m := Model();
      es := AwaitLock(Closer);
      ghost var locked := Model();
      CloseSwap();
      ghost var swapped := Model();
      LeadsOn(m, es, locked, IpcModel.CloseSwap);
      es := es + [IpcModel.CloseSwap];
      ghost var closes := DisconnectAll();
      ghost var all := Model();
      LeadsAppend(m, es, swapped, closes, all);
      es := es + closes;
      CloseProgress(swapped, closes);
      LeadsIsRun(swapped, closes, all);
      PositionsEmpty(registered, toClose);
      MarkReturned();
      LeadsOn(m, es, all, CloseReturns);
      es := es + [CloseReturns];
    }

    // ---------- writeLoop ----------

    /** The next event of another goroutine, or the peer. */
    method OtherActs(c: IpcConn, i: nat, env: Env) returns (rest: Env, ghost es: seq<Event>)
      requires Valid() && i < |registered| && registered[i] == c && Foreign(env.outside, i) && env.outside != []
      modifies this, registered
      ensures Valid() && Plays(old(Model()), env, i, es, Model(), rest) && Foreign(rest.outside, i)
      ensures rest == env.(outside := env.outside[1..]) && c.writer == old(c.writer)
      ensures (old(c.closed) ==> c.closed) && rest.hungup == env.hungup
      ensures old(registered) <= registered
      ensures forall k :: |old(registered)| <= k < |registered| ==> fresh(registered[k])
    {
      var e := env.outside[0];
      Perform(e, i);
      rest := env.(outside := env.outside[1..]);
      PlaysNothing(old(Model()), env, i);
      PlaysOn(old(Model()), env, i, [], old(Model()), env, e);
      es := [] + [e];
      assert Step(old(Model()), e) == Model();
      assert old(Model()).conns[i] == old(c.Model()) && Model().conns[i] == c.Model();
      if old(c.closed) {
        IpcTheorems.ClosedStep(old(Model()), e, i);
      }
    }

    /** Some of what the others are going to do. */
    method OthersAct(steps: nat, c: IpcConn, i: nat, env: Env) returns (rest: Env, ghost es: seq<Event>)
      requires Valid() && i < |registered| && registered[i] == c && Foreign(env.outside, i)
      modifies this, registered
      ensures Valid() && Plays(old(Model()), env, i, es, Model(), rest) && Foreign(rest.outside, i)
      ensures rest == env.(outside := rest.outside) && |rest.outside| <= |env.outside| && c.writer == old(c.writer)
      ensures (old(c.closed) ==> c.closed) && rest.hungup == env.hungup
      ensures old(registered) <= registered
      ensures forall k :: |old(registered)| <= k < |registered| ==> fresh(registered[k])
      decreases steps
    {
      rest, es := env, [];
      PlaysNothing(old(Model()), env, i);
      if steps > 0 && env.outside != [] {
        rest, es := OtherActs(c, i, env);
        ghost var between, midway := Model(), rest;
        ghost var more;
        rest, more := OthersAct(steps - 1, c, i, rest);
        PlaysAppend(old(Model()), env, i, es, between, midway, more, Model(), rest);
        es := es + more;
      }
    }

    /** A step of writeLoop itself. */
    method OwnStep(c: IpcConn, i: nat, env: Env, e: ConnEvent) returns (rest: Env)
      requires Valid() && i < |registered| && registered[i] == c && !e.Offer? && !e.Deregister? && !e.CloseOnce?
      requires MayPlay(Model(), env, i, At(i, e))
      modifies c
      ensures Valid() && Plays(old(Model()), env, i, [] + [At(i, e)], Model(), rest)
      ensures rest == Remaining(env, i, At(i, e))
      ensures ConnEnabled(old(c.Model()), e) && c.Model() == ConnStep(old(c.Model()), e)
    {
      PlaysNothing(old(Model()), env, i);
      PlaysOn(old(Model()), env, i, [], old(Model()), env, At(i, e));
      assert Model().conns[i] == c.Model();
      Act(c, i, e);
      rest := Remaining(env, i, At(i, e));
    }

    /** conn.Write is under way: others act, then the socket takes some bytes or fails. */
    method WritePiece(c: IpcConn, i: nat, env: Env) returns (rest: Env, ghost es: seq<Event>)
      requires Valid() && i < |registered| && registered[i] == c && Foreign(env.outside, i) && c.writer.Writing?
      requires c.writer.sent <= |c.writer.frame|
      modifies this, registered
      ensures Valid() && Plays(old(Model()), env, i, es, Model(), rest) && Foreign(rest.outside, i)
      ensures |rest.outside| <= |env.outside| && |rest.socket| <= |env.socket|
      ensures (old(c.closed) ==> c.closed) && rest.hungup == env.hungup
      ensures c.writer == Leaving || |rest.socket| < |env.socket|
      ensures c.writer == Idle || c.writer == Leaving || (c.writer.Writing? && c.writer.sent <= |c.writer.frame|)
      ensures old(registered) <= registered
      ensures forall k :: |old(registered)| <= k < |registered| ==> fresh(registered[k])
    {
      var steps: nat := *;
      rest, es := OthersAct(steps, c, i, env);
      ghost var between, midway := Model(), rest;
      var e := SendFails;
      if rest.socket != [] && rest.socket[0].Takes? {
        e := Sent(Min(rest.socket[0].n, |c.writer.frame| - c.writer.sent));
      }
      assert Model().conns[i] == c.Model();
      rest := OwnStep(c, i, rest, e);
      PlaysAppend(old(Model()), env, i, es, between, midway, [] + [At(i, e)], Model(), rest);
      es := es + ([] + [At(i, e)]);
    }

    /** conn.Write, which returns once the frame is out or the socket has failed. */
    method WriteFrame(c: IpcConn, i: nat, env: Env) returns (rest: Env, ghost es: seq<Event>)
      requires Valid() && i < |registered| && registered[i] == c && Foreign(env.outside, i) && c.writer.Writing?
      requires c.writer.sent <= |c.writer.frame|
      modifies this, registered
      ensures Valid() && Plays(old(Model()), env, i, es, Model(), rest) && Foreign(rest.outside, i)
      ensures |rest.outside| <= |env.outside|
      ensures (old(c.closed) ==> c.closed) && rest.hungup == env.hungup
      ensures c.writer == Leaving || (c.writer == Idle && |rest.socket| < |env.socket|)
      ensures old(registered) <= registered
      ensures forall k :: |old(registered)| <= k < |registered| ==> fresh(registered[k])
    {
      rest, es := env, [];
      PlaysNothing(old(Model()), env, i);
      while c.writer.Writing?
        invariant Valid() && Plays(old(Model()), env, i, es, Model(), rest) && Foreign(rest.outside, i)
        invariant |rest.outside| <= |env.outside| && |rest.socket| <= |env.socket|
        invariant (old(c.closed) ==> c.closed) && rest.hungup == env.hungup
        invariant c.writer == Idle ==> |rest.socket| < |env.socket|
        invariant c.writer == Idle || c.writer == Leaving
                  || (c.writer.Writing? && c.writer.sent <= |c.writer.frame|)
        invariant old(registered) <= registered
        invariant forall k :: |old(registered)| <= k < |registered| ==> fresh(registered[k])
        decreases c.writer != Leaving, |rest.socket|
      {
        ghost var between, midway := Model(), rest;
        ghost var more;
        rest, more := WritePiece(c, i, rest);
        PlaysAppend(old(Model()), env, i, es, between, midway, more, Model(), rest);
        es := es + more;
      }
    }

    /** case frame := <-c.send, and conn.Write. */
    method Serve(c: IpcConn, i: nat, env: Env) returns (rest: Env, ghost es: seq<Event>)
      requires Valid() && i < |registered| && registered[i] == c && Foreign(env.outside, i)
      requires c.writer.Idle? && c.send != []
      modifies this, registered
      ensures Valid() && Plays(old(Model()), env, i, es, Model(), rest) && Foreign(rest.outside, i)
      ensures |rest.outside| <= |env.outside|
      ensures (old(c.closed) ==> c.closed) && rest.hungup == env.hungup
      ensures c.writer == Leaving || (c.writer == Idle && |rest.socket| < |env.socket|)
      ensures old(registered) <= registered
      ensures forall k :: |old(registered)| <= k < |registered| ==> fresh(registered[k])
    {
      assert Model().conns[i] == c.Model();
      rest := OwnStep(c, i, env, Take);
      ghost var taken, midway := Model(), rest;
      rest, es := WriteFrame(c, i, rest);
      PlaysAppend(old(Model()), env, i, [] + [At(i, Take)], taken, midway, es, Model(), rest);
      es := [] + [At(i, Take)] + es;
    }

    /** readLoop has seen the peer go; a connection that is closed already stays as it is. */
    method PeerGone(c: IpcConn, i: nat)
      requires Valid() && i < |registered| && registered[i] == c
      modifies c
      ensures Valid() && Model() == Step(old(Model()), At(i, CloseOnce))
      ensures c.closed && c.writer == old(c.writer)
    {
      Act(c, i, CloseOnce);
    }

    /** Neither case of the select is ready: others act, or if there is nothing more to come, the peer goes. */
    method Wait(c: IpcConn, i: nat, env: Env) returns (rest: Env, ghost es: seq<Event>)
      requires Valid() && i < |registered| && registered[i] == c && Foreign(env.outside, i) && c.writer.Idle?
      requires c.send == [] && !c.closed && !env.hungup
      modifies this, registered
      ensures Valid() && Plays(old(Model()), env, i, es, Model(), rest) && Foreign(rest.outside, i)
      ensures c.writer == Idle && rest.socket == env.socket
      ensures |rest.outside| < |env.outside| || (rest.outside == env.outside && rest.hungup && c.closed)
      ensures |rest.outside| < |env.outside| ==> !rest.hungup
      ensures old(registered) <= registered
      ensures forall k :: |old(registered)| <= k < |registered| ==> fresh(registered[k])
    {
      if env.outside != [] {
        rest, es := OtherActs(c, i, env);
      } else {
        assert Model().conns[i] == c.Model();
        PlaysNothing(old(Model()), env, i);
        PlaysOn(old(Model()), env, i, [], old(Model()), env, At(i, CloseOnce));
        PeerGone(c, i);
        rest := env.(hungup := true);
        es := [] + [At(i, CloseOnce)];
      }
    }

    /** One round of writeLoop. When both cases of its select are ready it takes either. */
    method SelectOnce(c: IpcConn, i: nat, env: Env) returns (rest: Env, ghost es: seq<Event>)
      requires Valid() && i < |registered| && registered[i] == c && Foreign(env.outside, i) && c.writer.Idle?
      requires env.hungup ==> c.closed
      modifies this, registered
      ensures Valid() && Plays(old(Model()), env, i, es, Model(), rest) && Foreign(rest.outside, i)
      ensures c.writer == Idle || c.writer == Leaving
      ensures c.writer == Idle ==>
                || |rest.outside| + |rest.socket| < |env.outside| + |env.socket|
                || (|rest.outside| + |rest.socket| == |env.outside| + |env.socket| && rest.hungup && !env.hungup)
      ensures rest.hungup ==> c.closed
      ensures old(registered) <= registered
      ensures forall k :: |old(registered)| <= k < |registered| ==> fresh(registered[k])
    {
      var steps: nat, preferDone: bool := *, *;
      rest, es := OthersAct(steps, c, i, env);
      ghost var between, midway := Model(), rest;
      ghost var more;
      assert Model().conns[i] == c.Model();
      if c.send != [] && !(c.closed && preferDone) {
        rest, more := Serve(c, i, rest);
      } else if c.closed {
        rest := OwnStep(c, i, rest, SeeDone);
        more := [] + [At(i, SeeDone)];
      } else {
        rest, more := Wait(c, i, rest);
      }
      PlaysAppend(old(Model()), env, i, es, between, midway, more, Model(), rest);
      es := es + more;
    }

    /** The first deferred call of writeLoop. */
    method DeferredClose(c: IpcConn, i: nat) returns (ghost es: seq<Event>)
      requires Valid() && i < |registered| && registered[i] == c && c.writer.Leaving?
      modifies this, registered
      ensures Valid() && Leads(old(Model()), es, Model()) && c.writer.Shut?
      ensures old(registered) <= registered
      ensures forall k :: |old(registered)| <= k < |registered| ==> fresh(registered[k])
    {
      var steps: nat := *;
      es := Interfere(steps, WriterOf(i), WriterOf(i));
      ghost var between := Model();
      Act(c, i, WriterCloses);
      LeadsOn(old(Model()), es, between, At(i, WriterCloses));
      es := es + [At(i, WriterCloses)];
    }

    /** The deferred function of writeLoop: close, then removeConn once the lock is free. */
    method Leave(c: IpcConn, i: nat) returns (ghost es: seq<Event>)
      requires Valid() && i < |registered| && registered[i] == c && c.writer.Leaving?
      modifies this, registered
      ensures Valid() && Leads(old(Model()), es, Model()) && c.writer.Gone? && c !in conns
      ensures es != [] && Last(es) == At(i, Deregister)
      ensures old(registered) <= registered
      ensures forall k :: |old(registered)| <= k < |registered| ==> fresh(registered[k])
    {
      es := DeferredClose(c, i);
      ghost var shut := Model();
      var steps: nat := *;
      ghost var more := Interfere(steps, WriterOf(i), WriterOf(i));
      LeadsAppend(old(Model()), es, shut, more, Model());
      es := es + more;
      ghost var waiting := Model();
      more := AwaitLock(WriterOf(i));
      LeadsAppend(old(Model()), es, waiting, more, Model());
      es := es + more;
      ghost var locked := Model();
      RemoveConn(c, i);
      LeadsOn(old(Model()), es, locked, At(i, Deregister));
      es := es + [At(i, Deregister)];
    }

    /** writeLoop from its start to its end, under every script of what the other goroutines, the peer and the socket
        do. Its loop plays exactly that script, and nothing but its own steps and, once it has nothing to send and the
        others have nothing more to do, the peer going; then it runs its deferred function, with others at work, and
        the connection is out of the map. */
    method WriteLoop(c: IpcConn, i: nat, outside: seq<Event>, socket: seq<Outcome>)
      returns (ghost loop: seq<Event>, ghost t: Server, ghost rest: Env, ghost last: seq<Event>)
      requires Valid() && i < |registered| && registered[i] == c && c.writer.Idle? && Foreign(outside, i)
      modifies this, registered
      ensures Valid() && Plays(old(Model()), Env(outside, socket, false, false), i, loop, t, rest)
      ensures i < |t.conns| && t.conns[i].writer.Leaving?
      ensures Leads(t, last, Model()) && last != [] && Last(last) == At(i, Deregister)
      ensures c.writer.Gone? && c !in conns
      ensures old(registered) <= registered
      ensures forall k :: |old(registered)| <= k < |registered| ==> fresh(registered[k])
    {
      var env := Env(outside, socket, false, false);
      loop := [];
      PlaysNothing(old(Model()), env, i);
      while c.writer.Idle?
        invariant Valid() && Plays(old(Model()), Env(outside, socket, false, false), i, loop, Model(), env)
        invariant Foreign(env.outside, i) && (c.writer == Idle || c.writer == Leaving)
        invariant env.hungup ==> c.closed
        invariant old(registered) <= registered
        invariant forall k :: |old(registered)| <= k < |registered| ==> fresh(registered[k])
        decreases c.writer.Idle?, |env.outside| + |env.socket|, !env.hungup
      {
        ghost var between, midway := Model(), env;
        ghost var more;
        env, more := SelectOnce(c, i, env);
        PlaysAppend(old(Model()), Env(outside, socket, false, false), i, loop, between, midway, more, Model(), env);
        loop := loop + more;
      }
      t, rest := Model(), env;
      assert t.conns[i] == c.Model();
      last := Leave(c, i);
    }
  }
}
