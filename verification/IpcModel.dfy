/** The broadcast server of src/ipc.go as a state machine: one event per atomic action of its goroutines. */
module IpcModel {
  import opened Sequences
  import opened Frames

  const MAX_CONNECTIONS := 8
  const SEND_QUEUE_SIZE := 2048
  const DROP_LOG_INTERVAL := 500
  const UINT64 := 0x1_0000_0000_0000_0000

  type Bytes = seq<byte>

  // ---------- one connection ----------

  /** Where writeLoop is. Leaving is the start of its deferred function, Shut the point between close and removeConn. */
  datatype Writer = Idle | Writing(frame: Bytes, sent: nat) | Leaving | Shut | Gone

  /** send, closed (closeOnce has run) and doneCloses (how often close(done) ran) are the fields of the source; the
      rest is history: bytes on the socket, frames taken from the queue, messages offered by Publish and what became of
      them. */
  datatype Conn = Conn(
    send: seq<Bytes>,
    closed: bool,
    doneCloses: nat,
    writer: Writer,
    wire: Bytes,
    taken: seq<Bytes>,
    offered: seq<Bytes>,
    accepted: seq<Bytes>,
    drops: nat)

  datatype ConnEvent =
    | Offer(msg: Bytes)   // Publish reaches this consumer
    | Take                // writeLoop receives a frame
    | Sent(n: nat)        // the socket takes n more bytes of the current frame
    | SendFails           // conn.Write returns an error
    | SeeDone             // writeLoop receives from done
    | CloseOnce           // readLoop or Close calls close
    | WriterCloses        // the deferred close
    | Deregister          // the deferred removeConn

  function Registered(hello: Bytes): Conn {
    Conn([hello], false, 0, Idle, [], [], [], [], 0)
  }

  function MidiFrame(msg: Bytes): Bytes
    requires Fits(msg)
  {
    Encode(Frame(KIND_MIDI, msg))
  }

  predicate ConnEnabled(c: Conn, e: ConnEvent) {
    match e
    case Offer(msg) => Fits(msg)
    case Take => c.writer.Idle? && c.send != []
    case Sent(n) => c.writer.Writing? && c.writer.sent + n <= |c.writer.frame|
    case SendFails => c.writer.Writing?
    case SeeDone => c.writer.Idle? && c.closed
    case CloseOnce => true
    case WriterCloses => c.writer.Leaving?
    case Deregister => c.writer.Shut?
  }

  /** sync.Once around close(done) and conn.Close. */
  function Close(c: Conn): Conn {
    if c.closed then c else c.(closed := true, doneCloses := c.doneCloses + 1)
  }

  /** The select of Publish: queue the frame, or count a drop when the queue is full. */
  function OfferTo(c: Conn, msg: Bytes): Conn
    requires Fits(msg)
  {
    var c' := c.(offered := c.offered + [msg]);
    if |c.send| < SEND_QUEUE_SIZE
    then c'.(send := c.send + [MidiFrame(msg)], accepted := c.accepted + [msg])
    else c'.(drops := c.drops + 1)
  }

  function Transmit(c: Conn, n: nat): Conn
    requires c.writer.Writing? && c.writer.sent + n <= |c.writer.frame|
  {
    var sent := c.writer.sent + n;
    c.(wire := c.wire + c.writer.frame[c.writer.sent..sent],
       writer := if sent == |c.writer.frame| then Idle else c.writer.(sent := sent))
  }

  function ConnStep(c: Conn, e: ConnEvent): Conn
    requires ConnEnabled(c, e)
  {
    match e
    case Offer(msg) => OfferTo(c, msg)
    case Take => c.(send := c.send[1..], taken := c.taken + [c.send[0]], writer := Writing(c.send[0], 0))
    case Sent(n) => Transmit(c, n)
    case SendFails => c.(writer := Leaving)
    case SeeDone => c.(writer := Leaving)
    case CloseOnce => Close(c)
    case WriterCloses => Close(c).(writer := Shut)
    case Deregister => c.(writer := Gone)
  }

  // ---------- the server ----------

  /** The one goroutine that publishes: the message being fanned out and the consumers not reached yet. */
  datatype Publisher = Resting | FanOut(msg: Bytes, todo: set<nat>)

  /** The Close call: not made yet, closing the connections it swapped out, returned. */
  datatype Closer = Running | Closing(todo: set<nat>) | Returned

  /** conns holds every connection ever registered, in order; active is the map of the source, as positions in conns.
      published, joined and left (how many messages had been published when a connection entered the map and when it
      left it), drops and warnings are history. */
  datatype Server = Server(
    hello: Bytes,
    conns: seq<Conn>,
    active: set<nat>,
    closed: bool,
    dropped: nat,
    publisher: Publisher,
    closer: Closer,
    published: seq<Bytes>,
    joined: seq<nat>,
    left: map<nat, nat>,
    drops: nat,
    warnings: nat)

  datatype Event =
    | AddConn
    | BeginPublish(msg: Bytes)
    | OfferNext(i: nat)
    | EndPublish
    | At(i: nat, e: ConnEvent)   // a step of connection i's own goroutines, or of its peer
    | CloseSwap
    | CloseNext(i: nat)
    | CloseReturns

  function Init(hello: Bytes): Server {
    Server(hello, [], {}, false, 0, Resting, Running, [], [], map[], 0, 0)
  }

  /** Publish holds the read lock while it fans out, so nothing that takes the write lock can happen meanwhile. */
  predicate Enabled(s: Server, e: Event) {
    match e
    case AddConn => s.publisher.Resting?
    case BeginPublish(_) => s.publisher.Resting?
    case OfferNext(i) => s.publisher.FanOut? && i in s.publisher.todo && i < |s.conns| && Fits(s.publisher.msg)
    case EndPublish => s.publisher.FanOut? && s.publisher.todo == {}
    case At(i, ce) => i < |s.conns| && !ce.Offer? && ConnEnabled(s.conns[i], ce)
                      && (ce.Deregister? ==> s.publisher.Resting?)
    case CloseSwap => s.closer.Running? && s.publisher.Resting?
    case CloseNext(i) => s.closer.Closing? && i in s.closer.todo && i < |s.conns|
    case CloseReturns => s.closer.Closing? && s.closer.todo == {}
  }

  function Update(s: Server, i: nat, e: ConnEvent): Server
    requires i < |s.conns| && ConnEnabled(s.conns[i], e)
  {
    s.(conns := s.conns[i := ConnStep(s.conns[i], e)])
  }

  /** addConn; a refused connection leaves no trace. */
  function Register(s: Server): Server {
    if s.closed || |s.active| >= MAX_CONNECTIONS then s
    else s.(conns := s.conns + [Registered(s.hello)],
            active := s.active + {|s.conns|},
            joined := s.joined + [|s.published|])
  }

  /** removeConn; a connection may already have been swapped out by Close. */
  function Remove(s: Server, i: nat): Server {
    if i in s.active then s.(active := s.active - {i}, left := s.left[i := |s.published|]) else s
  }

  /** Close under the lock. */
  function SwapOut(s: Server): Server {
    s.(closed := true, closer := Closing(s.active), active := {},
       left := s.left + map i | i in s.active :: |s.published|)
  }

  /** Publish up to its loop: nothing to send, nobody to send to, or an oversized frame ends it here. */
  function StartFanOut(s: Server, msg: Bytes): Server {
    if msg == [] || s.closed || s.active == {} || !Fits(msg) then s
    else s.(publisher := FanOut(msg, s.active), published := s.published + [msg])
  }

  /** dropped.Add(1) wraps at 64 bits; the log line depends on the wrapped value. */
  function CountDrop(s: Server): Server {
    var n := (s.dropped + 1) % UINT64;
    s.(dropped := n, drops := s.drops + 1,
       warnings := s.warnings + (if n % DROP_LOG_INTERVAL == 1 then 1 else 0))
  }

  function FanOutTo(s: Server, i: nat): Server
    requires Enabled(s, OfferNext(i))
  {
    var full := |s.conns[i].send| >= SEND_QUEUE_SIZE;
    var s' := Update(s, i, Offer(s.publisher.msg)).(publisher := s.publisher.(todo := s.publisher.todo - {i}));
    if full then CountDrop(s') else s'
  }

  /** An event whose turn it is not changes nothing, so every sequence of events is a run. */
  function Step(s: Server, e: Event): Server {
    if !Enabled(s, e) then s
    else
      match e
      case AddConn => Register(s)
      case BeginPublish(msg) => StartFanOut(s, msg)
      case OfferNext(i) => FanOutTo(s, i)
      case EndPublish => s.(publisher := Resting)
      case At(i, ce) =>
        var s' := Update(s, i, ce);
        if ce.Deregister? then Remove(s', i) else s'
      case CloseSwap => SwapOut(s)
      case CloseNext(i) => Update(s, i, CloseOnce).(closer := Closing(s.closer.todo - {i}))
      case CloseReturns => s.(closer := Returned)
  }

  function Run(s: Server, es: seq<Event>): Server {
    if es == [] then s else Step(Run(s, Front(es)), Last(es))
  }

  /** Running es from s leads to t. Written with a bound variable so that a caller who only passes the fact on does not
      have Run unfolded for it. */
  ghost predicate Leads(s: Server, es: seq<Event>, t: Server) {
    forall fs :: fs == es ==> Run(s, fs) == t
  }

  lemma LeadsOn(s: Server, es: seq<Event>, t: Server, e: Event)
    requires Leads(s, es, t)
    ensures Leads(s, es + [e], Step(t, e))
  {
    RunSnoc(s, es, e);
  }

  lemma RunSnoc(s: Server, es: seq<Event>, e: Event)
    ensures Run(s, es + [e]) == Step(Run(s, es), e)
  {
    assert Front(es + [e]) == es;
  }

  lemma {:induction false} RunAppend(s: Server, a: seq<Event>, b: seq<Event>)
    ensures Run(s, a + b) == Run(Run(s, a), b)
    decreases |b|
  {
    if b == [] {
      assert a + b == a;
    } else {
      assert Front(a + b) == a + Front(b) && Last(a + b) == Last(b);
      RunAppend(s, a, Front(b));
    }
  }
}
