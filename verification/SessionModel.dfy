/** The reconnect loop of src/wsclient.go as a state machine: one event per atomic action of connectLoop and readPump,
    of Disconnect, of the main loop that empties MidiChan and of the auth watchdog timers. */
module SessionModel {
  import opened Sequences
  import opened Frames
  import opened MidiGrammar

  const MIDI_CHAN_SIZE := 256

  datatype Config = Config(enabled: bool, maxAttempts: int)

  /** session is history: the number of the connection the event came in on. */
  datatype MidiEvent = MidiEvent(data: seq<byte>, deltaSec: real, session: nat)

  /** A decoded server message; Other is unparseable, unknown, a pong, or a midi message whose payload does not
      parse. */
  datatype ServerMsg = AuthOk | AuthFail | Kicked | Midi(data: seq<byte>, deltaSec: real) | Other

  /** Where the goroutine of connectLoop is; PumpTop and Reading are inside readPump. */
  datatype Pc =
    | AtTop | Checked
    | Dialing | Dialed | Installed | Armed
    | PumpTop | Reading | PumpDone(failed: bool)
    | Draining(failed: bool)
    | Backoff | Waiting
    | Finished

  /** conn and watchdog are fields of the source; armed are the running watchdog timers and shut the connections this
      client has closed. sessions counts the dialed connections, which are numbered in that order; settled are those on
      which an authentication result was handled and fired those a watchdog has closed. */
  datatype Link = Link(
    conn: Option<nat>,
    watchdog: Option<nat>,
    armed: set<nat>,
    shut: set<nat>,
    sessions: nat,
    settled: set<nat>,
    fired: set<nat>)

  /** MidiChan, and the fate of the valid midi messages handled so far. */
  datatype Queue = Queue(
    chan: seq<MidiEvent>,
    handled: seq<MidiEvent>,
    received: seq<MidiEvent>,
    drained: nat,
    overflowed: nat)

  /** What has happened so far. */
  datatype Tally = Tally(attempts: nat, steps: nat, messages: nat, authOks: nat, authFailed: bool)

  datatype Client = Client(
    cfg: Config,
    pc: Pc,
    reconnectCount: nat,
    stopped: bool,
    link: Link,
    queue: Queue,
    tally: Tally)

  datatype Event =
    | CheckStop                 // the select at the top of connectLoop
    | CheckCount                // MaxAttempts
    | DialFails                 // buildDialer or Dial returns an error
    | DialSucceeds
    | Install                   // w.conn = conn
    | Arm                       // armAuthWatchdog
    | WriteAuth(ok: bool)
    | PumpCheck                 // the select at the top of readPump
    | ReadFails
    | Message(m: ServerMsg)     // ReadMessage, then handleMessage
    | PumpExit                  // readDone received, closeConn
    | DrainOne
    | DrainDone                 // drainMidiChan finds the channel empty
    | StartWait                 // reconnectWait up to its select
    | Wake                      // the select of reconnectWait, then isStopped
    | Disconnects               // Disconnect
    | Receive                   // the main loop takes an event
    | Fire(c: nat)              // a watchdog timer closes its connection

  predicate OfLoop(e: Event) {
    !e.Disconnects? && !e.Receive? && !e.Fire?
  }

  function Init(cfg: Config): Client {
    Client(cfg, AtTop, 0, false, Link(None, None, {}, {}, 0, {}, {}), Queue([], [], [], 0, 0), Tally(0, 0, 0, 0, false))
  }

  predicate Enabled(s: Client, e: Event) {
    match e
    case CheckStop => s.pc.AtTop?
    case CheckCount => s.pc.Checked?
    case DialFails => s.pc.Dialing?
    case DialSucceeds => s.pc.Dialing?
    case Install => s.pc.Dialed? && s.link.sessions > 0
    case Arm => s.pc.Installed? && s.link.sessions > 0
    case WriteAuth(_) => s.pc.Armed?
    case PumpCheck => s.pc.PumpTop?
    case ReadFails => s.pc.Reading?
    case Message(_) => s.pc.Reading? && s.link.sessions > 0
    case PumpExit => s.pc.PumpDone?
    case DrainOne => s.pc.Draining? && s.queue.chan != []
    case DrainDone => s.pc.Draining? && s.queue.chan == []
    case StartWait => s.pc.Backoff?
    case Wake => s.pc.Waiting?
    case Disconnects => true
    case Receive => s.queue.chan != []
    case Fire(c) => c in s.link.armed
  }

  // ---------- what happens to the connection ----------

  function Current(l: Link): nat
    requires l.sessions > 0
  {
    l.sessions - 1
  }

  /** closeConn */
  function CloseConn(l: Link): Link {
    if l.conn.None? then l else l.(shut := l.shut + {l.conn.value}, conn := None)
  }

  /** The part of Disconnect after stopChan is closed: the field keeps its value. */
  function ShutConn(l: Link): Link {
    if l.conn.None? then l else l.(shut := l.shut + {l.conn.value})
  }

  /** armAuthWatchdog: the field forgets an earlier timer without stopping it. */
  function ArmWatchdog(l: Link): Link
    requires l.sessions > 0
  {
    l.(armed := l.armed + {Current(l)}, watchdog := Some(Current(l)))
  }

  /** stopAuthWatchdog, on an authentication result for the current connection. */
  function StopWatchdog(l: Link): Link
    requires l.sessions > 0
  {
    var l' := if l.watchdog.None? then l else l.(armed := l.armed - {l.watchdog.value}, watchdog := None);
    l'.(settled := l'.settled + {Current(l)})
  }

  function FireWatchdog(l: Link, c: nat): Link {
    l.(armed := l.armed - {c}, shut := l.shut + {c}, fired := l.fired + {c})
  }

  // ---------- what happens to the channel ----------

  /** A midi message: discarded when invalid, else queued, or lost when the channel is full. */
  function Enqueue(q: Queue, data: seq<byte>, deltaSec: real, session: nat): Queue {
    if !IsMidi(data) then q
    else
      var ev := MidiEvent(data, deltaSec, session);
      var q' := q.(handled := q.handled + [ev]);
      if |q.chan| < MIDI_CHAN_SIZE then q'.(chan := q.chan + [ev]) else q'.(overflowed := q.overflowed + 1)
  }

  function TakeOne(q: Queue): Queue
    requires q.chan != []
  {
    q.(chan := q.chan[1..], received := q.received + [q.chan[0]])
  }

  function DiscardOne(q: Queue): Queue
    requires q.chan != []
  {
    q.(chan := q.chan[1..], drained := q.drained + 1)
  }

  // ---------- steps ----------

  /** After a failed attempt or a finished session. */
  function Retry(cfg: Config): Pc {
    if cfg.enabled then Backoff else Finished
  }

  /** handleMessage */
  function Handle(s: Client, m: ServerMsg): Client
    requires s.link.sessions > 0
  {
    match m
    case AuthOk => s.(link := StopWatchdog(s.link), reconnectCount := 0, pc := PumpTop,
                      tally := s.tally.(authOks := s.tally.authOks + 1))
    case AuthFail => s.(link := StopWatchdog(s.link), pc := PumpDone(true), tally := s.tally.(authFailed := true))
    case Kicked => s.(link := StopWatchdog(s.link), pc := PumpDone(false))
    case Midi(data, deltaSec) => s.(queue := Enqueue(s.queue, data, deltaSec, Current(s.link)), pc := PumpTop)
    case Other => s.(pc := PumpTop)
  }

  function Act(s: Client, e: Event): Client
    requires Enabled(s, e)
  {
    match e
    case CheckStop => s.(pc := if s.stopped then Finished else Checked)
    case CheckCount =>
      if s.cfg.maxAttempts > 0 && s.reconnectCount >= s.cfg.maxAttempts then s.(pc := Finished)
      else s.(pc := Dialing, tally := s.tally.(attempts := s.tally.attempts + 1))
    case DialFails => s.(pc := Retry(s.cfg))
    case DialSucceeds => s.(pc := Dialed, link := s.link.(sessions := s.link.sessions + 1))
    case Install => s.(pc := Installed, link := s.link.(conn := Some(Current(s.link))))
    case Arm => s.(pc := Armed, link := ArmWatchdog(s.link))
    case WriteAuth(ok) => if ok then s.(pc := PumpTop) else s.(pc := Retry(s.cfg), link := CloseConn(s.link))
    case PumpCheck => s.(pc := if s.stopped then PumpDone(false) else Reading)
    case ReadFails => s.(pc := PumpDone(false))
    case Message(m) => var s' := Handle(s, m); s'.(tally := s'.tally.(messages := s'.tally.messages + 1))
    case PumpExit => s.(pc := Draining(s.pc.failed), link := CloseConn(s.link))
    case DrainOne => s.(queue := DiscardOne(s.queue))
    case DrainDone => s.(pc := if s.pc.failed then Finished else Retry(s.cfg))
    case StartWait => s.(pc := Waiting, reconnectCount := s.reconnectCount + 1)
    case Wake => s.(pc := if s.stopped then Finished else AtTop)
    case Disconnects => s.(stopped := true, link := ShutConn(s.link))
    case Receive => s.(queue := TakeOne(s.queue))
    case Fire(c) => s.(link := FireWatchdog(s.link, c))
  }

  /** An event whose turn it is not changes nothing, so every sequence of events is a run. */
  function Step(s: Client, e: Event): Client {
    if !Enabled(s, e) then s
    else
      var s' := Act(s, e);
      if OfLoop(e) then s'.(tally := s'.tally.(steps := s'.tally.steps + 1)) else s'
  }

  function Run(s: Client, es: seq<Event>): Client {
    if es == [] then s else Step(Run(s, Front(es)), Last(es))
  }

  /** Running es from the start leads to s. Written with a bound variable so that a caller who only passes the fact on
      does not have Run unfolded for it. */
  ghost predicate Leads(cfg: Config, es: seq<Event>, s: Client) {
    forall fs :: fs == es ==> Run(Init(cfg), fs) == s
  }

  lemma LeadsOn(cfg: Config, es: seq<Event>, s: Client, e: Event)
    requires Leads(cfg, es, s)
    ensures Leads(cfg, es + [e], Step(s, e))
  {
    RunSnoc(Init(cfg), es, e);
  }

  lemma RunSnoc(s: Client, es: seq<Event>, e: Event)
    ensures Run(s, es + [e]) == Step(Run(s, es), e)
  {
    assert Front(es + [e]) == es;
  }
}
