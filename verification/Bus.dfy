/** The whole bus: one broker and any number of adapter processes that register, surface what
    they receive, acknowledge, drop and reconnect. */
module Bus {
  import opened Options
  import opened Envelopes
  import opened Store
  import opened Broker
  import opened Recency
  import opened Redelivery

  /** One adapter process. cache is its dedupe list. The rest is history that no step reads:
      taken lists what was surfaced, wins the ids its host has consumed, firsts the delivery keys
      of the first consumption of each id, and refused the ids its host has ever refused. */
  datatype Proc = Proc(
    name: string, token: string, max: nat, cache: seq<string>, conn: Option<nat>,
    taken: seq<Surfacing>, wins: seq<string>, firsts: seq<string>, refused: set<string>)

  /** The adapter's end of a connection: how many frames it has received, what it has sent and
      how much of that the broker has read. A lost suffix is one that is never read. */
  datatype Endpoint = Endpoint(owner: nat, rcvd: nat, up: seq<Frame>, routed: nat)

  /** check(name, env) tells whether env passes the HMAC verification of the peer `name`.
      handed collects the envelopes each peer's hosts have consumed, across process restarts. */
  datatype World = World(
    check: (string, Envelope) -> bool, broker: State, procs: map<nat, Proc>, wires: map<nat, Endpoint>,
    handed: set<(string, Envelope)>)

  datatype Move =
    | Spawn(pid: nat, name: string, token: string, max: nat)
    | Connect(pid: nat, ackOk: bool, written: nat, heard: bool)
    | Send(pid: nat, env: Envelope)
    | Receive(pid: nat, handlerOk: bool, ackOk: bool)
    | Drop(pid: nat)
    | RouteNext(conn: nat, up: set<string>)
    | BreakLink(conn: nat)
    | ServeEnds(conn: nat)
    | Deregister(conn: nat)
    | RestartBroker

  function Start(check: (string, Envelope) -> bool, tokens: set<string>): World {
    World(check, Initial(tokens), map[], map[], {})
  }

  function HelloOf(p: Proc): Hello {
    Frame(CONTROL_REGISTER, PROTOCOL_VERSION, p.token, p.name)
  }

  /** The process dials and registers; the connection is its own once it hears the broker's
      acknowledgement. */
  ghost function Connected(s: World, pid: nat, ackOk: bool, written: nat, heard: bool): World
    requires pid in s.procs
  {
    var p := s.procs[pid];
    var c := s.broker.accepted;
    var admitted := Judge(s.broker, HelloOf(p), ackOk).Admitted?;
    s.(broker := Apply(s.broker, Accept(HelloOf(p), ackOk, written)),
       wires := s.wires[c := Endpoint(pid, 0, [], 0)],
       procs := if admitted && heard then s.procs[pid := p.(conn := Some(c))] else s.procs)
  }

  /** What surfacing an envelope does to the process: a repeat is only refreshed, a refused
      message is forgotten again, a consumed one is recorded. */
  function Surfaced(p: Proc, key: string, id: string, handlerOk: bool): Proc {
    var q := p.(taken := p.taken + [Surfacing(id, handlerOk)], cache := AfterSeen(p.cache, p.max, id));
    if id in p.cache then q
    else if !handlerOk then q.(cache := AfterForget(q.cache, id), refused := p.refused + {id})
    else q.(wins := p.wins + [id], firsts := if id in p.wins then p.firsts else p.firsts + [key])
  }

  predicate Acknowledges(p: Proc, id: string, handlerOk: bool) {
    id in p.cache || handlerOk
  }

  /** The process reads the next frame of its connection: frames without a key or failing
      verification are dropped, the rest are surfaced and acknowledged once consumed. */
  function Received(s: World, pid: nat, c: nat, handlerOk: bool, ackOk: bool): World
    requires pid in s.procs && c in s.wires && c in s.broker.links
  {
    var p, w, sent := s.procs[pid], s.wires[c], s.broker.links[c].sent;
    if w.rcvd >= |sent| then s
    else
      var d := sent[w.rcvd];
      if d.key == "" || !s.check(p.name, d.envelope) then s.(wires := s.wires[c := w.(rcvd := w.rcvd + 1)])
      else
        var id := d.envelope.id;
        var acks := if Acknowledges(p, id, handlerOk) && ackOk then [AckFrame(d.key)] else [];
        s.(procs := s.procs[pid := Surfaced(p, d.key, id, handlerOk)],
           wires := s.wires[c := w.(rcvd := w.rcvd + 1, up := w.up + acks)],
           handed := if id !in p.cache && handlerOk then s.handed + {(p.name, d.envelope)} else s.handed)
  }

  ghost function Play(s: World, m: Move): World {
    match m
    case Spawn(pid, name, token, max) =>
      if pid in s.procs || max == 0 then s
      else s.(procs := s.procs[pid := Proc(name, token, max, [], None, [], [], [], {})])
    case Connect(pid, ackOk, written, heard) =>
      if pid in s.procs && s.procs[pid].conn == None then Connected(s, pid, ackOk, written, heard) else s
    case Send(pid, env) =>
      if pid in s.procs && s.procs[pid].conn.Some? && s.procs[pid].conn.value in s.wires then
        var c := s.procs[pid].conn.value;
        s.(wires := s.wires[c := s.wires[c].(up := s.wires[c].up + [EnvelopeFrame(env)])])
      else s
    case Receive(pid, handlerOk, ackOk) =>
      if pid in s.procs && s.procs[pid].conn.Some? && s.procs[pid].conn.value in s.wires
         && s.procs[pid].conn.value in s.broker.links
      then Received(s, pid, s.procs[pid].conn.value, handlerOk, ackOk) else s
    case Drop(pid) =>
      if pid in s.procs then s.(procs := s.procs[pid := s.procs[pid].(conn := None)]) else s
    case RouteNext(c, up) =>
      if c in s.wires && s.wires[c].routed < |s.wires[c].up| then
        s.(broker := Apply(s.broker, Route(c, s.wires[c].up[s.wires[c].routed], up)),
           wires := s.wires[c := s.wires[c].(routed := s.wires[c].routed + 1)])
      else s
    case BreakLink(c) => s.(broker := Apply(s.broker, Break(c)))
    case ServeEnds(c) => s.(broker := Apply(s.broker, Hangup(c)))
    case Deregister(c) => s.(broker := Apply(s.broker, Leave(c)))
    case RestartBroker => s.(broker := Apply(s.broker, Restart))
  }

  ghost function PlayAll(s: World, moves: seq<Move>): World
    decreases |moves|
  {
    if moves == [] then s else PlayAll(Play(s, moves[0]), moves[1..])
  }
}
