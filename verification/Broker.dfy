/** The broker as a state machine: handshakes, routed frames, connection loss and restarts
    acting on the durable tables, the name registry, the live connections and the audit log. */
module Broker {
  import opened Envelopes
  import opened Order
  import opened Store

  datatype Delivery = Delivery(key: string, envelope: Envelope)

  /** One peer connection. sent is every deliver frame ever written to it. settled is the
      history variable "rows of this peer that were delivered and acked at the handshake". */
  datatype Link = Link(
    name: string, sent: seq<Delivery>, closed: bool, takeover: bool,
    broken: bool, serving: bool, settled: set<string>)

  const DEAD := Link("", [], true, false, true, false, {})

  datatype Binding = Binding(conn: nat, token: string)

  datatype Event =
    | SendEvent(id: string, from: string, to: string)
    | DeliverEvent(id: string, from: string, to: string)
    | AckEvent(id: string, from: string)

  datatype State = State(
    tokens: set<string>, tables: Tables, registry: map<string, Binding>,
    links: map<nat, Link>, accepted: nat, log: seq<Event>)

  function Initial(tokens: set<string>): State {
    State(tokens, EMPTY, map[], map[], 0, [])
  }

  // ------------------------------------------------------------ handshake

  datatype Hello =
    | ReadError | NotText | BadJson
    | Frame(kind: string, version: string, token: string, name: string)

  datatype Verdict =
    | NoHandshakeFrame | HandshakeNotText | MalformedHandshake | NotRegister | UnsupportedVersion
    | EmptyPeerName | InvalidToken | NameClaimed | AckFailed | Admitted(takenOver: bool)

  const CONTROL_REGISTER := "register"

  /** The checks made before the registry is consulted. */
  function Screen(tokens: set<string>, hello: Hello): Verdict {
    match hello
    case ReadError => NoHandshakeFrame
    case NotText => HandshakeNotText
    case BadJson => MalformedHandshake
    case Frame(kind, version, token, name) =>
      if kind != CONTROL_REGISTER then NotRegister
      else if !CheckVersion(version) then UnsupportedVersion
      else if name == "" then EmptyPeerName
      else if token == "" || token !in tokens then InvalidToken
      else Admitted(false)
  }

  function Judge(b: State, hello: Hello, ackOk: bool): Verdict {
    if !Screen(b.tokens, hello).Admitted? then Screen(b.tokens, hello)
    else if hello.name in b.registry && b.registry[hello.name].token != hello.token then NameClaimed
    else if !ackOk then AckFailed
    else Admitted(hello.name in b.registry)
  }

  /** CloseTakenOver on the superseded connection. */
  function Displaced(l: Link): Link {
    if l.closed then l else l.(closed := true, takeover := true, broken := true)
  }

  function SettledFor(t: Tables, name: string): set<string> {
    set k | k in t.messages && t.messages[k].to == name && Settled(t.messages[k])
  }

  /** The state once the name is bound and its queue requeued, before anything is written. */
  function Welcomed(b: State, name: string, token: string): State {
    var c := b.accepted;
    var t := Requeued(Registered(b.tables, name), name);
    var links := if name in b.registry && b.registry[name].conn in b.links
                 then b.links[b.registry[name].conn := Displaced(b.links[b.registry[name].conn])]
                 else b.links;
    b.(tables := t,
       registry := b.registry[name := Binding(c, token)],
       links := links[c := Link(name, [], false, false, false, true, SettledFor(t, name))],
       accepted := c + 1)
  }

  /** Writes one row to connection c; only a successful write marks it and is audited. A
      failed write ends the connection for writing. */
  function Push(b: State, c: nat, to: string, key: string, ok: bool): State {
    if c !in b.links || key !in b.tables.messages then b
    else
      var l := b.links[c];
      var row := b.tables.messages[key];
      if ok && !l.broken then
        b.(links := b.links[c := l.(sent := l.sent + [Delivery(key, row.envelope)])],
           tables := MarkedDelivered(b.tables, key),
           log := b.log + [DeliverEvent(key, row.from, to)])
      else b.(links := b.links[c := l.(broken := true)])
  }

  /** The link accepts the first `written` frames of the flush and fails on the next. */
  function Flush(b: State, c: nat, to: string, keys: seq<string>, written: nat): State
    decreases |keys|
  {
    if keys == [] then b
    else if written == 0 then Push(b, c, to, keys[0], false)
    else Flush(Push(b, c, to, keys[0], true), c, to, keys[1..], written - 1)
  }

  ghost function Handshake(b: State, hello: Hello, ackOk: bool, written: nat): State {
    var verdict := Judge(b, hello, ackOk);
    var refused := b.(links := b.links[b.accepted := DEAD], accepted := b.accepted + 1);
    match verdict
    case Admitted(_) =>
      var w := Welcomed(b, hello.name, hello.token);
      Flush(w, b.accepted, hello.name, Drain(w.tables, hello.name), written)
    case NameClaimed => refused.(tables := Registered(b.tables, hello.name))
    case AckFailed =>
      var w := Welcomed(b, hello.name, hello.token);
      w.(registry := w.registry - {hello.name}, links := w.links[b.accepted := DEAD])
    case _ => refused
  }

  // ------------------------------------------------------------ routing

  datatype Frame =
    | AckFrame(id: string) | PeersFrame | RegisterFrame | DeliverFrame | Unroutable
    | EnvelopeFrame(env: Envelope)

  function DeliverTo(b: State, to: string, key: string, ok: bool): State {
    if to !in b.registry then b else Push(b, b.registry[to].conn, to, key, ok)
  }

  /** Persist one copy, audit the send, then try to deliver it. */
  function Submit(b: State, key: string, from: string, to: string, env: Envelope, ok: bool): State {
    if EnqueueOutcome(b.tables, key, from, to) != Done then b
    else
      DeliverTo(b.(tables := Enqueued(b.tables, key, from, to, env), log := b.log + [SendEvent(key, from, to)]),
                to, key, ok)
  }

  function CopyKey(id: string, name: string): string { id + "|" + name }

  function FanOut(b: State, from: string, env: Envelope, names: seq<string>, up: set<string>): State
    decreases |names|
  {
    if names == [] then b
    else
      var b' := if names[0] == from then b
                else Submit(b, CopyKey(env.id, names[0]), from, names[0], env, names[0] in up);
      FanOut(b', from, env, names[1..], up)
  }

  function HandleAck(b: State, id: string, from: string): State {
    if id == "" then b
    else b.(tables := MarkedAcked(b.tables, id), log := b.log + [AckEvent(id, from)])
  }

  ghost function RouteEnvelope(b: State, from: string, env: Envelope, up: set<string>): State {
    if (env.to == "*") != (env.kind == KIND_BROADCAST) then b
    else if env.to == "*" then FanOut(b, from, env, Sorted(StrLess, b.registry.Keys), up)
    else Submit(b, env.id, from, env.to, env, env.to in up)
  }

  /** up is the set of recipients whose link accepts a write during this frame. */
  ghost function RouteFrame(b: State, from: string, frame: Frame, up: set<string>): State {
    match frame
    case AckFrame(id) => HandleAck(b, id, from)
    case EnvelopeFrame(env) => if env.id == "" || env.to == "" then b else RouteEnvelope(b, from, env, up)
    case _ => b
  }

  // ------------------------------------------------------------ steps and runs

  datatype Op =
    | Accept(hello: Hello, ackOk: bool, written: nat)
    | Route(conn: nat, frame: Frame, up: set<string>)
    | Break(conn: nat)
    | Hangup(conn: nat)
    | Leave(conn: nat)
    | Restart

  /** Remove unbinds the name only if it is still bound to this connection. */
  function Removed(registry: map<string, Binding>, name: string, conn: nat): map<string, Binding> {
    if name in registry && registry[name].conn == conn then registry - {name} else registry
  }

  ghost function Apply(b: State, op: Op): State {
    match op
    case Accept(hello, ackOk, written) => Handshake(b, hello, ackOk, written)
    case Route(c, frame, up) =>
      if c in b.links && b.links[c].serving then RouteFrame(b, b.links[c].name, frame, up) else b
    case Break(c) =>
      if c in b.links then b.(links := b.links[c := b.links[c].(broken := true)]) else b
    case Hangup(c) =>
      if c in b.links && b.links[c].serving
      then b.(links := b.links[c := b.links[c].(closed := true, broken := true)]) else b
    case Leave(c) =>
      if c in b.links && b.links[c].serving && b.links[c].closed
      then b.(links := b.links[c := b.links[c].(serving := false)],
              registry := Removed(b.registry, b.links[c].name, c)) else b
    case Restart =>
      b.(registry := map[],
         links := map c | c in b.links :: b.links[c].(closed := true, broken := true, serving := false))
  }

  ghost function Run(b: State, ops: seq<Op>): State
    decreases |ops|
  {
    if ops == [] then b else Run(Apply(b, ops[0]), ops[1..])
  }
}
