/** From the sender's signature to the recipient's host: signing, transport and delivery together. */
module EndToEnd {
  import opened Options
  import opened Envelopes
  import opened Store
  import opened Broker
  import opened Bus
  import opened BusSession
  import opened BusSafety
  import opened BrokerSafety
  import opened BrokerOrigins
  import Adapter
  import Hmac
  import Wire

  /** Every peer's adapters verify under that peer's configured secret. */
  function Fresh(mac: Hmac.Mac, secretOf: string -> seq<Hmac.Byte>, tokens: set<string>): World {
    Start(Adapter.PeerCheck(mac, secretOf), tokens)
  }

  /** The envelope left its signer under the given secret, n encodings ago. */
  predicate Signed(mac: Hmac.Mac, secret: seq<Hmac.Byte>, e: Envelope, n: nat, env: Envelope) {
    && |secret| >= Hmac.MIN_SECRET_LEN && Wire.Canonical(e).Some? && mac(secret, Wire.Canonical(e).value) != []
    && Wire.Hops(Hmac.SignEnvelope(mac, secret, e).value, n) == Some(env)
  }

  /** In any honest state, a queued message signed under its recipient's secret is settled by the
      recipient's next fault-free session, which leaves the row otherwise as it was; its envelope
      has been handed to the host unless another row of the peer with the same id was. */
  lemma QueuedMessageArrives(mac: Hmac.Mac, secretOf: string -> seq<Hmac.Byte>, s: World,
                             pid: nat, written: nat, k: string, e: Envelope, n: nat)
    requires Honest(s) && s.check == Adapter.PeerCheck(mac, secretOf) && pid in s.procs && CanFlushAll(s, pid, written)
    requires k in s.broker.tables.messages && s.broker.tables.messages[k].to == s.procs[pid].name
    requires Signed(mac, secretOf(s.procs[pid].name), e, n, s.broker.tables.messages[k].envelope)
    ensures var s' := Session(s, pid, written); var row := s.broker.tables.messages[k];
      && k in s'.broker.tables.messages && SameMessage(row, s'.broker.tables.messages[k])
      && Settled(s'.broker.tables.messages[k]) && row.envelope.id == e.id
      && ((row.to, row.envelope) in s'.handed || HandedInstead(s', k))
  {
    var row, s' := s.broker.tables.messages[k], Session(s, pid, written);
    SignedArrivesIntact(mac, secretOf(row.to), e, n, row.envelope);
    SessionOutcome(s, pid, written);
    SessionEvolves(s, pid, written);
    assert RowEvolves(row, s'.broker.tables.messages[k]);
    HandedRow(s', k);
  }

  lemma SignedArrivesIntact(mac: Hmac.Mac, secret: seq<Hmac.Byte>, e: Envelope, n: nat, env: Envelope)
    requires Signed(mac, secret, e, n, env)
    ensures Hmac.Verify(mac, secret, env).Success? && env.id == e.id
  {
    var sent := Hmac.SignEnvelope(mac, secret, e).value;
    Hmac.SignedVerifiesAfterHops(mac, secret, e, n);
    assert Wire.Canonical(sent) == Wire.Canonical(e);
    if n > 0 {
      Wire.HopsAreNormal(sent, n);
    }
  }

  // ------------------------------------------------------------ the sending half

  /** What a process has sent stays on its connection, whatever happens. */
  lemma PlayKeepsSent(s: World, m: Move, c: nat)
    requires c in s.wires && s.broker.accepted !in s.wires
    ensures c in Play(s, m).wires && s.wires[c].up <= Play(s, m).wires[c].up
  {
  }

  lemma NextIsNew(s: World)
    requires Honest(s)
    ensures s.broker.accepted !in s.wires
  {
    assert s.wires.Keys == s.broker.links.Keys && LinksOk(s.broker);
  }

  lemma {:induction false} PlayAllKeepsSent(s: World, moves: seq<Move>, c: nat)
    requires Honest(s) && c in s.wires
    ensures c in PlayAll(s, moves).wires && s.wires[c].up <= PlayAll(s, moves).wires[c].up
    decreases |moves|
  {
    if moves != [] {
      PlayHonest(s, moves[0]);
      NextIsNew(s);
      PlayKeepsSent(s, moves[0], c);
      PlayAllKeepsSent(Play(s, moves[0]), moves[1..], c);
    }
  }

  /** The broker reading a direct envelope it accepts queues it under its own id, untouched. */
  lemma RoutedIsQueued(s: World, c: nat, up: set<string>, env: Envelope)
    requires c in s.wires && s.wires[c].routed < |s.wires[c].up| && c in s.broker.links && s.broker.links[c].serving
    requires s.wires[c].up[s.wires[c].routed] == EnvelopeFrame(env)
    requires env.to != "*" && env.kind != KIND_BROADCAST
    requires EnqueueOutcome(s.broker.tables, env.id, s.broker.links[c].name, env.to) == Done
    ensures var m := Play(s, RouteNext(c, up)).broker.tables.messages;
      env.id in m && m[env.id].from == s.broker.links[c].name && m[env.id].to == env.to && m[env.id].envelope == env
  {
    SubmitAddsOne(s.broker, env.id, s.broker.links[c].name, env.to, env, env.to in up);
    RouteNextIs(s, c, up, Route(c, EnvelopeFrame(env), up));
  }

  /** The world in which a process sends an envelope, after `mid` the broker reads that frame,
      and `after` follows. */
  ghost function Sent(s: World, a: nat, env: Envelope, mid: seq<Move>): World {
    PlayAll(Play(s, Bus.Send(a, env)), mid)
  }

  /** From the sender's signature to the recipient's host. In any run, a connected process sends a
      message signed under its recipient's secret; later the broker reads that frame and accepts
      it; anything may follow; then the recipient's next fault-free session settles exactly this
      message, and hands it to the host unless another row of the peer with the same id was. */
  lemma SignedMessageArrives(mac: Hmac.Mac, secretOf: string -> seq<Hmac.Byte>, tokens: set<string>,
                             before: seq<Move>, a: nat, c: nat, e: Envelope, n: nat, env: Envelope, mid: seq<Move>,
                             up: set<string>, after: seq<Move>, pid: nat, written: nat)
    requires var s1 := PlayAll(Fresh(mac, secretOf, tokens), before); var s2 := Sent(s1, a, env, mid);
      // a signs and sends on its connection c
      && a in s1.procs && s1.procs[a].conn == Some(c) && Signed(mac, secretOf(env.to), e, n, env)
      // the broker is about to read that frame, and its queue accepts it
      && c in s1.wires && c in s2.wires && s2.wires[c].routed == |s1.wires[c].up|
      && env.to != "*" && env.kind != KIND_BROADCAST && c in s2.broker.links && s2.broker.links[c].serving
      && EnqueueOutcome(s2.broker.tables, env.id, s2.broker.links[c].name, env.to) == Done
    requires var s3 := PlayAll(Play(Sent(PlayAll(Fresh(mac, secretOf, tokens), before), a, env, mid), RouteNext(c, up)), after);
      pid in s3.procs && s3.procs[pid].name == env.to && CanFlushAll(s3, pid, written)
    ensures var s2 := Sent(PlayAll(Fresh(mac, secretOf, tokens), before), a, env, mid);
      var s4 := Session(PlayAll(Play(s2, RouteNext(c, up)), after), pid, written);
      var m := s4.broker.tables.messages;
      && env.id in m && m[env.id].from == s2.broker.links[c].name && m[env.id].to == env.to && m[env.id].envelope == env
      && Settled(m[env.id]) && ((env.to, env) in s4.handed || HandedInstead(s4, env.id))
  {
    var s0 := Fresh(mac, secretOf, tokens);
    var s1 := PlayAll(s0, before);
    PlayAllHonest(s0, before);
    PlayAllCheck(s0, before);
    SendQueues(s1, a, c, env, mid, up, after);
    var s3 := PlayAll(Play(Sent(s1, a, env, mid), RouteNext(c, up)), after);
    QueuedMessageArrives(mac, secretOf, s3, pid, written, env.id, e, n);
  }

  lemma SendQueues(s1: World, a: nat, c: nat, env: Envelope, mid: seq<Move>, up: set<string>, after: seq<Move>)
    requires Honest(s1) && a in s1.procs && s1.procs[a].conn == Some(c) && c in s1.wires
    requires var s2 := Sent(s1, a, env, mid);
      && c in s2.wires && s2.wires[c].routed == |s1.wires[c].up|
      && env.to != "*" && env.kind != KIND_BROADCAST && c in s2.broker.links && s2.broker.links[c].serving
      && EnqueueOutcome(s2.broker.tables, env.id, s2.broker.links[c].name, env.to) == Done
    ensures var s2 := Sent(s1, a, env, mid); var s3 := PlayAll(Play(s2, RouteNext(c, up)), after);
      var m := s3.broker.tables.messages;
      && Honest(s3) && s3.check == s1.check
      && env.id in m && m[env.id].from == s2.broker.links[c].name && m[env.id].to == env.to && m[env.id].envelope == env
  {
    SentStays(s1, a, c, env, mid);
    var s2 := Sent(s1, a, env, mid);
    RoutedStaysQueued(s2, c, up, env, after);
  }

  lemma RoutedStaysQueued(s: World, c: nat, up: set<string>, env: Envelope, after: seq<Move>)
    requires Honest(s) && c in s.wires && c in s.broker.links && s.broker.links[c].serving
    requires s.wires[c].routed < |s.wires[c].up| && s.wires[c].up[s.wires[c].routed] == EnvelopeFrame(env)
    requires env.to != "*" && env.kind != KIND_BROADCAST
    requires EnqueueOutcome(s.broker.tables, env.id, s.broker.links[c].name, env.to) == Done
    ensures var s' := PlayAll(Play(s, RouteNext(c, up)), after); var m := s'.broker.tables.messages;
      && Honest(s') && s'.check == s.check
      && env.id in m && m[env.id].from == s.broker.links[c].name && m[env.id].to == env.to && m[env.id].envelope == env
  {
    RoutedIsQueued(s, c, up, env);
    PlayHonest(s, RouteNext(c, up));
    QueuedStays(Play(s, RouteNext(c, up)), env.id, after);
  }

  lemma SentStays(s: World, a: nat, c: nat, env: Envelope, mid: seq<Move>)
    requires Honest(s) && a in s.procs && s.procs[a].conn == Some(c) && c in s.wires
    ensures var s' := Sent(s, a, env, mid);
      && Honest(s') && s'.check == s.check && c in s'.wires
      && |s.wires[c].up| < |s'.wires[c].up| && s'.wires[c].up[|s.wires[c].up|] == EnvelopeFrame(env)
  {
    var sent := Play(s, Bus.Send(a, env));
    PlayHonest(s, Bus.Send(a, env));
    PlayAllHonest(sent, mid);
    PlayAllCheck(sent, mid);
    PlayAllKeepsSent(sent, mid, c);
  }

  lemma QueuedStays(s: World, k: string, moves: seq<Move>)
    requires Honest(s) && k in s.broker.tables.messages
    ensures var s' := PlayAll(s, moves);
      && Honest(s') && s'.check == s.check
      && k in s'.broker.tables.messages && SameMessage(s.broker.tables.messages[k], s'.broker.tables.messages[k])
  {
    PlayAllHonest(s, moves);
    PlayAllCheck(s, moves);
    PlayAllEvolves(s, moves);
    assert RowEvolves(s.broker.tables.messages[k], PlayAll(s, moves).broker.tables.messages[k]);
  }
}
