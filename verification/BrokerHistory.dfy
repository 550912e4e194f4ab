/** Whole-run results about the broker: nothing accepted is lost, and the audit log rebuilds the
    queue. */
module BrokerHistory {
  import opened Envelopes
  import opened Order
  import opened Store
  import opened Broker
  import opened BrokerSafety

  // ------------------------------------------------------------ replaying the audit log

  datatype Entry = Entry(from: string, to: string, number: nat, attempts: nat, acked: bool)

  function CountSends(log: seq<Event>, sender: string): nat
    decreases |log|
  {
    if log == [] then 0
    else
      var last := log[|log| - 1];
      CountSends(log[..|log| - 1], sender) + if last.SendEvent? && last.from == sender then 1 else 0
  }

  /** The queue as the log alone tells it. */
  function Replay(log: seq<Event>): map<string, Entry>
    decreases |log|
  {
    if log == [] then map[]
    else
      var past := log[..|log| - 1];
      var q := Replay(past);
      match log[|log| - 1]
      case SendEvent(id, from, to) => if id in q then q else q[id := Entry(from, to, CountSends(past, from), 0, false)]
      case DeliverEvent(id, _, _) => if id in q then q[id := q[id].(attempts := q[id].attempts + 1)] else q
      case AckEvent(id, _) => if id in q then q[id := q[id].(acked := true)] else q
  }

  function View(t: Tables): map<string, Entry> {
    map k | k in t.messages ::
      Entry(t.messages[k].from, t.messages[k].to, t.messages[k].number, t.messages[k].attempts, t.messages[k].acked)
  }

  ghost predicate LogMatches(b: State) {
    Replay(b.log) == View(b.tables) && forall s :: CountSends(b.log, s) == NextSeq(b.tables, s)
  }

  lemma OneMoreEvent(log: seq<Event>, e: Event)
    ensures (log + [e])[..|log|] == log && (log + [e])[|log|] == e
  {
  }

  /** b' follows from b without losing anything and with the log kept in step. */
  ghost predicate Follows(b: State, b': State) {
    Evolves(b.tables, b'.tables) && (LogMatches(b) ==> LogMatches(b'))
  }

  lemma FollowsTransitive(a: State, b: State, c: State)
    requires Follows(a, b) && Follows(b, c)
    ensures Follows(a, c)
  {
    EvolvesTransitive(a.tables, b.tables, c.tables);
  }

  lemma DeliverFollows(b: State, c: nat, to: string, key: string, ok: bool)
    ensures Follows(b, Push(b, c, to, key, ok))
  {
    MarksKeep(b.tables, MarkDelivered(key));
    if LogMatches(b) && Push(b, c, to, key, ok).log != b.log {
      DeliverReplays(b.tables, b.log, key, to);
    }
  }

  lemma DeliverReplays(t: Tables, log: seq<Event>, key: string, to: string)
    requires key in t.messages && Replay(log) == View(t)
    ensures var log' := log + [DeliverEvent(key, t.messages[key].from, to)];
      Replay(log') == View(MarkedDelivered(t, key)) && forall s :: CountSends(log', s) == CountSends(log, s)
  {
  }

  lemma SendFollows(b: State, key: string, from: string, to: string, env: Envelope)
    requires EnqueueOutcome(b.tables, key, from, to) == Done
    ensures Follows(b, b.(tables := Enqueued(b.tables, key, from, to, env), log := b.log + [SendEvent(key, from, to)]))
  {
  }

  lemma SubmitFollows(b: State, key: string, from: string, to: string, env: Envelope, ok: bool)
    ensures Follows(b, Submit(b, key, from, to, env, ok))
  {
    if EnqueueOutcome(b.tables, key, from, to) == Done {
      var b1 := b.(tables := Enqueued(b.tables, key, from, to, env), log := b.log + [SendEvent(key, from, to)]);
      SendFollows(b, key, from, to, env);
      if to in b.registry {
        DeliverFollows(b1, b.registry[to].conn, to, key, ok);
        FollowsTransitive(b, b1, Submit(b, key, from, to, env, ok));
      }
    }
  }

  lemma {:induction false} FanOutFollows(b: State, from: string, env: Envelope, names: seq<string>, up: set<string>)
    ensures Follows(b, FanOut(b, from, env, names, up))
    decreases |names|
  {
    if names != [] {
      var b' := if names[0] == from then b
                else Submit(b, CopyKey(env.id, names[0]), from, names[0], env, names[0] in up);
      SubmitFollows(b, CopyKey(env.id, names[0]), from, names[0], env, names[0] in up);
      FanOutFollows(b', from, env, names[1..], up);
      FollowsTransitive(b, b', FanOut(b, from, env, names, up));
    }
  }

  lemma {:induction false} FlushFollows(b: State, c: nat, to: string, keys: seq<string>, written: nat)
    ensures Follows(b, Flush(b, c, to, keys, written))
    decreases |keys|
  {
    if keys == [] {
    } else if written == 0 {
      DeliverFollows(b, c, to, keys[0], false);
    } else {
      var b' := Push(b, c, to, keys[0], true);
      DeliverFollows(b, c, to, keys[0], true);
      FlushFollows(b', c, to, keys[1..], written - 1);
      FollowsTransitive(b, b', Flush(b, c, to, keys, written));
    }
  }

  lemma ReadmitFollows(t: Tables, name: string)
    ensures Evolves(t, Registered(t, name)) && Evolves(t, Requeued(Registered(t, name), name))
    ensures View(Registered(t, name)) == View(t) && View(Requeued(Registered(t, name), name)) == View(t)
    ensures Registered(t, name).next == t.next && Requeued(Registered(t, name), name).next == t.next
  {
    var t1 := Registered(t, name);
    MarksKeep(t, Register(name));
    RequeuedKeeps(t1, name);
    EvolvesTransitive(t, t1, Requeued(t1, name));
    assert View(Requeued(t1, name)) == View(t1);
  }

  lemma HandshakeFollows(b: State, hello: Hello, ackOk: bool, written: nat)
    ensures Follows(b, Handshake(b, hello, ackOk, written))
  {
    if hello.Frame? {
      ReadmitFollows(b.tables, hello.name);
      var w := Welcomed(b, hello.name, hello.token);
      assert Follows(b, w);
      FlushFollows(w, b.accepted, hello.name, Drain(w.tables, hello.name), written);
      if Judge(b, hello, ackOk).Admitted? {
        FollowsTransitive(b, w, Handshake(b, hello, ackOk, written));
      }
    }
  }

  lemma AckFollows(b: State, id: string, from: string)
    ensures Follows(b, HandleAck(b, id, from))
  {
    var b' := HandleAck(b, id, from);
    MarksKeep(b.tables, MarkAcked(id));
    if id != "" && LogMatches(b) {
      OneMoreEvent(b.log, AckEvent(id, from));
      assert View(b'.tables) == Replay(b'.log);
    }
  }

  lemma ApplyFollows(b: State, op: Op)
    ensures Follows(b, Apply(b, op))
  {
    match op
    case Accept(hello, ackOk, written) => HandshakeFollows(b, hello, ackOk, written);
    case Route(c, frame, up) =>
      if c in b.links {
        var from := b.links[c].name;
        match frame
        case AckFrame(id) => AckFollows(b, id, from);
        case EnvelopeFrame(env) =>
          FanOutFollows(b, from, env, Sorted(StrLess, b.registry.Keys), up);
          SubmitFollows(b, env.id, from, env.to, env, env.to in up);
        case _ =>
      }
    case _ =>
  }

  /** In every continuation each accepted message keeps its sender, recipient, envelope and
      number, its confirmation stands, and the log stays in step with the queue. */
  lemma {:induction false} RunFollows(b: State, ops: seq<Op>)
    ensures Follows(b, Run(b, ops))
    decreases |ops|
  {
    if ops != [] {
      ApplyFollows(b, ops[0]);
      RunFollows(Apply(b, ops[0]), ops[1..]);
      FollowsTransitive(b, Apply(b, ops[0]), Run(b, ops));
    }
  }

  /** Replaying the audit log of any run rebuilds the queue it left behind. */
  lemma AuditReplaysToQueue(tokens: set<string>, ops: seq<Op>)
    ensures var b := Run(Initial(tokens), ops);
      Replay(b.log) == View(b.tables) && forall s :: CountSends(b.log, s) == NextSeq(b.tables, s)
  {
    assert View(EMPTY) == map[];
    RunFollows(Initial(tokens), ops);
  }
}
