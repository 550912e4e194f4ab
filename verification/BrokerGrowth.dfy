/** What every broker step leaves alone: the past of each connection, and confirmations nobody
    asked for. */
module BrokerGrowth {
  import opened Envelopes
  import opened Order
  import opened Store
  import opened Broker
  import opened BrokerSafety

  predicate SamePast(l: Link, l': Link) {
    l.name == l'.name && l.settled == l'.settled && l.sent <= l'.sent
  }

  /** Connections only grow, and no row becomes acked. */
  ghost predicate Carries(b: State, b': State) {
    && b.accepted <= b'.accepted
    && (forall c | c in b.links :: c in b'.links && SamePast(b.links[c], b'.links[c]))
    && (forall k | k in b'.tables.messages && b'.tables.messages[k].acked ::
          k in b.tables.messages && b.tables.messages[k].acked)
  }

  lemma CarriesTransitive(a: State, b: State, c: State)
    requires Carries(a, b) && Carries(b, c)
    ensures Carries(a, c)
  {
  }

  lemma PushCarries(b: State, c: nat, to: string, key: string, ok: bool)
    ensures Carries(b, Push(b, c, to, key, ok))
  {
  }

  lemma SubmitCarries(b: State, key: string, from: string, to: string, env: Envelope, ok: bool)
    ensures Carries(b, Submit(b, key, from, to, env, ok))
  {
    if EnqueueOutcome(b.tables, key, from, to) == Done {
      var b1 := b.(tables := Enqueued(b.tables, key, from, to, env), log := b.log + [SendEvent(key, from, to)]);
      assert Carries(b, b1);
      if to in b.registry {
        PushCarries(b1, b.registry[to].conn, to, key, ok);
        CarriesTransitive(b, b1, Submit(b, key, from, to, env, ok));
      }
    }
  }

  lemma {:induction false} FanOutCarries(b: State, from: string, env: Envelope, names: seq<string>, up: set<string>)
    ensures Carries(b, FanOut(b, from, env, names, up))
    decreases |names|
  {
    if names != [] {
      var b1 := if names[0] == from then b
                else Submit(b, CopyKey(env.id, names[0]), from, names[0], env, names[0] in up);
      SubmitCarries(b, CopyKey(env.id, names[0]), from, names[0], env, names[0] in up);
      FanOutCarries(b1, from, env, names[1..], up);
      CarriesTransitive(b, b1, FanOut(b, from, env, names, up));
    }
  }

  lemma {:induction false} FlushCarries(b: State, c: nat, to: string, keys: seq<string>, written: nat)
    ensures Carries(b, Flush(b, c, to, keys, written))
    decreases |keys|
  {
    if keys != [] {
      var b1 := Push(b, c, to, keys[0], written != 0);
      PushCarries(b, c, to, keys[0], written != 0);
      if written != 0 {
        FlushCarries(b1, c, to, keys[1..], written - 1);
        CarriesTransitive(b, b1, Flush(b, c, to, keys, written));
      }
    }
  }

  lemma WelcomedCarries(b: State, name: string, token: string)
    requires LinksOk(b)
    ensures Carries(b, Welcomed(b, name, token))
  {
  }

  lemma HandshakeCarries(b: State, hello: Hello, ackOk: bool, written: nat)
    requires LinksOk(b)
    ensures Carries(b, Handshake(b, hello, ackOk, written))
  {
    if Judge(b, hello, ackOk).Admitted? || Judge(b, hello, ackOk).AckFailed? {
      var w := Welcomed(b, hello.name, hello.token);
      WelcomedCarries(b, hello.name, hello.token);
      FlushCarries(w, b.accepted, hello.name, Drain(w.tables, hello.name), written);
      CarriesTransitive(b, w, Flush(w, b.accepted, hello.name, Drain(w.tables, hello.name), written));
    }
  }

  lemma RouteCarries(b: State, from: string, frame: Frame, up: set<string>)
    requires !frame.AckFrame?
    ensures Carries(b, RouteFrame(b, from, frame, up))
  {
    if frame.EnvelopeFrame? {
      FanOutCarries(b, from, frame.env, Sorted(StrLess, b.registry.Keys), up);
      SubmitCarries(b, frame.env.id, from, frame.env.to, frame.env, frame.env.to in up);
    }
  }

  /** Only an acknowledgement frame for a row can make it acked. */
  lemma ApplyCarries(b: State, op: Op)
    requires LinksOk(b)
    ensures !(op.Route? && op.frame.AckFrame?) ==> Carries(b, Apply(b, op))
    ensures op.Route? && op.frame.AckFrame? ==>
      var b' := Apply(b, op);
      && b'.links == b.links && b'.accepted == b.accepted && b'.tables.messages.Keys == b.tables.messages.Keys
      && (forall k | k in b.tables.messages && b'.tables.messages[k].acked :: b.tables.messages[k].acked || k == op.frame.id)
  {
    match op
    case Accept(hello, ackOk, written) => HandshakeCarries(b, hello, ackOk, written);
    case Route(c, frame, up) =>
      if c in b.links && !frame.AckFrame? {
        RouteCarries(b, b.links[c].name, frame, up);
      }
    case _ =>
  }

  /** A handshake adds one connection: admitted, it carries its peer's name; refused, it is
      dead. */
  lemma AdmittedLink(b: State, hello: Hello, ackOk: bool, written: nat)
    requires LinksOk(b)
    ensures var b' := Handshake(b, hello, ackOk, written);
      && b'.links.Keys == b.links.Keys + {b.accepted} && b'.accepted == b.accepted + 1
      && (Judge(b, hello, ackOk).Admitted? ==> b'.links[b.accepted].name == hello.name)
      && (!Judge(b, hello, ackOk).Admitted? ==> b'.links[b.accepted] == DEAD)
  {
    if Judge(b, hello, ackOk).Admitted? {
      var w := Welcomed(b, hello.name, hello.token);
      FlushSameLinks(w, b.accepted, hello.name, Drain(w.tables, hello.name), written);
    }
  }

  lemma {:induction false} FlushSameLinks(b: State, c: nat, to: string, keys: seq<string>, written: nat)
    ensures Flush(b, c, to, keys, written).links.Keys == b.links.Keys
    ensures Flush(b, c, to, keys, written).accepted == b.accepted
    ensures c in b.links ==> SamePast(b.links[c], Flush(b, c, to, keys, written).links[c])
    decreases |keys|
  {
    FlushCarries(b, c, to, keys, written);
    if keys != [] && written != 0 {
      FlushSameLinks(Push(b, c, to, keys[0], true), c, to, keys[1..], written - 1);
    }
  }

  /** Other steps open no connection. */
  lemma {:induction false} FanOutSameLinks(b: State, from: string, env: Envelope, names: seq<string>, up: set<string>)
    ensures FanOut(b, from, env, names, up).links.Keys == b.links.Keys
    ensures FanOut(b, from, env, names, up).accepted == b.accepted
    decreases |names|
  {
    if names != [] {
      var b1 := if names[0] == from then b
                else Submit(b, CopyKey(env.id, names[0]), from, names[0], env, names[0] in up);
      FanOutSameLinks(b1, from, env, names[1..], up);
    }
  }

  lemma StepSameLinks(b: State, op: Op)
    requires !op.Accept?
    ensures Apply(b, op).links.Keys == b.links.Keys && Apply(b, op).accepted == b.accepted
  {
    if op.Route? && op.conn in b.links && op.frame.EnvelopeFrame? {
      FanOutSameLinks(b, b.links[op.conn].name, op.frame.env, Sorted(StrLess, b.registry.Keys), op.up);
    }
  }
}
