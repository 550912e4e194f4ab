/** Runs of the broker that show what it does not promise. */
module BrokerWitnesses {
  import opened Envelopes
  import opened Order
  import opened Store
  import opened Broker
  import opened BrokerSafety
  import opened BrokerOrigins

  const TOKEN := "t"

  function Message(id: string, from: string, to: string, kind: string): Envelope {
    Envelope(PROTOCOL_VERSION, id, from, to, "", "", kind, "", "")
  }

  function Join(name: string): Op { Accept(Frame(CONTROL_REGISTER, PROTOCOL_VERSION, TOKEN, name), true, 0) }

  function OpenLink(name: string): Link { Link(name, [], false, false, false, true, {}) }

  lemma SortedNone<T(!new)>(lt: (T, T) -> bool)
    ensures Sorted(lt, {}) == []
  {
    SortedInOrder(lt, {});
    InOrderUnique(lt, {}, Sorted(lt, {}), []);
  }

  /** With nothing pending, an admitted handshake writes nothing. */
  lemma QuietHandshake(b: State, hello: Hello, written: nat)
    requires Judge(b, hello, true).Admitted?
    requires Pending(Welcomed(b, hello.name, hello.token).tables, hello.name) == {}
    ensures Handshake(b, hello, true, written) == Welcomed(b, hello.name, hello.token)
  {
    SortedNone(DrainLess(Welcomed(b, hello.name, hello.token).tables.messages));
  }

  /** A new name joins a broker whose queue is empty. */
  lemma Joins(b: State, name: string)
    requires b.tables.messages == map[] && name != "" && TOKEN in b.tokens && name !in b.registry
    ensures Apply(b, Join(name)) == b.(
              tables := b.tables.(peers := b.tables.peers + {name}),
              registry := b.registry[name := Binding(b.accepted, TOKEN)],
              links := b.links[b.accepted := OpenLink(name)],
              accepted := b.accepted + 1)
  {
    var t := Requeued(Registered(b.tables, name), name);
    assert t.messages == map[];
    assert SettledFor(t, name) == {};
    QuietHandshake(b, Join(name).hello, 0);
  }

  /** One more step of a run. */
  lemma {:induction false} RunSnoc(b: State, ops: seq<Op>, op: Op)
    ensures Run(b, ops + [op]) == Apply(Run(b, ops), op)
    decreases |ops|
  {
    if ops == [] {
      assert [op][1..] == [];
    } else {
      assert (ops + [op])[0] == ops[0] && (ops + [op])[1..] == ops[1..] + [op];
      RunSnoc(Apply(b, ops[0]), ops[1..], op);
    }
  }

  // ------------------------------------------------------------ a foreign acknowledgement

  /** b, a and c join; a's message to b is queued while b's link is down; c acknowledges it. The
      row ends up acked although nothing was ever written to any connection. */
  lemma ForeignAcknowledgement() returns (ops: seq<Op>)
    ensures var b := Run(Initial({TOKEN}), ops);
      && "m" in b.tables.messages && b.tables.messages["m"].to == "b" && b.tables.messages["m"].acked
      && ops != [] && ops[|ops| - 1] == Route(2, AckFrame("m"), {}) && 2 in b.links && b.links[2].name == "c"
      && forall c | c in b.links :: b.links[c].sent == []
  {
    var env, b0 := Message("m", "a", "b", KIND_MSG), Initial({TOKEN});
    ops := [];
    RunSnoc(b0, ops, Join("b"));
    Joins(b0, "b");
    ops := ops + [Join("b")];
    var b1 := Run(b0, ops);
    RunSnoc(b0, ops, Join("a"));
    Joins(b1, "a");
    ops := ops + [Join("a")];
    var b2 := Run(b0, ops);
    RunSnoc(b0, ops, Join("c"));
    Joins(b2, "c");
    ops := ops + [Join("c")];
    var b3 := Run(b0, ops);
    RunSnoc(b0, ops, Route(1, EnvelopeFrame(env), {}));
    ops := ops + [Route(1, EnvelopeFrame(env), {})];
    RoutedUnwritten(b3, env);
    var b4 := Run(b0, ops);
    RunSnoc(b0, ops, Route(2, AckFrame("m"), {}));
    ops := ops + [Route(2, AckFrame("m"), {})];
    AckRouted(b4, 2, "m");
  }

  lemma RoutedUnwritten(b: State, env: Envelope)
    requires env == Message("m", "a", "b", KIND_MSG) && "b" in b.tables.peers && b.tables.messages == map[]
    requires "b" in b.registry && b.registry["b"].conn == 0 && 0 in b.links && b.links[0].sent == []
    requires 1 in b.links && b.links[1] == OpenLink("a")
    ensures var b' := Apply(b, Route(1, EnvelopeFrame(env), {}));
      && "m" in b'.tables.messages && b'.tables.messages["m"].to == "b"
      && b'.links == b.links[0 := b.links[0].(broken := true)]
  {
  }

  lemma AckRouted(b: State, c: nat, k: string)
    requires c in b.links && b.links[c].serving && k != ""
    ensures Apply(b, Route(c, AckFrame(k), {})) == b.(tables := MarkedAcked(b.tables, k), log := b.log + [AckEvent(k, b.links[c].name)])
  {
  }

  // ------------------------------------------------------------ a late copy of a broadcast

  lemma {:induction false} FanOutNobody(b: State, from: string, env: Envelope, names: seq<string>, up: set<string>)
    requires forall r | r in names :: r == from
    ensures FanOut(b, from, env, names, up) == b
    decreases |names|
  {
    if names != [] {
      assert names[0] in names && forall r | r in names[1..] :: r in names;
      FanOutNobody(b, from, env, names[1..], up);
    }
  }

  /** a broadcasts while alone, b joins, and the same broadcast is routed again: b, which has no
      copy when it joins, now gets one. */
  lemma LateCopy() returns (ops: seq<Op>)
    ensures |ops| == 4 && ops[2] == Join("b") && ops[1] == ops[3] && ops[1].Route? && ops[1].frame.EnvelopeFrame?
    ensures ops[1].frame.env == Message("m", "a", "*", KIND_BROADCAST)
    ensures Run(Initial({TOKEN}), ops[..1]).registry.Keys == {"a"}
    ensures CopyKey("m", "b") !in Run(Initial({TOKEN}), ops[..3]).tables.messages
    ensures CopyKey("m", "b") in Run(Initial({TOKEN}), ops).tables.messages
  {
    var b0 := Initial({TOKEN});
    var again := Route(0, EnvelopeFrame(Message("m", "a", "*", KIND_BROADCAST)), {});
    ops := [Join("a"), again, Join("b"), again];
    RunSnoc(b0, [], Join("a"));
    Joins(b0, "a");
    var b1 := Run(b0, [Join("a")]);
    RunSnoc(b0, [Join("a")], again);
    BroadcastAlone(b1, again);
    assert [Join("a")] + [again] == [Join("a"), again];
    RunSnoc(b0, [Join("a"), again], Join("b"));
    Joins(b1, "b");
    assert [Join("a"), again] + [Join("b")] == ops[..3];
    var b3 := Run(b0, ops[..3]);
    RunSnoc(b0, ops[..3], again);
    assert ops[..3] + [again] == ops && ops[..1] == [Join("a")];
    RunSafe(b0, ops[..3]);
    RoutedAgain(b3, again);
  }

  lemma RoutedAgain(b: State, op: Op)
    requires op == Route(0, EnvelopeFrame(Message("m", "a", "*", KIND_BROADCAST)), {}) && Safe(b)
    requires 0 in b.links && b.links[0] == OpenLink("a") && "b" in b.registry
    ensures CopyKey("m", "b") in Apply(b, op).tables.messages
  {
    RowOrigin(b, op, CopyKey("m", "b"));
    assert Addresses(b, "a", op.frame.env, CopyKey("m", "b"));
  }

  lemma BroadcastAlone(b: State, op: Op)
    requires op == Route(0, EnvelopeFrame(Message("m", "a", "*", KIND_BROADCAST)), {})
    requires b.registry.Keys == {"a"} && 0 in b.links && b.links[0] == OpenLink("a")
    ensures Apply(b, op) == b
  {
    SortedNamesAre(b.registry.Keys);
    FanOutNobody(b, "a", op.frame.env, Sorted(StrLess, b.registry.Keys), {});
  }

  lemma SortedNamesAre(s: set<string>)
    ensures InOrder(StrLess, s, Sorted(StrLess, s))
  {
    NamesTotal(s);
    SortedInOrder(StrLess, s);
  }
}
