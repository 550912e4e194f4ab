/** Where rows come from: the exact set of copies a routed envelope adds, and what a broadcast
    reaches now and later. */
module BrokerOrigins {
  import opened Envelopes
  import opened Order
  import opened Store
  import opened Broker
  import opened BrokerSafety

  // ------------------------------------------------------------ rows and frames

  /** Routing env from a peer called `from` addresses a copy keyed k. */
  ghost predicate Addresses(b: State, from: string, env: Envelope, k: string) {
    && env.id != "" && env.to != "" && from != ""
    && if env.to == "*" then
         env.kind == "broadcast" && exists r :: r in b.registry && r != from && k == CopyKey(env.id, r)
       else
         env.kind != "broadcast" && env.to in b.tables.peers && k == env.id
  }

  ghost predicate Accepts(b: State, op: Op, k: string) {
    && op.Route? && op.conn in b.links && b.links[op.conn].serving && op.frame.EnvelopeFrame?
    && Addresses(b, b.links[op.conn].name, op.frame.env, k)
  }

  lemma PushAddsNothing(b: State, c: nat, to: string, key: string, ok: bool)
    ensures var b' := Push(b, c, to, key, ok);
      && b'.tables.messages.Keys == b.tables.messages.Keys && b'.tables.peers == b.tables.peers
      && b'.registry == b.registry && b'.tables.next == b.tables.next
      && forall k | k in b.tables.messages :: SameMessage(b.tables.messages[k], b'.tables.messages[k])
  {
  }

  /** One submission adds the row if it is acceptable, and touches no other message. */
  lemma SubmitAddsOne(b: State, key: string, from: string, to: string, env: Envelope, ok: bool)
    ensures var b' := Submit(b, key, from, to, env, ok); var done := EnqueueOutcome(b.tables, key, from, to) == Done;
      && b'.registry == b.registry && b'.tables.peers == b.tables.peers
      && b'.tables.messages.Keys == b.tables.messages.Keys + (if done then {key} else {})
      && (forall k | k in b.tables.messages :: SameMessage(b.tables.messages[k], b'.tables.messages[k]))
      && (done ==> SameMessage(Row(from, to, env, false, false, 0, NextSeq(b.tables, from)), b'.tables.messages[key]))
      && NextSeq(b'.tables, from) == NextSeq(b.tables, from) + if done then 1 else 0
  {
    if EnqueueOutcome(b.tables, key, from, to) == Done {
      var b1 := b.(tables := Enqueued(b.tables, key, from, to, env), log := b.log + [SendEvent(key, from, to)]);
      if to in b.registry {
        PushAddsNothing(b1, b.registry[to].conn, to, key, ok);
      }
    }
  }

  function Others(names: seq<string>, from: string): seq<string>
    decreases |names|
  {
    if names == [] then []
    else (if names[0] == from then [] else [names[0]]) + Others(names[1..], from)
  }

  lemma {:induction false} OthersAre(names: seq<string>, from: string)
    ensures forall r :: r in Others(names, from) <==> r in names && r != from
    decreases |names|
  {
    if names != [] {
      OthersAre(names[1..], from);
      assert names == [names[0]] + names[1..];
    }
  }

  lemma CopyKeyInjective(id: string, r: string, s: string)
    ensures CopyKey(id, r) == CopyKey(id, s) ==> r == s
    ensures CopyKey(id, r) != ""
  {
    assert CopyKey(id, r)[|id| + 1..] == r;
    assert CopyKey(id, s)[|id| + 1..] == s;
  }

  ghost predicate FreshFor(m: map<string, Row>, id: string, names: seq<string>) {
    forall r | r in names :: CopyKey(id, r) !in m
  }

  ghost function CopyKeys(id: string, names: seq<string>): set<string> {
    set r | r in names :: CopyKey(id, r)
  }

  predicate KeepsMessages(m: map<string, Row>, m': map<string, Row>) {
    forall k | k in m :: k in m' && SameMessage(m[k], m'[k])
  }

  /** m' is m plus one row per name in copies, all holding env, numbered from `first` on. */
  ghost predicate Fanned(m: map<string, Row>, m': map<string, Row>, from: string, env: Envelope, copies: seq<string>, first: nat) {
    && m'.Keys == m.Keys + CopyKeys(env.id, copies)
    && KeepsMessages(m, m')
    && forall i | 0 <= i < |copies| ::
         && CopyKey(env.id, copies[i]) in m'
         && SameMessage(Row(from, copies[i], env, false, false, 0, first + i), m'[CopyKey(env.id, copies[i])])
  }

  lemma FannedCons(m: map<string, Row>, m1: map<string, Row>, m2: map<string, Row>,
                   from: string, env: Envelope, r: string, tail: seq<string>, first: nat)
    requires m1.Keys == m.Keys + {CopyKey(env.id, r)} && KeepsMessages(m, m1)
    requires SameMessage(Row(from, r, env, false, false, 0, first), m1[CopyKey(env.id, r)])
    requires Fanned(m1, m2, from, env, tail, first + 1)
    ensures Fanned(m, m2, from, env, [r] + tail, first)
  {
  }

  /** A fan-out over distinct known names with a fresh id adds exactly one row per name other
      than the sender, all holding the untouched envelope, numbered consecutively. */
  lemma {:induction false} FanOutExact(b: State, from: string, env: Envelope, names: seq<string>, up: set<string>)
    requires from != "" && env.id != ""
    requires forall i, j :: 0 <= i < j < |names| ==> names[i] != names[j]
    requires forall r | r in names :: r != "" && r in b.tables.peers
    requires FreshFor(b.tables.messages, env.id, names)
    ensures Fanned(b.tables.messages, FanOut(b, from, env, names, up).tables.messages,
                   from, env, Others(names, from), NextSeq(b.tables, from))
    decreases |names|
  {
    if names != [] {
      var r, rest := names[0], names[1..];
      assert forall s | s in rest :: s in names && s != r;
      if r == from {
        FanOutExact(b, from, env, rest, up);
      } else {
        var b1 := Submit(b, CopyKey(env.id, r), from, r, env, r in up);
        assert r in names;
        FirstCopy(b, from, env, names, up);
        FanOutExact(b1, from, env, rest, up);
        FannedCons(b.tables.messages, b1.tables.messages, FanOut(b, from, env, names, up).tables.messages,
                   from, env, r, Others(rest, from), NextSeq(b.tables, from));
      }
    }
  }

  lemma FirstCopy(b: State, from: string, env: Envelope, names: seq<string>, up: set<string>)
    requires from != "" && env.id != "" && names != [] && names[0] !in names[1..]
    requires names[0] != "" && names[0] in b.tables.peers && FreshFor(b.tables.messages, env.id, names)
    ensures var key := CopyKey(env.id, names[0]); var b1 := Submit(b, key, from, names[0], env, names[0] in up);
      && b1.tables.messages.Keys == b.tables.messages.Keys + {key} && KeepsMessages(b.tables.messages, b1.tables.messages)
      && SameMessage(Row(from, names[0], env, false, false, 0, NextSeq(b.tables, from)), b1.tables.messages[key])
      && NextSeq(b1.tables, from) == NextSeq(b.tables, from) + 1
      && b1.tables.peers == b.tables.peers && FreshFor(b1.tables.messages, env.id, names[1..])
  {
    var r, rest := names[0], names[1..];
    var b1 := Submit(b, CopyKey(env.id, r), from, r, env, r in up);
    SubmitAddsOne(b, CopyKey(env.id, r), from, r, env, r in up);
    CopyKeyInjective(env.id, r, r);
    assert r in names && forall s | s in rest :: s in names;
    forall s | s in rest ensures CopyKey(env.id, s) !in b1.tables.messages {
      CopyKeyInjective(env.id, r, s);
    }
  }

  /** The recipients of a broadcast: everyone registered when it is routed, except its sender,
      in name order. */
  ghost function Recipients(b: State, from: string): seq<string> {
    Others(Sorted(StrLess, b.registry.Keys), from)
  }

  lemma RecipientsAre(b: State, from: string)
    ensures forall r :: r in Recipients(b, from) <==> r in b.registry && r != from
    ensures forall r :: r in Sorted(StrLess, b.registry.Keys) <==> r in b.registry
    ensures var names := Sorted(StrLess, b.registry.Keys);
      forall i, j :: 0 <= i < j < |names| ==> names[i] != names[j]
  {
    var names := Sorted(StrLess, b.registry.Keys);
    NamesTotal(b.registry.Keys);
    SortedInOrder(StrLess, b.registry.Keys);
    OthersAre(names, from);
    forall i, j | 0 <= i < j < |names| ensures names[i] != names[j] {
      assert StrLess(names[i], names[j]);
      StrLessIsStrictOrder(names[i], "", "");
    }
  }

  /** Routing a broadcast with a fresh id adds exactly one row for each peer registered at that
      moment other than the sender. */
  lemma BroadcastReachesExactlyTheRegistered(b: State, from: string, env: Envelope, up: set<string>)
    requires Safe(b) && from != "" && env.id != "" && env.to == "*" && env.kind == KIND_BROADCAST
    requires forall r | r in b.registry :: CopyKey(env.id, r) !in b.tables.messages
    ensures forall r :: r in Recipients(b, from) <==> r in b.registry && r != from
    ensures Fanned(b.tables.messages, RouteFrame(b, from, EnvelopeFrame(env), up).tables.messages,
                   from, env, Recipients(b, from), NextSeq(b.tables, from))
  {
    RecipientsAre(b, from);
    RegisteredAreKnown(b);
    BroadcastIsFanOut(b, from, env, up);
    FanOutExact(b, from, env, Sorted(StrLess, b.registry.Keys), up);
  }

  lemma RegisteredAreKnown(b: State)
    requires Safe(b)
    ensures forall r | r in b.registry :: r != "" && r in b.tables.peers
  {
    assert RegistryOk(b);
  }

  lemma BroadcastIsFanOut(b: State, from: string, env: Envelope, up: set<string>)
    requires env.id != "" && env.to == "*" && env.kind == KIND_BROADCAST
    ensures RouteFrame(b, from, EnvelopeFrame(env), up) == FanOut(b, from, env, Sorted(StrLess, b.registry.Keys), up)
  {
  }

  // ------------------------------------------------------------ provenance

  lemma {:induction false} FanOutOrigin(b: State, from: string, env: Envelope, names: seq<string>, up: set<string>)
    requires from != "" && env.id != ""
    requires forall r | r in names :: r != "" && r in b.tables.peers
    ensures FanOut(b, from, env, names, up).tables.messages.Keys
         == b.tables.messages.Keys + CopyKeys(env.id, Others(names, from))
    decreases |names|
  {
    if names != [] {
      var r, rest := names[0], names[1..];
      assert r in names && forall s | s in rest :: s in names;
      var key := CopyKey(env.id, r);
      var b1 := if r == from then b else Submit(b, key, from, r, env, r in up);
      SubmitAddsOne(b, key, from, r, env, r in up);
      CopyKeyInjective(env.id, r, r);
      FanOutOrigin(b1, from, env, rest, up);
      var tail := Others(rest, from);
      if r != from {
        assert Others(names, from) == [r] + tail;
        assert forall x :: x in [r] + tail <==> x == r || x in tail;
        assert CopyKeys(env.id, [r] + tail) == {key} + CopyKeys(env.id, tail);
      }
    }
  }

  lemma {:induction false} FlushAddsNothing(b: State, c: nat, to: string, keys: seq<string>, written: nat)
    ensures Flush(b, c, to, keys, written).tables.messages.Keys == b.tables.messages.Keys
    ensures Flush(b, c, to, keys, written).registry == b.registry
    decreases |keys|
  {
    if keys != [] {
      PushAddsNothing(b, c, to, keys[0], written != 0);
      if written != 0 {
        FlushAddsNothing(Push(b, c, to, keys[0], true), c, to, keys[1..], written - 1);
      }
    }
  }

  lemma RouteOrigin(b: State, from: string, env: Envelope, up: set<string>, k: string)
    requires Safe(b) && env.id != "" && env.to != ""
    ensures k in RouteEnvelope(b, from, env, up).tables.messages
       <==> k in b.tables.messages || Addresses(b, from, env, k)
  {
    if env.to == "*" && env.kind == KIND_BROADCAST {
      RecipientsAre(b, from);
      if from != "" {
        FanOutOrigin(b, from, env, Sorted(StrLess, b.registry.Keys), up);
      } else {
        NamelessAddsNothing(b, from, env, Sorted(StrLess, b.registry.Keys), up);
      }
    } else {
      SubmitAddsOne(b, env.id, from, env.to, env, env.to in up);
    }
  }

  lemma {:induction false} NamelessAddsNothing(b: State, from: string, env: Envelope, names: seq<string>, up: set<string>)
    requires from == ""
    ensures FanOut(b, from, env, names, up) == b
    decreases |names|
  {
    if names != [] {
      NamelessAddsNothing(b, from, env, names[1..], up);
    }
  }

  lemma HandshakeAddsNothing(b: State, hello: Hello, ackOk: bool, written: nat)
    ensures Handshake(b, hello, ackOk, written).tables.messages.Keys == b.tables.messages.Keys
  {
    if Judge(b, hello, ackOk).Admitted? {
      var w := Welcomed(b, hello.name, hello.token);
      FlushAddsNothing(w, b.accepted, hello.name, Drain(w.tables, hello.name), written);
    }
  }

  /** A row exists after a step exactly when it existed before or the step routed an envelope
      addressed to it. */
  lemma RowOrigin(b: State, op: Op, k: string)
    requires Safe(b)
    ensures k in Apply(b, op).tables.messages <==> k in b.tables.messages || Accepts(b, op, k)
  {
    match op
    case Accept(hello, ackOk, written) => HandshakeAddsNothing(b, hello, ackOk, written);
    case Route(c, frame, up) =>
      if c in b.links && b.links[c].serving && frame.EnvelopeFrame? && frame.env.id != "" && frame.env.to != "" {
        RouteOrigin(b, b.links[c].name, frame.env, up, k);
      }
    case _ =>
  }

  /** The state in which the i-th step of a run is taken. */
  ghost function StateAt(b: State, ops: seq<Op>, i: nat): State
    requires i <= |ops|
  {
    Run(b, ops[..i])
  }

  lemma StateAtStep(b: State, ops: seq<Op>, i: nat)
    requires ops != [] && i < |ops|
    ensures StateAt(b, ops, i + 1) == StateAt(Apply(b, ops[0]), ops[1..], i)
    ensures StateAt(b, ops, 0) == b
  {
    assert ops[..i + 1][0] == ops[0] && ops[..i + 1][1..] == ops[1..][..i];
  }

  /** Over a whole run: a row is there at the end exactly when it was there at the start or some
      step of the run routed an envelope addressed to it in the state of that moment. */
  lemma {:induction false} RunOrigin(b: State, ops: seq<Op>, k: string)
    requires Safe(b)
    ensures k in Run(b, ops).tables.messages
       <==> k in b.tables.messages || exists i :: 0 <= i < |ops| && Accepts(StateAt(b, ops, i), ops[i], k)
    decreases |ops|
  {
    if ops != [] {
      var b1, rest := Apply(b, ops[0]), ops[1..];
      ApplySafe(b, ops[0]);
      RowOrigin(b, ops[0], k);
      RunOrigin(b1, rest, k);
      StateAtStep(b, ops, 0);
      assert Accepts(b, ops[0], k) ==> Accepts(StateAt(b, ops, 0), ops[0], k);
      forall i | 0 <= i < |rest|
        ensures Accepts(StateAt(b1, rest, i), rest[i], k) <==> Accepts(StateAt(b, ops, i + 1), ops[i + 1], k)
      {
        StateAtStep(b, ops, i);
      }
      if i :| 0 <= i < |ops| && Accepts(StateAt(b, ops, i), ops[i], k) && i > 0 {
        assert Accepts(StateAt(b1, rest, i - 1), rest[i - 1], k);
      }
    }
  }

  /** Copy keys of different broadcasts, and copy keys and direct keys, never coincide when
      ids contain no '|'. */
  lemma KeysDoNotClash(id1: string, n1: string, id2: string, n2: string)
    requires '|' !in id1 && '|' !in id2
    ensures CopyKey(id1, n1) == CopyKey(id2, n2) ==> id1 == id2 && n1 == n2
    ensures CopyKey(id1, n1) != id2
  {
    var x, y := CopyKey(id1, n1), CopyKey(id2, n2);
    assert x[|id1|] == '|' && (forall i | 0 <= i < |id1| :: x[i] == id1[i] != '|');
    assert y[|id2|] == '|' && (forall i | 0 <= i < |id2| :: y[i] == id2[i] != '|');
    assert '|' in x;
    if x == y {
      assert |id1| == |id2|;
      assert x[..|id1|] == id1 && y[..|id2|] == id2;
      CopyKeyInjective(id1, n1, n2);
    }
  }

  /** No backfill: a name that has no copy of a broadcast gets one in a continuation exactly
      when the same broadcast id is routed again while the name is registered. Ids are taken
      without '|', as the adapters mint them. */
  lemma NoBackfill(b: State, ops: seq<Op>, id: string, name: string)
    requires Safe(b) && CopyKey(id, name) !in b.tables.messages && '|' !in id
    requires forall i | 0 <= i < |ops| && ops[i].Route? && ops[i].frame.EnvelopeFrame? :: '|' !in ops[i].frame.env.id
    ensures CopyKey(id, name) in Run(b, ops).tables.messages
       <==> exists i :: 0 <= i < |ops| && Rebroadcast(StateAt(b, ops, i), ops[i], id, name)
  {
    var k := CopyKey(id, name);
    RunOrigin(b, ops, k);
    forall i | 0 <= i < |ops|
      ensures Accepts(StateAt(b, ops, i), ops[i], k) <==> Rebroadcast(StateAt(b, ops, i), ops[i], id, name)
    {
      AcceptsCopy(StateAt(b, ops, i), ops[i], id, name);
    }
  }

  ghost predicate Rebroadcast(b: State, op: Op, id: string, name: string) {
    && op.Route? && op.conn in b.links && b.links[op.conn].serving && op.frame.EnvelopeFrame?
    && op.frame.env.id == id && id != "" && op.frame.env.to == "*" && op.frame.env.kind == "broadcast"
    && name in b.registry && b.links[op.conn].name != name && b.links[op.conn].name != ""
  }

  lemma AcceptsCopy(b: State, op: Op, id: string, name: string)
    requires '|' !in id && (op.Route? && op.frame.EnvelopeFrame? ==> '|' !in op.frame.env.id)
    ensures Accepts(b, op, CopyKey(id, name)) <==> Rebroadcast(b, op, id, name)
  {
    if op.Route? && op.frame.EnvelopeFrame? {
      KeysDoNotClash(id, name, op.frame.env.id, "");
      forall r ensures CopyKey(id, name) == CopyKey(op.frame.env.id, r) ==> id == op.frame.env.id && name == r {
        KeysDoNotClash(id, name, op.frame.env.id, r);
      }
    }
  }
}
