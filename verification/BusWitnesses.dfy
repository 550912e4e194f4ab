/** Runs of the bus that show what it does not promise. */
module BusWitnesses {
  import opened Options
  import opened Envelopes
  import opened Order
  import opened Store
  import opened Broker
  import opened Recency
  import opened Redelivery
  import opened Bus
  import opened BusSafety
  import opened BrokerWitnesses

  function AcceptAll(): (string, Envelope) -> bool { (name, env) => true }

  function Beginning(): World { Start(AcceptAll(), {TOKEN}) }

  /** One more move of a run. */
  lemma {:induction false} PlayAllSnoc(s: World, moves: seq<Move>, m: Move)
    ensures PlayAll(s, moves + [m]) == Play(PlayAll(s, moves), m)
    decreases |moves|
  {
    if moves == [] {
      assert [m][1..] == [];
    } else {
      assert (moves + [m])[0] == moves[0] && (moves + [m])[1..] == moves[1..] + [m];
      PlayAllSnoc(Play(s, moves[0]), moves[1..], m);
    }
  }

  // ------------------------------------------------------------ two peers connect

  function NewProc(name: string): Proc { Proc(name, TOKEN, 2, [], None, [], [], [], {}) }

  /** a and b are connected, on connections 0 and 1, and nothing has been sent. */
  function Ready(): World {
    World(AcceptAll(),
          State({TOKEN}, Tables({"a", "b"}, map[], map[]),
                map["a" := Binding(0, TOKEN), "b" := Binding(1, TOKEN)],
                map[0 := OpenLink("a"), 1 := OpenLink("b")], 2, []),
          map[0 := NewProc("a").(conn := Some(0)), 1 := NewProc("b").(conn := Some(1))],
          map[0 := Endpoint(0, 0, [], 0), 1 := Endpoint(1, 0, [], 0)], {})
  }

  lemma ConnectFirst(s: World, pid: nat)
    requires pid in s.procs && s.procs[pid].conn == None && s.procs[pid].token == TOKEN && TOKEN in s.broker.tokens
    requires s.broker.tables.messages == map[] && s.procs[pid].name != "" && s.procs[pid].name !in s.broker.registry
    ensures var b := s.broker; var c, name := b.accepted, s.procs[pid].name;
      Play(s, Connect(pid, true, 0, true))
      == s.(broker := b.(tables := b.tables.(peers := b.tables.peers + {name}),
                         registry := b.registry[name := Binding(c, TOKEN)],
                         links := b.links[c := OpenLink(name)], accepted := c + 1),
            wires := s.wires[c := Endpoint(pid, 0, [], 0)],
            procs := s.procs[pid := s.procs[pid].(conn := Some(c))])
  {
    Joins(s.broker, s.procs[pid].name);
  }

  lemma GetReady() returns (moves: seq<Move>)
    ensures PlayAll(Beginning(), moves) == Ready()
  {
    var s0 := Beginning();
    moves := [];
    PlayAllSnoc(s0, moves, Spawn(0, "a", TOKEN, 2));
    moves := moves + [Spawn(0, "a", TOKEN, 2)];
    PlayAllSnoc(s0, moves, Spawn(1, "b", TOKEN, 2));
    moves := moves + [Spawn(1, "b", TOKEN, 2)];
    var s2 := PlayAll(s0, moves);
    PlayAllSnoc(s0, moves, Connect(0, true, 0, true));
    ConnectFirst(s2, 0);
    moves := moves + [Connect(0, true, 0, true)];
    var s3 := PlayAll(s0, moves);
    PlayAllSnoc(s0, moves, Connect(1, true, 0, true));
    ConnectFirst(s3, 1);
    moves := moves + [Connect(1, true, 0, true)];
    assert PlayAll(s0, moves).broker.tables.peers == {"a", "b"};
  }

  /** The broker reads a direct envelope for a connected peer and writes it out. */
  lemma RouteDirect(s: World, c: nat, d: nat, env: Envelope)
    requires c in s.wires && s.wires[c].routed < |s.wires[c].up| && s.wires[c].up[s.wires[c].routed] == EnvelopeFrame(env)
    requires c in s.broker.links && s.broker.links[c].serving && env.to != "*" && env.kind != KIND_BROADCAST
    requires EnqueueOutcome(s.broker.tables, env.id, s.broker.links[c].name, env.to) == Done
    requires env.to in s.broker.registry && s.broker.registry[env.to].conn == d && d in s.broker.links && !s.broker.links[d].broken
    ensures var b, from := s.broker, s.broker.links[c].name; var n := NextSeq(b.tables, from);
      Play(s, RouteNext(c, {env.to}))
      == s.(broker := b.(
              tables := Tables(b.tables.peers, b.tables.messages[env.id := Row(from, env.to, env, true, false, 1, n)],
                               b.tables.next[from := n + 1]),
              links := b.links[d := b.links[d].(sent := b.links[d].sent + [Delivery(env.id, env)])],
              log := b.log + [SendEvent(env.id, from, env.to)] + [DeliverEvent(env.id, from, env.to)]),
            wires := s.wires[c := s.wires[c].(routed := s.wires[c].routed + 1)])
  {
    RouteNextIs(s, c, {env.to}, Route(c, EnvelopeFrame(env), {env.to}));
  }

  lemma RouteAck(s: World, c: nat, k: string)
    requires c in s.wires && s.wires[c].routed < |s.wires[c].up| && s.wires[c].up[s.wires[c].routed] == AckFrame(k)
    requires c in s.broker.links && s.broker.links[c].serving && k != "" && k in s.broker.tables.messages
    ensures Play(s, RouteNext(c, {}))
         == s.(broker := s.broker.(tables := MarkedAcked(s.broker.tables, k), log := s.broker.log + [AckEvent(k, s.broker.links[c].name)]),
               wires := s.wires[c := s.wires[c].(routed := s.wires[c].routed + 1)])
  {
    RouteNextIs(s, c, {}, Route(c, AckFrame(k), {}));
    AckRouted(s.broker, c, k);
  }

  // ------------------------------------------------------------ a refused message comes late

  function Direct(id: string): Envelope { Message(id, "a", "b", KIND_MSG) }

  function DirectRow(id: string, acked: bool, number: nat): Row { Row("a", "b", Direct(id), true, acked, 1, number) }

  /** b has been written two messages of a's and read neither. */
  ghost predicate TwoWritten(s: World) {
    && s.check == AcceptAll() && 1 in s.procs && s.procs[1] == NewProc("b").(conn := Some(1))
    && 1 in s.wires && s.wires[1] == Endpoint(1, 0, [], 0)
    && s.broker.tables.messages == map["1" := DirectRow("1", false, 0), "2" := DirectRow("2", false, 1)]
    && s.broker.tables.peers == {"a", "b"} && s.broker.tokens == {TOKEN} && s.broker.accepted == 2
    && "b" in s.broker.registry && s.broker.registry["b"] == Binding(1, TOKEN)
    && 1 in s.broker.links
    && s.broker.links[1] == OpenLink("b").(sent := [Delivery("1", Direct("1")), Delivery("2", Direct("2"))])
  }

  /** a sends b a message, and the broker reads it and writes it out. */
  lemma SendAndRoute(s: World, moves: seq<Move>, id: string) returns (next: seq<Move>)
    requires var x := PlayAll(s, moves); var b := x.broker;
      && 0 in x.procs && x.procs[0].conn == Some(0) && 0 in x.wires && x.wires[0].routed == |x.wires[0].up|
      && 0 in b.links && b.links[0].serving && EnqueueOutcome(b.tables, id, b.links[0].name, "b") == Done
      && "b" in b.registry && b.registry["b"].conn == 1 && 1 in b.links && !b.links[1].broken
    ensures var x, y := PlayAll(s, moves), PlayAll(s, next); var from := x.broker.links[0].name; var n := NextSeq(x.broker.tables, from);
      && y.check == x.check && y.handed == x.handed && y.procs == x.procs
      && y.wires == x.wires[0 := x.wires[0].(up := x.wires[0].up + [EnvelopeFrame(Direct(id))], routed := x.wires[0].routed + 1)]
      && y.broker == x.broker.(tables := y.broker.tables, links := y.broker.links, log := y.broker.log)
      && y.broker.tables == Tables(x.broker.tables.peers, x.broker.tables.messages[id := Row(from, "b", Direct(id), true, false, 1, n)],
                                   x.broker.tables.next[from := n + 1])
      && y.broker.links == x.broker.links[1 := x.broker.links[1].(sent := x.broker.links[1].sent + [Delivery(id, Direct(id))])]
  {
    var x := PlayAll(s, moves);
    PlayAllSnoc(s, moves, Bus.Send(0, Direct(id)));
    next := moves + [Bus.Send(0, Direct(id))];
    PlayAllSnoc(s, next, RouteNext(0, {"b"}));
    RouteDirect(PlayAll(s, next), 0, 1, Direct(id));
    next := next + [RouteNext(0, {"b"})];
  }

  lemma WriteTwo() returns (moves: seq<Move>)
    ensures TwoWritten(PlayAll(Beginning(), moves))
  {
    var s0 := Beginning();
    moves := GetReady();
    moves := SendAndRoute(s0, moves, "1");
    moves := SendAndRoute(s0, moves, "2");
  }

  /** b has refused the first message and consumed the second; its link is gone. */
  ghost predicate OneRefused(s: World) {
    && s.check == AcceptAll() && 1 in s.procs
    && s.procs[1] == Proc("b", TOKEN, 2, ["2"], None, [Surfacing("1", false), Surfacing("2", true)], ["2"], ["2"], {"1"})
    && s.broker.tables.messages == map["1" := DirectRow("1", false, 0), "2" := DirectRow("2", true, 1)]
    && s.broker.tables.peers == {"a", "b"} && s.broker.tokens == {TOKEN} && s.broker.accepted == 2
    && "b" in s.broker.registry && s.broker.registry["b"] == Binding(1, TOKEN) && 1 in s.broker.links
  }

  lemma RefuseOne(s: World)
    requires TwoWritten(s)
    ensures OneRefused(PlayAll(s, [Receive(1, false, true), Receive(1, true, true), RouteNext(1, {}), Drop(1)]))
  {
    var s1 := Play(s, Receive(1, false, true));
    FirstRefused(s);
    var s2 := Play(s1, Receive(1, true, true));
    SecondConsumed(s1);
    var s3 := Play(s2, RouteNext(1, {}));
    RouteAck(s2, 1, "2");
    PlayFour(s, Receive(1, false, true), Receive(1, true, true), RouteNext(1, {}), Drop(1));
  }

  lemma PlayFour(s: World, m1: Move, m2: Move, m3: Move, m4: Move)
    ensures PlayAll(s, [m1, m2, m3, m4]) == Play(Play(Play(Play(s, m1), m2), m3), m4)
  {
    PlayAllSnoc(s, [], m1);
    PlayAllSnoc(s, [m1], m2);
    PlayAllSnoc(s, [m1, m2], m3);
    PlayAllSnoc(s, [m1, m2, m3], m4);
    assert [] + [m1] == [m1] && [m1] + [m2] == [m1, m2];
    assert [m1, m2] + [m3] == [m1, m2, m3] && [m1, m2, m3] + [m4] == [m1, m2, m3, m4];
  }

  lemma FirstRefused(s: World)
    requires TwoWritten(s)
    ensures Play(s, Receive(1, false, true))
         == s.(procs := s.procs[1 := NewProc("b").(conn := Some(1), taken := [Surfacing("1", false)], refused := {"1"})],
               wires := s.wires[1 := Endpoint(1, 1, [], 0)])
  {
    assert Surfaced(NewProc("b").(conn := Some(1)), "1", "1", false)
        == NewProc("b").(conn := Some(1), taken := [Surfacing("1", false)], refused := {"1"}) by {
      assert [] + [Surfacing("1", false)] == [Surfacing("1", false)] && {} + {"1"} == {"1"};
      assert AfterForget(["1"] + [], "1") == [];
    }
    assert s.wires[1].up + [] == [];
  }

  lemma SecondConsumed(s: World)
    requires s.check == AcceptAll() && 1 in s.procs && 1 in s.wires && 1 in s.broker.links
    requires s.procs[1] == NewProc("b").(conn := Some(1), taken := [Surfacing("1", false)], refused := {"1"})
    requires s.wires[1] == Endpoint(1, 1, [], 0) && |s.broker.links[1].sent| == 2
    requires s.broker.links[1].sent[1] == Delivery("2", Direct("2"))
    ensures Play(s, Receive(1, true, true))
         == s.(procs := s.procs[1 := Proc("b", TOKEN, 2, ["2"], Some(1), [Surfacing("1", false), Surfacing("2", true)], ["2"], ["2"], {"1"})],
               wires := s.wires[1 := Endpoint(1, 2, [AckFrame("2")], 0)],
               handed := s.handed + {("b", Direct("2"))})
  {
    var p := s.procs[1];
    assert Surfaced(p, "2", "2", true)
        == Proc("b", TOKEN, 2, ["2"], Some(1), [Surfacing("1", false), Surfacing("2", true)], ["2"], ["2"], {"1"}) by {
      assert [Surfacing("1", false)] + [Surfacing("2", true)] == [Surfacing("1", false), Surfacing("2", true)];
      assert ["2"] + [] == ["2"] && [] + ["2"] == ["2"];
    }
    assert s.wires[1].up + [AckFrame("2")] == [AckFrame("2")];
  }

  lemma SortedOne<T(!new)>(lt: (T, T) -> bool, x: T)
    requires !lt(x, x)
    ensures Sorted(lt, {x}) == [x]
  {
    SortedInOrder(lt, {x});
    InOrderUnique(lt, {x}, Sorted(lt, {x}), [x]);
  }

  /** What the broker has to flush when b registers again. */
  lemma RefusedIsRequeued(s: World)
    requires OneRefused(s)
    ensures var w := Welcomed(s.broker, "b", TOKEN);
      && "1" in w.tables.messages && w.tables.messages["1"] == DirectRow("1", false, 0).(delivered := false)
      && Drain(w.tables, "b") == ["1"]
  {
    var t := Welcomed(s.broker, "b", TOKEN).tables;
    assert t.messages == map["1" := DirectRow("1", false, 0).(delivered := false), "2" := DirectRow("2", true, 1)];
    assert Pending(t, "b") == {"1"};
    StrLessIsStrictOrder("a", "", "");
    assert !RowBefore(t.messages["1"], t.messages["1"]);
    SortedOne(DrainLess(t.messages), "1");
  }

  lemma Reconnect(s: World)
    requires OneRefused(s)
    ensures var s' := Play(s, Connect(1, true, 1, true));
      && s'.check == s.check && 1 in s'.procs && s'.procs[1] == s.procs[1].(conn := Some(2))
      && 2 in s'.wires && s'.wires[2] == Endpoint(1, 0, [], 0)
      && 2 in s'.broker.links && s'.broker.links[2].sent == [Delivery("1", Direct("1"))]
  {
    var b, hello := s.broker, HelloOf(s.procs[1]);
    var w := Welcomed(b, "b", TOKEN);
    RefusedIsRequeued(s);
    assert Handshake(b, hello, true, 1) == Flush(w, 2, "b", ["1"], 1);
    assert ["1"][1..] == [];
    assert Flush(w, 2, "b", ["1"], 1) == Push(w, 2, "b", "1", true);
    assert [] + [Delivery("1", Direct("1"))] == [Delivery("1", Direct("1"))];
  }

  lemma LateConsumed(s: World)
    requires s.check == AcceptAll() && 1 in s.procs && 2 in s.wires && 2 in s.broker.links
    requires s.procs[1] == Proc("b", TOKEN, 2, ["2"], Some(2), [Surfacing("1", false), Surfacing("2", true)], ["2"], ["2"], {"1"})
    requires s.wires[2] == Endpoint(1, 0, [], 0) && s.broker.links[2].sent == [Delivery("1", Direct("1"))]
    ensures var s' := Play(s, Receive(1, true, true));
      1 in s'.procs && s'.procs[1].wins == ["2", "1"] && s'.procs[1].firsts == ["2", "1"] && s'.procs[1].refused == {"1"}
  {
    assert ["2"] + ["1"] == ["2", "1"];
  }

  /** Two messages of a's: b refuses the first, consumes the second, loses its link, reconnects
      and consumes the first. Order is inverted, and the late id is the refused one. */
  lemma RefusedComesLate() returns (moves: seq<Move>)
    ensures var s := PlayAll(Beginning(), moves); var m := s.broker.tables.messages;
      && 1 in s.procs && s.procs[1].firsts == ["2", "1"] && s.procs[1].refused == {"1"}
      && "1" in m && m["1"].from == "a" && m["1"].number == 0
      && "2" in m && m["2"].from == "a" && m["2"].number == 1
  {
    var s0 := Beginning();
    var sent := WriteTwo();
    var refusing := [Receive(1, false, true), Receive(1, true, true), RouteNext(1, {}), Drop(1)];
    var s1 := PlayAll(s0, sent);
    RefuseOne(s1);
    PlayAllConcat(s0, sent, refusing);
    moves := sent + refusing;
    var s2 := PlayAll(s0, moves);
    PlayAllSnoc(s0, moves, Connect(1, true, 1, true));
    Reconnect(s2);
    PlayEvolves(s2, Connect(1, true, 1, true));
    moves := moves + [Connect(1, true, 1, true)];
    var s3 := PlayAll(s0, moves);
    PlayAllSnoc(s0, moves, Receive(1, true, true));
    LateConsumed(s3);
    PlayEvolves(s3, Receive(1, true, true));
    moves := moves + [Receive(1, true, true)];
    RowKept(s2, s3, "1");
    RowKept(s2, s3, "2");
    RowKept(s3, PlayAll(s0, moves), "1");
    RowKept(s3, PlayAll(s0, moves), "2");
  }

  lemma RowKept(s: World, s': World, k: string)
    requires Evolves(s.broker.tables, s'.broker.tables) && k in s.broker.tables.messages
    ensures k in s'.broker.tables.messages && SameMessage(s.broker.tables.messages[k], s'.broker.tables.messages[k])
  {
  }

  lemma {:induction false} PlayAllConcat(s: World, first: seq<Move>, second: seq<Move>)
    ensures PlayAll(s, first + second) == PlayAll(PlayAll(s, first), second)
    decreases |first|
  {
    if first == [] {
      assert first + second == second;
    } else {
      assert (first + second)[0] == first[0] && (first + second)[1..] == first[1..] + second;
      PlayAllConcat(Play(s, first[0]), first[1..], second);
    }
  }

  // ------------------------------------------------------------ a row acked unconsumed

  function Copied(): Envelope { Message("m", "a", "*", KIND_BROADCAST) }

  /** b has been written a direct message and a copy of a broadcast, both under the id m. */
  ghost predicate SameIdTwice(s: World) {
    && s.check == AcceptAll() && s.handed == {} && 1 in s.procs && s.procs[1] == NewProc("b").(conn := Some(1))
    && 1 in s.wires && s.wires[1] == Endpoint(1, 0, [], 0)
    && "m" in s.broker.tables.messages && CopyKey("m", "b") in s.broker.tables.messages
    && s.broker.tables.messages[CopyKey("m", "b")].to == "b" && s.broker.tables.messages[CopyKey("m", "b")].envelope == Copied()
    && 1 in s.broker.links && s.broker.links[1].serving
    && s.broker.links[1].sent == [Delivery("m", Direct("m")), Delivery(CopyKey("m", "b"), Copied())]
  }

  /** The broker reads a broadcast while a and b are connected. */
  lemma RouteCopy(s: World)
    requires 0 in s.wires && s.wires[0].routed < |s.wires[0].up| && s.wires[0].up[s.wires[0].routed] == EnvelopeFrame(Copied())
    requires 0 in s.broker.links && s.broker.links[0].serving && s.broker.links[0].name == "a"
    requires s.broker.registry.Keys == {"a", "b"} && s.broker.registry["b"].conn == 1
    requires 1 in s.broker.links && !s.broker.links[1].broken && "b" in s.broker.tables.peers
    requires CopyKey("m", "b") !in s.broker.tables.messages
    ensures var s', k := Play(s, RouteNext(0, {"b"})), CopyKey("m", "b");
      && s' == s.(broker := s'.broker, wires := s'.wires) && (1 in s.wires ==> s'.wires[1] == s.wires[1])
      && s'.broker.tables.messages == s.broker.tables.messages[k := Row("a", "b", Copied(), true, false, 1, NextSeq(s.broker.tables, "a"))]
      && s'.broker.links == s.broker.links[1 := s.broker.links[1].(sent := s.broker.links[1].sent + [Delivery(k, Copied())])]
  {
    RouteNextIs(s, 0, {"b"}, Route(0, EnvelopeFrame(Copied()), {"b"}));
    SortedNames();
    var b, env := s.broker, Copied();
    assert ["a", "b"][1..] == ["b"] && ["b"][1..] == [];
    assert FanOut(b, "a", env, ["a", "b"], {"b"}) == FanOut(b, "a", env, ["b"], {"b"});
    assert FanOut(b, "a", env, ["b"], {"b"}) == Submit(b, CopyKey("m", "b"), "a", "b", env, true);
  }

  lemma SortedNames()
    ensures Sorted(StrLess, {"a", "b"}) == ["a", "b"]
  {
    SortedNamesAre({"a", "b"});
    NamesTotal({"a", "b"});
    assert InOrder(StrLess, {"a", "b"}, ["a", "b"]);
    InOrderUnique(StrLess, {"a", "b"}, Sorted(StrLess, {"a", "b"}), ["a", "b"]);
  }

  lemma WriteSameId() returns (moves: seq<Move>)
    ensures SameIdTwice(PlayAll(Beginning(), moves))
  {
    var s0 := Beginning();
    moves := GetReady();
    moves := SendAndRoute(s0, moves, "m");
    PlayAllSnoc(s0, moves, Bus.Send(0, Copied()));
    moves := moves + [Bus.Send(0, Copied())];
    PlayAllSnoc(s0, moves, RouteNext(0, {"b"}));
    RouteCopy(PlayAll(s0, moves));
    moves := moves + [RouteNext(0, {"b"})];
  }

  lemma BothAcked(s: World)
    requires SameIdTwice(s)
    ensures var s' := PlayAll(s, [Receive(1, true, true), Receive(1, false, true), RouteNext(1, {}), RouteNext(1, {})]);
      var k := CopyKey("m", "b"); var m := s'.broker.tables.messages;
      && s'.handed == {("b", Direct("m"))}
      && k in m && m[k].acked && m[k].to == "b" && m[k].envelope == Copied()
  {
    var k := CopyKey("m", "b");
    var s1 := Play(s, Receive(1, true, true));
    DirectConsumed(s);
    var s2 := Play(s1, Receive(1, false, true));
    CopySuppressed(s1);
    var s3 := Play(s2, RouteNext(1, {}));
    RouteAck(s2, 1, "m");
    RouteAck(s3, 1, k);
    PlayFour(s, Receive(1, true, true), Receive(1, false, true), RouteNext(1, {}), RouteNext(1, {}));
  }

  lemma DirectConsumed(s: World)
    requires SameIdTwice(s)
    ensures var s' := Play(s, Receive(1, true, true));
      && s' == s.(procs := s'.procs, wires := s.wires[1 := Endpoint(1, 1, [AckFrame("m")], 0)], handed := {("b", Direct("m"))})
      && 1 in s'.procs && s'.procs[1].name == "b" && s'.procs[1].conn == Some(1) && s'.procs[1].cache == ["m"]
  {
    assert ["m"] + [] == ["m"];
    assert s.wires[1].up + [AckFrame("m")] == [AckFrame("m")];
  }

  lemma CopySuppressed(s: World)
    requires s.check == AcceptAll() && 1 in s.procs && s.procs[1].name == "b" && s.procs[1].conn == Some(1) && s.procs[1].cache == ["m"]
    requires 1 in s.wires && s.wires[1] == Endpoint(1, 1, [AckFrame("m")], 0)
    requires 1 in s.broker.links && |s.broker.links[1].sent| == 2
    requires s.broker.links[1].sent[1] == Delivery(CopyKey("m", "b"), Copied())
    ensures var s' := Play(s, Receive(1, false, true));
      s' == s.(procs := s'.procs, wires := s.wires[1 := Endpoint(1, 2, [AckFrame("m"), AckFrame(CopyKey("m", "b"))], 0)])
  {
    assert [AckFrame("m")] + [AckFrame(CopyKey("m", "b"))] == [AckFrame("m"), AckFrame(CopyKey("m", "b"))];
  }

  /** a sends b a message and then broadcasts under the same id. b's host consumes the message;
      the copy is suppressed as a repeat, though the host would refuse it, and acked, and its
      envelope is never handed over. */
  lemma SuppressedIsAcked() returns (moves: seq<Move>)
    ensures var s := PlayAll(Beginning(), moves); var k := CopyKey("m", "b"); var m := s.broker.tables.messages;
      && k in m && m[k].acked && m[k].to == "b" && m[k].envelope == Copied()
      && ("b", Copied()) !in s.handed && s.handed == {("b", Direct("m"))}
  {
    var written := WriteSameId();
    var reading := [Receive(1, true, true), Receive(1, false, true), RouteNext(1, {}), RouteNext(1, {})];
    BothAcked(PlayAll(Beginning(), written));
    PlayAllConcat(Beginning(), written, reading);
    moves := written + reading;
  }
}
