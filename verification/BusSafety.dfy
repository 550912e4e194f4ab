/** Acknowledgement only after consumption, in every reachable state of the whole bus. */
module BusSafety {
  import opened Options
  import opened Envelopes
  import opened Store
  import opened Broker
  import opened BrokerSafety
  import opened BrokerHistory
  import opened BrokerGrowth
  import opened Recency
  import opened Bus

  /** The two ends of a connection fit together. */
  predicate WireOk(s: World, c: nat)
    requires c in s.wires && c in s.broker.links
  {
    && s.wires[c].rcvd <= |s.broker.links[c].sent| && s.wires[c].routed <= |s.wires[c].up|
    && s.wires[c].owner in s.procs
    && (s.broker.links[c].name != "" ==> s.broker.links[c].name == s.procs[s.wires[c].owner].name)
  }

  ghost predicate WiresOk(s: World) {
    && s.wires.Keys == s.broker.links.Keys
    && forall c {:trigger WireOk(s, c)} | c in s.wires && c in s.broker.links :: WireOk(s, c)
  }

  predicate CacheOk(p: Proc) {
    0 < p.max && Distinct(p.cache) && |p.cache| <= p.max
  }

  /** A process listens on its latest connection only. */
  ghost predicate Listens(s: World, p: nat)
    requires p in s.procs && s.wires.Keys == s.broker.links.Keys
  {
    && CacheOk(s.procs[p])
    && (s.procs[p].conn.Some? ==>
          var c := s.procs[p].conn.value;
          && c in s.wires && s.wires[c].owner == p && s.broker.links[c].name == s.procs[p].name
          && forall d | d in s.wires && s.wires[d].owner == p :: d <= c)
  }

  ghost predicate ProcsOk(s: World)
    requires WiresOk(s)
  {
    forall p {:trigger Listens(s, p)} | p in s.procs :: Listens(s, p)
  }

  ghost predicate Wired(s: World) {
    Safe(s.broker) && WiresOk(s) && ProcsOk(s)
  }

  /** Row k of the peer carries the id, passes its verification, and was handed to its host. */
  ghost predicate Handed(s: World, name: string, id: string, k: string) {
    && k in s.broker.tables.messages && s.broker.tables.messages[k].to == name
    && s.broker.tables.messages[k].envelope.id == id && s.check(name, s.broker.tables.messages[k].envelope)
    && (name, s.broker.tables.messages[k].envelope) in s.handed
  }

  /** Some row of the peer with this envelope id was handed to its host. */
  ghost predicate HandedId(s: World, name: string, id: string) {
    exists k :: Handed(s, name, id, k)
  }

  /** Row k is addressed to `name` and passes its verification, and its id was handed over. */
  ghost predicate Consumed(s: World, name: string, k: string) {
    && k in s.broker.tables.messages && s.broker.tables.messages[k].to == name
    && s.check(name, s.broker.tables.messages[k].envelope)
    && HandedId(s, name, s.broker.tables.messages[k].envelope.id)
  }

  ghost predicate AcksHonest(s: World)
  {
    forall c, i | c in s.wires && s.wires[c].owner in s.procs && 0 <= i < |s.wires[c].up| && s.wires[c].up[i].AckFrame? ::
      Consumed(s, s.procs[s.wires[c].owner].name, s.wires[c].up[i].id)
  }

  ghost predicate CachesHonest(s: World) {
    forall p | p in s.procs ::
      && (forall x | x in s.procs[p].cache :: x in s.procs[p].wins)
      && (forall x | x in s.procs[p].wins :: HandedId(s, s.procs[p].name, x))
  }

  ghost predicate RowsHonest(s: World) {
    forall k | k in s.broker.tables.messages && s.broker.tables.messages[k].acked ::
      Consumed(s, s.broker.tables.messages[k].to, k)
  }

  ghost predicate Honest(s: World) {
    Wired(s) && AcksHonest(s) && CachesHonest(s) && RowsHonest(s)
  }

  lemma HandedStays(s: World, s': World, name: string, id: string)
    requires HandedId(s, name, id) && s'.check == s.check && s.handed <= s'.handed
    requires Evolves(s.broker.tables, s'.broker.tables)
    ensures HandedId(s', name, id)
  {
    var k :| Handed(s, name, id, k);
    assert RowEvolves(s.broker.tables.messages[k], s'.broker.tables.messages[k]);
    assert Handed(s', name, id, k);
  }

  lemma ConsumedStays(s: World, s': World, name: string, k: string)
    requires Consumed(s, name, k) && s'.check == s.check && s.handed <= s'.handed
    requires Evolves(s.broker.tables, s'.broker.tables)
    ensures Consumed(s', name, k)
  {
    HandedStays(s, s', name, s.broker.tables.messages[k].envelope.id);
  }

  /** A step that consumes nothing keeps the caches honest. */
  lemma CachesStay(s: World, s': World)
    requires CachesHonest(s) && s'.check == s.check && s.handed <= s'.handed
    requires Evolves(s.broker.tables, s'.broker.tables)
    requires forall p | p in s'.procs ::
               if p in s.procs then s'.procs[p].name == s.procs[p].name && s'.procs[p].cache == s.procs[p].cache
                                    && s'.procs[p].wins == s.procs[p].wins
               else s'.procs[p].cache == [] && s'.procs[p].wins == []
    ensures CachesHonest(s')
  {
    forall p, x | p in s'.procs && x in s'.procs[p].wins ensures HandedId(s', s'.procs[p].name, x) {
      HandedStays(s, s', s.procs[p].name, x);
    }
  }

  // ------------------------------------------------------------ moves that leave the broker alone

  predicate WireMoves(s: World, s': World, c: nat)
    requires c in s.wires && c in s'.wires && c in s.broker.links
  {
    && s'.wires[c].owner == s.wires[c].owner && s'.wires[c].routed <= |s'.wires[c].up|
    && s'.wires[c].rcvd <= |s.broker.links[c].sent|
  }

  predicate ProcMoves(s: World, s': World, p: nat)
    requires p in s'.procs
  {
    && CacheOk(s'.procs[p])
    && if p in s.procs then
         s'.procs[p].name == s.procs[p].name && (s'.procs[p].conn == None || s'.procs[p].conn == s.procs[p].conn)
       else s'.procs[p].conn == None
  }

  /** s' differs from s only at the adapters' ends, within bounds. */
  ghost predicate AdapterMove(s: World, s': World)
    requires s.wires.Keys == s.broker.links.Keys
  {
    && s'.broker == s.broker && s'.check == s.check && s.handed <= s'.handed
    && s'.wires.Keys == s.wires.Keys && s.procs.Keys <= s'.procs.Keys
    && (forall c {:trigger WireMoves(s, s', c)} | c in s.wires :: WireMoves(s, s', c))
    && (forall p {:trigger ProcMoves(s, s', p)} | p in s'.procs :: ProcMoves(s, s', p))
  }

  lemma AdapterMoveWired(s: World, s': World)
    requires WiresOk(s) && ProcsOk(s) && AdapterMove(s, s')
    ensures WiresOk(s') && ProcsOk(s')
  {
    forall c | c in s'.wires ensures WireOk(s', c) {
      assert WireOk(s, c) && WireMoves(s, s', c) && ProcMoves(s, s', s.wires[c].owner);
    }
    forall p | p in s'.procs ensures Listens(s', p) {
      assert ProcMoves(s, s', p);
      if p in s.procs {
        assert Listens(s, p);
        assert s'.procs[p].conn.Some? ==> WireMoves(s, s', s'.procs[p].conn.value);
        forall d | d in s'.wires && s'.wires[d].owner == p ensures s.wires[d].owner == p {
          assert WireMoves(s, s', d);
        }
      }
    }
  }

  lemma AdapterMoveRows(s: World, s': World)
    requires RowsHonest(s) && s'.broker == s.broker && s'.check == s.check && s.handed <= s'.handed
    ensures RowsHonest(s')
  {
    EvolvesReflexive(s.broker.tables);
    forall k | k in s.broker.tables.messages && s.broker.tables.messages[k].acked
      ensures Consumed(s', s.broker.tables.messages[k].to, k)
    {
      ConsumedStays(s, s', s.broker.tables.messages[k].to, k);
    }
  }

  lemma AdapterMoveAcks(s: World, s': World)
    requires WiresOk(s) && AcksHonest(s) && AdapterMove(s, s')
    requires forall c, i | c in s.wires && s.wires[c].owner in s.procs && 0 <= i < |s'.wires[c].up| && s'.wires[c].up[i].AckFrame? ::
               || (i < |s.wires[c].up| && s'.wires[c].up[i] == s.wires[c].up[i])
               || Consumed(s', s.procs[s.wires[c].owner].name, s'.wires[c].up[i].id)
    ensures AcksHonest(s')
  {
    forall c, i | c in s'.wires && s'.wires[c].owner in s'.procs && 0 <= i < |s'.wires[c].up| && s'.wires[c].up[i].AckFrame?
      ensures Consumed(s', s'.procs[s'.wires[c].owner].name, s'.wires[c].up[i].id)
    {
      assert WireOk(s, c) && WireMoves(s, s', c) && ProcMoves(s, s', s.wires[c].owner);
      if i < |s.wires[c].up| && s'.wires[c].up[i] == s.wires[c].up[i] {
        EvolvesReflexive(s.broker.tables);
        ConsumedStays(s, s', s.procs[s.wires[c].owner].name, s.wires[c].up[i].id);
      }
    }
  }

  lemma LocalHonest(s: World, m: Move)
    requires Honest(s) && (m.Spawn? || m.Drop? || m.Send?)
    ensures Honest(Play(s, m))
  {
    var s' := Play(s, m);
    LocalIsAdapterMove(s, m);
    AdapterMoveWired(s, s');
    AdapterMoveAcks(s, s');
    AdapterMoveRows(s, s');
    EvolvesReflexive(s.broker.tables);
    CachesStay(s, s');
  }

  lemma LocalIsAdapterMove(s: World, m: Move)
    requires WiresOk(s) && ProcsOk(s) && (m.Spawn? || m.Drop? || m.Send?)
    ensures AdapterMove(s, Play(s, m))
    ensures forall c, i | c in s.wires && 0 <= i < |Play(s, m).wires[c].up| && Play(s, m).wires[c].up[i].AckFrame? ::
              i < |s.wires[c].up| && Play(s, m).wires[c].up[i] == s.wires[c].up[i]
  {
    match m
    case Send(pid, env) => SendIsAdapterMove(s, pid, env);
    case _ => ProcChangeIsAdapterMove(s, m);
  }

  lemma ProcChangeIsAdapterMove(s: World, m: Move)
    requires WiresOk(s) && ProcsOk(s) && (m.Spawn? || m.Drop?)
    ensures AdapterMove(s, Play(s, m)) && Play(s, m).wires == s.wires
  {
    var s' := Play(s, m);
    forall c | c in s.wires ensures WireMoves(s, s', c) {
      assert WireOk(s, c);
    }
    forall p | p in s'.procs ensures ProcMoves(s, s', p) {
      if p in s.procs { assert Listens(s, p); }
    }
  }

  lemma SendIsAdapterMove(s: World, pid: nat, env: Envelope)
    requires WiresOk(s) && ProcsOk(s)
    ensures var s' := Play(s, Bus.Send(pid, env));
      && AdapterMove(s, s')
      && forall c, i | c in s.wires && 0 <= i < |s'.wires[c].up| && s'.wires[c].up[i].AckFrame? ::
           i < |s.wires[c].up| && s'.wires[c].up[i] == s.wires[c].up[i]
  {
    var s' := Play(s, Bus.Send(pid, env));
    forall c | c in s.wires ensures WireMoves(s, s', c) {
      assert WireOk(s, c);
    }
    forall p | p in s'.procs ensures ProcMoves(s, s', p) {
      assert Listens(s, p);
    }
  }

  // ------------------------------------------------------------ receiving

  lemma SurfacedOk(p: Proc, key: string, id: string, handlerOk: bool)
    requires CacheOk(p)
    ensures CacheOk(Surfaced(p, key, id, handlerOk))
    ensures (forall x | x in p.cache :: x in p.wins) ==>
      var q := Surfaced(p, key, id, handlerOk); forall x | x in q.cache :: x in q.wins
  {
    SeenWellFormed(p.cache, p.max, id);
    WithoutDistinct(AfterSeen(p.cache, p.max, id), id);
    assert forall x | x in AfterSeen(p.cache, p.max, id) :: x == id || x in p.cache;
  }

  lemma ReceiveIsAdapterMove(s: World, pid: nat, c: nat, handlerOk: bool, ackOk: bool)
    requires WiresOk(s) && ProcsOk(s) && pid in s.procs && s.procs[pid].conn == Some(c) && c in s.wires
    ensures AdapterMove(s, Received(s, pid, c, handlerOk, ackOk))
  {
    var s' := Received(s, pid, c, handlerOk, ackOk);
    if s.wires[c].rcvd < |s.broker.links[c].sent| {
      var d := s.broker.links[c].sent[s.wires[c].rcvd];
      assert Listens(s, pid);
      SurfacedOk(s.procs[pid], d.key, d.envelope.id, handlerOk);
    }
    forall e | e in s.wires ensures WireMoves(s, s', e) {
      assert WireOk(s, e);
    }
    forall p | p in s'.procs ensures ProcMoves(s, s', p) {
      assert Listens(s, p);
    }
  }

  /** What a process surfaces is handed to its host or was before, if it acknowledges it. */
  lemma ReceiveHands(s: World, pid: nat, c: nat, handlerOk: bool, ackOk: bool)
    requires CachesHonest(s) && pid in s.procs && c in s.wires && c in s.broker.links
    requires Faithful(s.broker.tables.messages, s.broker.links[c]) && s.broker.links[c].name == s.procs[pid].name
    requires s.wires[c].rcvd < |s.broker.links[c].sent|
    ensures var d, p := s.broker.links[c].sent[s.wires[c].rcvd], s.procs[pid];
      d.key != "" && s.check(p.name, d.envelope) && Acknowledges(p, d.envelope.id, handlerOk) ==>
        Consumed(Received(s, pid, c, handlerOk, ackOk), p.name, d.key)
  {
    var d, p, s' := s.broker.links[c].sent[s.wires[c].rcvd], s.procs[pid], Received(s, pid, c, handlerOk, ackOk);
    if d.key != "" && s.check(p.name, d.envelope) {
      if d.envelope.id in p.cache {
        EvolvesReflexive(s.broker.tables);
        HandedStays(s, s', p.name, d.envelope.id);
      } else if handlerOk {
        assert Handed(s', p.name, d.envelope.id, d.key);
      }
    }
  }

  lemma ReceiveCaches(s: World, pid: nat, c: nat, handlerOk: bool, ackOk: bool)
    requires CachesHonest(s) && pid in s.procs && c in s.wires && c in s.broker.links && CacheOk(s.procs[pid])
    requires Faithful(s.broker.tables.messages, s.broker.links[c]) && s.broker.links[c].name == s.procs[pid].name
    ensures CachesHonest(Received(s, pid, c, handlerOk, ackOk))
  {
    var s' := Received(s, pid, c, handlerOk, ackOk);
    if s.wires[c].rcvd < |s.broker.links[c].sent| {
      var d := s.broker.links[c].sent[s.wires[c].rcvd];
      SurfacedOk(s.procs[pid], d.key, d.envelope.id, handlerOk);
      ReceiveHands(s, pid, c, handlerOk, ackOk);
      EvolvesReflexive(s.broker.tables);
      forall p, x | p in s'.procs && x in s'.procs[p].wins ensures HandedId(s', s'.procs[p].name, x) {
        if x in s.procs[p].wins {
          HandedStays(s, s', s.procs[p].name, x);
        }
      }
    }
  }

  lemma ReceiveAcks(s: World, pid: nat, c: nat, handlerOk: bool, ackOk: bool)
    requires WiresOk(s) && ProcsOk(s) && CachesHonest(s) && AcksHonest(s)
    requires pid in s.procs && s.procs[pid].conn == Some(c) && c in s.wires
    requires Faithful(s.broker.tables.messages, s.broker.links[c])
    ensures AcksHonest(Received(s, pid, c, handlerOk, ackOk))
  {
    var s' := Received(s, pid, c, handlerOk, ackOk);
    ReceiveIsAdapterMove(s, pid, c, handlerOk, ackOk);
    assert Listens(s, pid);
    if s.wires[c].rcvd < |s.broker.links[c].sent| {
      ReceiveHands(s, pid, c, handlerOk, ackOk);
    }
    AdapterMoveAcks(s, s');
  }

  /** The acknowledgement a process writes is for a message its host has consumed. */
  lemma ReceiveHonest(s: World, pid: nat, handlerOk: bool, ackOk: bool)
    requires Honest(s)
    ensures Honest(Play(s, Receive(pid, handlerOk, ackOk)))
  {
    if pid in s.procs && s.procs[pid].conn.Some? {
      var c := s.procs[pid].conn.value;
      assert Listens(s, pid);
      assert Ordered(s.broker.tables.messages, s.broker.links[c]);
      ReceiveIsAdapterMove(s, pid, c, handlerOk, ackOk);
      AdapterMoveWired(s, Received(s, pid, c, handlerOk, ackOk));
      ReceiveCaches(s, pid, c, handlerOk, ackOk);
      ReceiveAcks(s, pid, c, handlerOk, ackOk);
      AdapterMoveRows(s, Received(s, pid, c, handlerOk, ackOk));
    }
  }

  // ------------------------------------------------------------ broker moves

  /** A step of the broker that keeps every connection's past keeps the two ends together. */
  lemma BrokerMoveWired(s: World, b': State)
    requires WiresOk(s) && ProcsOk(s) && b'.links.Keys == s.broker.links.Keys
    requires forall c | c in s.broker.links :: SamePast(s.broker.links[c], b'.links[c])
    ensures WiresOk(s.(broker := b')) && ProcsOk(s.(broker := b'))
  {
    var s' := s.(broker := b');
    forall c | c in s.wires ensures WireOk(s', c) {
      assert WireOk(s, c) && SamePast(s.broker.links[c], b'.links[c]);
    }
    forall p | p in s.procs ensures Listens(s', p) {
      assert Listens(s, p);
    }
  }

  lemma BrokerMoveRows(s: World, op: Op, s': World)
    requires LinksOk(s.broker) && RowsHonest(s) && s'.broker == Apply(s.broker, op)
    requires s'.check == s.check && s'.handed == s.handed
    requires op.Route? && op.frame.AckFrame? && op.frame.id in s.broker.tables.messages ==>
               Consumed(s, s.broker.tables.messages[op.frame.id].to, op.frame.id)
    ensures RowsHonest(s')
  {
    ApplyFollows(s.broker, op);
    ApplyCarries(s.broker, op);
    forall k | k in s'.broker.tables.messages && s'.broker.tables.messages[k].acked
      ensures Consumed(s', s'.broker.tables.messages[k].to, k)
    {
      assert k in s.broker.tables.messages;
      assert RowEvolves(s.broker.tables.messages[k], s'.broker.tables.messages[k]);
      ConsumedStays(s, s', s.broker.tables.messages[k].to, k);
    }
  }

  lemma BrokerMoveAcks(s: World, s': World)
    requires AcksHonest(s) && s'.check == s.check && s'.handed == s.handed
    requires Evolves(s.broker.tables, s'.broker.tables)
    requires forall c | c in s'.wires :: (c in s.wires && s'.wires[c].up == s.wires[c].up
               && s'.wires[c].owner == s.wires[c].owner) || s'.wires[c].up == []
    requires forall p | p in s'.procs :: p in s.procs && s'.procs[p].name == s.procs[p].name
    ensures AcksHonest(s')
  {
    forall c, i | c in s'.wires && s'.wires[c].owner in s'.procs && 0 <= i < |s'.wires[c].up| && s'.wires[c].up[i].AckFrame?
      ensures Consumed(s', s'.procs[s'.wires[c].owner].name, s'.wires[c].up[i].id)
    {
      ConsumedStays(s, s', s.procs[s.wires[c].owner].name, s.wires[c].up[i].id);
    }
  }

  lemma BrokerMoveHonest(s: World, op: Op)
    requires Honest(s) && !op.Accept?
    requires op.Route? && op.frame.AckFrame? && op.frame.id in s.broker.tables.messages ==>
               Consumed(s, s.broker.tables.messages[op.frame.id].to, op.frame.id)
    ensures Honest(s.(broker := Apply(s.broker, op)))
  {
    var s' := s.(broker := Apply(s.broker, op));
    ApplySafe(s.broker, op);
    StepSameLinks(s.broker, op);
    ApplyCarries(s.broker, op);
    ApplyFollows(s.broker, op);
    BrokerMoveWired(s, s'.broker);
    BrokerMoveRows(s, op, s');
    BrokerMoveAcks(s, s');
    CachesStay(s, s');
  }

  lemma NextFrameHonest(s: World, c: nat)
    requires WiresOk(s) && AcksHonest(s) && c in s.wires && s.wires[c].routed < |s.wires[c].up|
    ensures var frame := s.wires[c].up[s.wires[c].routed];
      frame.AckFrame? && frame.id in s.broker.tables.messages ==>
        Consumed(s, s.broker.tables.messages[frame.id].to, frame.id)
  {
    assert WireOk(s, c);
  }

  lemma RouteNextIs(s: World, c: nat, up: set<string>, op: Op)
    requires c in s.wires && s.wires[c].routed < |s.wires[c].up|
    requires op == Route(c, s.wires[c].up[s.wires[c].routed], up)
    ensures Play(s, RouteNext(c, up))
         == s.(broker := Apply(s.broker, op), wires := s.wires[c := s.wires[c].(routed := s.wires[c].routed + 1)])
  {
  }

  lemma RouteNextHonest(s: World, c: nat, up: set<string>)
    requires Honest(s)
    ensures Honest(Play(s, RouteNext(c, up)))
  {
    if c in s.wires && s.wires[c].routed < |s.wires[c].up| {
      var op := Route(c, s.wires[c].up[s.wires[c].routed], up);
      NextFrameHonest(s, c);
      BrokerMoveHonest(s, op);
      RouteNextIs(s, c, up, op);
      AdvanceRouted(s, Apply(s.broker, op), c);
    }
  }

  lemma AdvanceRouted(s0: World, b: State, c: nat)
    requires Honest(s0.(broker := b)) && c in s0.wires && s0.wires[c].routed < |s0.wires[c].up|
    ensures Honest(s0.(broker := b, wires := s0.wires[c := s0.wires[c].(routed := s0.wires[c].routed + 1)]))
  {
    var s := s0.(broker := b);
    var s' := s.(wires := s.wires[c := s.wires[c].(routed := s.wires[c].routed + 1)]);
    AdvanceIsAdapterMove(s, s', c);
    AdapterMoveWired(s, s');
    AdapterMoveAcks(s, s');
    AdapterMoveRows(s, s');
    EvolvesReflexive(b.tables);
    CachesStay(s, s');
  }

  lemma AdvanceIsAdapterMove(s: World, s': World, c: nat)
    requires WiresOk(s) && ProcsOk(s) && c in s.wires && s.wires[c].routed < |s.wires[c].up|
    requires s' == s.(wires := s.wires[c := s.wires[c].(routed := s.wires[c].routed + 1)])
    ensures AdapterMove(s, s')
  {
    forall e | e in s.wires ensures WireMoves(s, s', e) {
      assert WireOk(s, e);
    }
    forall p | p in s'.procs ensures ProcMoves(s, s', p) {
      assert Listens(s, p);
    }
  }

  // ------------------------------------------------------------ connecting

  lemma ConnectWired(s: World, pid: nat, ackOk: bool, written: nat, heard: bool)
    requires LinksOk(s.broker) && WiresOk(s) && ProcsOk(s) && pid in s.procs && s.procs[pid].conn == None
    ensures WiresOk(Connected(s, pid, ackOk, written, heard)) && ProcsOk(Connected(s, pid, ackOk, written, heard))
  {
    var s' := Connected(s, pid, ackOk, written, heard);
    var hello := HelloOf(s.procs[pid]);
    ApplyCarries(s.broker, Accept(hello, ackOk, written));
    AdmittedLink(s.broker, hello, ackOk, written);
    forall c | c in s'.wires ensures WireOk(s', c) {
      if c in s.wires {
        assert WireOk(s, c) && SamePast(s.broker.links[c], s'.broker.links[c]);
      }
    }
    ConnectListens(s, pid, ackOk, written, heard);
  }

  lemma ConnectListens(s: World, pid: nat, ackOk: bool, written: nat, heard: bool)
    requires LinksOk(s.broker) && WiresOk(s) && ProcsOk(s) && pid in s.procs && s.procs[pid].conn == None
    requires s.broker.links.Keys + {s.broker.accepted} == Connected(s, pid, ackOk, written, heard).broker.links.Keys
    ensures var s' := Connected(s, pid, ackOk, written, heard); forall p | p in s'.procs :: Listens(s', p)
  {
    var s' := Connected(s, pid, ackOk, written, heard);
    var hello := HelloOf(s.procs[pid]);
    ApplyCarries(s.broker, Accept(hello, ackOk, written));
    AdmittedLink(s.broker, hello, ackOk, written);
    forall p | p in s'.procs ensures Listens(s', p) {
      assert Listens(s, p);
      assert forall d | d in s.wires :: d < s.broker.accepted;
    }
  }

  lemma ConnectHonest(s: World, pid: nat, ackOk: bool, written: nat, heard: bool)
    requires Honest(s) && pid in s.procs && s.procs[pid].conn == None
    ensures Honest(Connected(s, pid, ackOk, written, heard))
  {
    var s' := Connected(s, pid, ackOk, written, heard);
    var op := Accept(HelloOf(s.procs[pid]), ackOk, written);
    ApplySafe(s.broker, op);
    ConnectWired(s, pid, ackOk, written, heard);
    ApplyFollows(s.broker, op);
    BrokerMoveRows(s, op, s');
    BrokerMoveAcks(s, s');
    CachesStay(s, s');
  }

  lemma EvolvesReflexive(t: Tables)
    ensures Evolves(t, t)
  {
  }

  /** Every move keeps acknowledgements honest. */
  lemma PlayHonest(s: World, m: Move)
    requires Honest(s)
    ensures Honest(Play(s, m))
  {
    match m
    case Connect(pid, ackOk, written, heard) =>
      if pid in s.procs && s.procs[pid].conn == None {
        ConnectHonest(s, pid, ackOk, written, heard);
      }
    case Receive(pid, handlerOk, ackOk) => ReceiveHonest(s, pid, handlerOk, ackOk);
    case RouteNext(c, up) => RouteNextHonest(s, c, up);
    case BreakLink(c) => BrokerMoveHonest(s, Break(c));
    case ServeEnds(c) => BrokerMoveHonest(s, Hangup(c));
    case Deregister(c) => BrokerMoveHonest(s, Leave(c));
    case RestartBroker => BrokerMoveHonest(s, Restart);
    case _ => LocalHonest(s, m);
  }

  lemma {:induction false} PlayAllHonest(s: World, moves: seq<Move>)
    requires Honest(s)
    ensures Honest(PlayAll(s, moves))
    decreases |moves|
  {
    if moves != [] {
      PlayHonest(s, moves[0]);
      PlayAllHonest(Play(s, moves[0]), moves[1..]);
    }
  }

  lemma PlayEvolves(s: World, m: Move)
    ensures Evolves(s.broker.tables, Play(s, m).broker.tables)
  {
    EvolvesReflexive(s.broker.tables);
    match m
    case Connect(pid, ackOk, written, heard) =>
      if pid in s.procs { ApplyFollows(s.broker, Accept(HelloOf(s.procs[pid]), ackOk, written)); }
    case RouteNext(c, up) =>
      if c in s.wires && s.wires[c].routed < |s.wires[c].up| {
        ApplyFollows(s.broker, Route(c, s.wires[c].up[s.wires[c].routed], up));
      }
    case BreakLink(c) => ApplyFollows(s.broker, Break(c));
    case ServeEnds(c) => ApplyFollows(s.broker, Hangup(c));
    case Deregister(c) => ApplyFollows(s.broker, Leave(c));
    case RestartBroker => ApplyFollows(s.broker, Restart);
    case _ =>
  }

  lemma {:induction false} PlayAllEvolves(s: World, moves: seq<Move>)
    ensures Evolves(s.broker.tables, PlayAll(s, moves).broker.tables)
    decreases |moves|
  {
    if moves == [] {
      EvolvesReflexive(s.broker.tables);
    } else {
      PlayEvolves(s, moves[0]);
      PlayAllEvolves(Play(s, moves[0]), moves[1..]);
      EvolvesTransitive(s.broker.tables, Play(s, moves[0]).broker.tables, PlayAll(s, moves).broker.tables);
    }
  }

  /** In every run of the bus an accepted row is never lost or altered later; it is acked only
      once its own verified envelope was handed to a host of its recipient, or that of another
      row of the same peer with the same envelope id; and as long as it is not both delivered
      and acked, the next requeue puts it in the drain. */
  lemma NoLossAckAfterConsume(check: (string, Envelope) -> bool, tokens: set<string>,
                              before: seq<Move>, after: seq<Move>, k: string)
    requires k in PlayAll(Start(check, tokens), before).broker.tables.messages
    ensures var s := PlayAll(Start(check, tokens), before); var s' := PlayAll(s, after);
      var row, t' := s.broker.tables.messages[k], s'.broker.tables;
      && k in t'.messages && SameMessage(row, t'.messages[k])
      && (t'.messages[k].acked ==>
            && check(row.to, row.envelope)
            && ((row.to, row.envelope) in s'.handed || HandedInstead(s', k)))
      && (!Settled(t'.messages[k]) ==> k in Drain(Requeued(t', row.to), row.to))
  {
    var s0 := Start(check, tokens);
    var s := PlayAll(s0, before);
    var s' := PlayAll(s, after);
    PlayAllHonest(s0, before);
    PlayAllHonest(s, after);
    PlayAllEvolves(s, after);
    PlayAllCheck(s0, before);
    PlayAllCheck(s, after);
    assert RowEvolves(s.broker.tables.messages[k], s'.broker.tables.messages[k]);
    UnsettledIsDrained(s'.broker.tables, k);
    if s'.broker.tables.messages[k].acked {
      assert Consumed(s', s.broker.tables.messages[k].to, k);
      HandedRow(s', k);
    }
  }

  /** Another row of the same peer carries the envelope id of row k and was handed over. */
  ghost predicate HandedInstead(s: World, k: string)
    requires k in s.broker.tables.messages
  {
    var row := s.broker.tables.messages[k];
    exists j :: j != k && Handed(s, row.to, row.envelope.id, j)
  }

  lemma HandedRow(s: World, k: string)
    requires k in s.broker.tables.messages && Consumed(s, s.broker.tables.messages[k].to, k)
    ensures var row := s.broker.tables.messages[k]; (row.to, row.envelope) in s.handed || HandedInstead(s, k)
  {
    var row := s.broker.tables.messages[k];
    var j :| Handed(s, row.to, row.envelope.id, j);
    assert j != k ==> HandedInstead(s, k);
  }

  /** The only row of its peer with its envelope id. */
  ghost predicate OnlyCarrier(t: Tables, k: string)
    requires k in t.messages
  {
    forall j | j in t.messages && t.messages[j].to == t.messages[k].to
               && t.messages[j].envelope.id == t.messages[k].envelope.id :: j == k
  }

  /** A row whose envelope id no other row of its peer carries is acked only after its own
      envelope was handed to its recipient's host. */
  lemma AckedOnlyAfterHanded(check: (string, Envelope) -> bool, tokens: set<string>, moves: seq<Move>, k: string)
    requires var t := PlayAll(Start(check, tokens), moves).broker.tables;
      k in t.messages && t.messages[k].acked && OnlyCarrier(t, k)
    ensures var s := PlayAll(Start(check, tokens), moves); var row := s.broker.tables.messages[k];
      check(row.to, row.envelope) && (row.to, row.envelope) in s.handed
  {
    NoLossAckAfterConsume(check, tokens, moves, [], k);
  }

  lemma UnsettledIsDrained(t: Tables, k: string)
    requires Numbered(t) && k in t.messages
    ensures var name := t.messages[k].to; !Settled(t.messages[k]) ==> k in Drain(Requeued(t, name), name)
  {
    var name := t.messages[k].to;
    var u := Requeued(t, name);
    RequeuedSplits(t, name);
    RequeuedKeeps(t, name);
    SameQueueNumbered(t, u);
    DrainIsFifo(u, name);
    assert !Settled(t.messages[k]) ==> k in Pending(u, name);
  }

  lemma {:induction false} PlayAllCheck(s: World, moves: seq<Move>)
    ensures PlayAll(s, moves).check == s.check
    decreases |moves|
  {
    if moves != [] {
      PlayAllCheck(Play(s, moves[0]), moves[1..]);
    }
  }
}
