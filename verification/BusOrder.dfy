/** Order and multiplicity of what an adapter's host consumes, across all its connections. */
module BusOrder {
  import opened Options
  import opened Envelopes
  import opened Store
  import opened Broker
  import opened BrokerSafety
  import opened BrokerHistory
  import opened BrokerGrowth
  import opened Recency
  import opened Bus
  import opened BusSafety

  // ------------------------------------------------------------ what the invariant says

  /** Every verified frame the process has received was consumed or refused by its host. */
  ghost predicate TookAll(s: World, p: nat)
    requires p in s.procs && WiresOk(s)
  {
    forall c, i | c in s.wires && s.wires[c].owner == p && 0 <= i < s.wires[c].rcvd && i < |s.broker.links[c].sent|
                  && s.check(s.procs[p].name, s.broker.links[c].sent[i].envelope) ::
      SeenBy(s.procs[p], s.broker.links[c].sent[i].envelope.id)
  }

  predicate SeenBy(p: Proc, id: string) { id in p.wins || id in p.refused }

  ghost predicate ReceivedKey(s: World, p: nat, k: string)
    requires s.wires.Keys == s.broker.links.Keys
  {
    exists c, i :: c in s.wires && s.wires[c].owner == p && 0 <= i < s.wires[c].rcvd && i < |s.broker.links[c].sent|
                   && s.broker.links[c].sent[i].key == k
  }

  /** The first occurrence of each element. */
  function Firsts(q: seq<string>): seq<string>
    decreases |q|
  {
    if q == [] then []
    else if q[|q| - 1] in q[..|q| - 1] then Firsts(q[..|q| - 1])
    else Firsts(q[..|q| - 1]) + [q[|q| - 1]]
  }

  /** firsts names, in order, the rows whose envelopes were consumed for the first time. */
  ghost predicate FirstsNamed(s: World, p: nat)
    requires p in s.procs && WiresOk(s)
  {
    var q, m := s.procs[p].firsts, s.broker.tables.messages;
    && |q| == |Firsts(s.procs[p].wins)|
    && forall i | 0 <= i < |q| ::
         && q[i] in m && m[q[i]].envelope.id == Firsts(s.procs[p].wins)[i]
         && s.check(s.procs[p].name, m[q[i]].envelope) && ReceivedKey(s, p, q[i])
  }

  /** Rows of one sender appear in the order their messages were accepted, but for those whose
      id was once refused. */
  ghost predicate SenderOrder(m: map<string, Row>, q: seq<string>, refused: set<string>) {
    forall i, j | 0 <= i < j < |q| && q[i] in m && q[j] in m && m[q[i]].from == m[q[j]].from ::
      m[q[i]].number < m[q[j]].number || m[q[j]].envelope.id in refused
  }

  ghost predicate Orderly(s: World, p: nat)
    requires p in s.procs && WiresOk(s)
  {
    && FirstsNamed(s, p) && TookAll(s, p)
    && SenderOrder(s.broker.tables.messages, s.procs[p].firsts, s.procs[p].refused)
  }

  ghost predicate AllOrderly(s: World)
    requires WiresOk(s)
  {
    forall p {:trigger Orderly(s, p)} | p in s.procs :: Orderly(s, p)
  }

  // ------------------------------------------------------------ steps that do not receive

  /** The process's own history is untouched and its connections only grew. */
  ghost predicate Undisturbed(s: World, s': World, p: nat)
    requires p in s.procs && p in s'.procs && WiresOk(s) && WiresOk(s')
  {
    && s'.check == s.check && Evolves(s.broker.tables, s'.broker.tables)
    && s'.procs[p].name == s.procs[p].name && s'.procs[p].wins == s.procs[p].wins
    && s'.procs[p].firsts == s.procs[p].firsts && s'.procs[p].refused == s.procs[p].refused
    && s'.procs[p].taken == s.procs[p].taken
    && s'.procs[p].cache == s.procs[p].cache && s'.procs[p].max == s.procs[p].max
    && (forall c | c in s.wires :: c in s'.wires && s'.wires[c].rcvd == s.wires[c].rcvd
          && s'.wires[c].owner == s.wires[c].owner && s.broker.links[c].sent <= s'.broker.links[c].sent)
    && (forall c | c in s'.wires && c !in s.wires :: s'.wires[c].rcvd == 0)
  }

  lemma UndisturbedInOrder(s: World, s': World, p: nat)
    requires p in s.procs && p in s'.procs && WiresOk(s) && WiresOk(s')
    requires Undisturbed(s, s', p) && Orderly(s, p)
    ensures Orderly(s', p)
  {
    var q, m, m' := s.procs[p].firsts, s.broker.tables.messages, s'.broker.tables.messages;
    forall i | 0 <= i < |q| ensures RowEvolves(m[q[i]], m'[q[i]]) && ReceivedKey(s', p, q[i]) {
      ReceivedStays(s, s', p, q[i]);
    }
    assert FirstsNamed(s', p);
    forall c, i | c in s'.wires && s'.wires[c].owner == p && 0 <= i < s'.wires[c].rcvd && i < |s'.broker.links[c].sent|
                  && s'.check(s'.procs[p].name, s'.broker.links[c].sent[i].envelope)
      ensures SeenBy(s'.procs[p], s'.broker.links[c].sent[i].envelope.id)
    {
      assert c in s.wires && WireOk(s, c);
      assert s'.broker.links[c].sent[i] == s.broker.links[c].sent[i];
    }
  }

  lemma ReceivedStays(s: World, s': World, p: nat, k: string)
    requires p in s.procs && p in s'.procs && WiresOk(s) && WiresOk(s') && Undisturbed(s, s', p)
    requires ReceivedKey(s, p, k)
    ensures ReceivedKey(s', p, k)
  {
  }

  // ------------------------------------------------------------ receiving

  /** A message neither consumed nor refused before comes after everything of its sender consumed
      before: otherwise the connection that carried the later one would have carried it too. */
  lemma NothingOvertaken(s: World, p: nat, c: nat, k: string)
    requires Honest(s) && p in s.procs && s.procs[p].conn == Some(c) && c in s.wires
    requires TookAll(s, p) && FirstsNamed(s, p)
    requires s.wires[c].rcvd < |s.broker.links[c].sent|
    requires var d := s.broker.links[c].sent[s.wires[c].rcvd];
      s.check(s.procs[p].name, d.envelope) && !SeenBy(s.procs[p], d.envelope.id)
    requires k in s.procs[p].firsts
    ensures var m := s.broker.tables.messages; var key := s.broker.links[c].sent[s.wires[c].rcvd].key;
      key in m && k in m && (m[k].from == m[key].from ==> m[k].number < m[key].number)
  {
    var m := s.broker.tables.messages;
    var l := s.broker.links[c];
    var d := l.sent[s.wires[c].rcvd];
    assert Listens(s, p) && Ordered(m, l);
    assert d.key in m && m[d.key].envelope == d.envelope && m[d.key].to == l.name && d.key !in l.settled;
    var n :| 0 <= n < |s.procs[p].firsts| && s.procs[p].firsts[n] == k;
    assert ReceivedKey(s, p, k);
    var e, i :| e in s.wires && s.wires[e].owner == p && 0 <= i < s.wires[e].rcvd && i < |s.broker.links[e].sent|
                && s.broker.links[e].sent[i].key == k;
    assert WireOk(s, e) && Ordered(m, s.broker.links[e]);
    Earlier(s, p, c, e, i);
  }

  /** The same, for the connection e on which k arrived as frame i. */
  lemma Earlier(s: World, p: nat, c: nat, e: nat, i: nat)
    requires WiresOk(s) && p in s.procs && c in s.wires && e in s.wires && e <= c
    requires s.wires[e].owner == p && i < s.wires[e].rcvd <= |s.broker.links[e].sent|
    requires s.wires[c].rcvd < |s.broker.links[c].sent| && TookAll(s, p)
    requires Numbered(s.broker.tables) && Generations(s.broker)
    requires Ordered(s.broker.tables.messages, s.broker.links[c]) && Ordered(s.broker.tables.messages, s.broker.links[e])
    requires s.broker.links[c].name == s.procs[p].name
    requires s.broker.links[e].name != "" ==> s.broker.links[e].name == s.procs[p].name
    requires var d := s.broker.links[c].sent[s.wires[c].rcvd];
      s.check(s.procs[p].name, d.envelope) && !SeenBy(s.procs[p], d.envelope.id)
    ensures var m := s.broker.tables.messages;
      var key, k := s.broker.links[c].sent[s.wires[c].rcvd].key, s.broker.links[e].sent[i].key;
      key in m && k in m && (m[k].from == m[key].from ==> m[k].number < m[key].number)
  {
    var m := s.broker.tables.messages;
    var lc, le := s.broker.links[c], s.broker.links[e];
    var d, f := lc.sent[s.wires[c].rcvd], le.sent[i];
    assert d.key in m && m[d.key].envelope == d.envelope && d.key !in lc.settled;
    assert f.key in m && m[f.key].envelope == f.envelope && m[f.key].to == le.name;
    assert le.name == lc.name;
    assert le.settled <= lc.settled;
    forall j | 0 <= j <= i ensures le.sent[j].key != d.key {
      assert m[le.sent[j].key].envelope == le.sent[j].envelope;
      assert s.check(s.procs[p].name, le.sent[j].envelope) ==> SeenBy(s.procs[p], le.sent[j].envelope.id);
    }
    assert !SentBefore(le.sent, d.key, i);
    assert !Precedes(m, d.key, le, m[f.key]);
  }

  /** A key that has just been surfaced for the first time follows its sender's earlier ones. */
  lemma ReceiverSenderOrder(s: World, p: nat, c: nat, key: string)
    requires Honest(s) && p in s.procs && Orderly(s, p) && s.procs[p].conn == Some(c) && c in s.wires
    requires s.wires[c].rcvd < |s.broker.links[c].sent|
    requires var d := s.broker.links[c].sent[s.wires[c].rcvd];
      key == d.key && s.check(s.procs[p].name, d.envelope) && d.envelope.id !in s.procs[p].wins
      && key in s.broker.tables.messages && s.broker.tables.messages[key].envelope == d.envelope
    ensures SenderOrder(s.broker.tables.messages, s.procs[p].firsts + [key], s.procs[p].refused)
  {
    var q, m := s.procs[p].firsts, s.broker.tables.messages;
    if m[key].envelope.id !in s.procs[p].refused {
      forall k | k in q ensures k in m && (m[k].from == m[key].from ==> m[k].number < m[key].number) {
        NothingOvertaken(s, p, c, k);
      }
    }
  }

  /** The surfacing process after one received frame. */
  lemma ReceiverInOrder(s: World, s': World, p: nat, c: nat, handlerOk: bool, ackOk: bool)
    requires WiresOk(s) && WiresOk(s') && CachesHonest(s) && p in s.procs && c in s.wires && s.wires[c].owner == p
    requires Orderly(s, p) && s' == Received(s, p, c, handlerOk, ackOk) && s.wires[c].rcvd < |s.broker.links[c].sent|
    requires var d := s.broker.links[c].sent[s.wires[c].rcvd];
      && d.key != "" && d.key in s.broker.tables.messages && s.broker.tables.messages[d.key].envelope == d.envelope
      && (s.check(s.procs[p].name, d.envelope) && d.envelope.id !in s.procs[p].wins ==>
            SenderOrder(s.broker.tables.messages, s.procs[p].firsts + [d.key], s.procs[p].refused))
    ensures Orderly(s', p)
  {
    ReceiverFirsts(s, s', p, c, handlerOk, ackOk);
    ReceiverTookAll(s, s', p, c, handlerOk, ackOk);
  }

  lemma ReceiverFirsts(s: World, s': World, p: nat, c: nat, handlerOk: bool, ackOk: bool)
    requires WiresOk(s) && WiresOk(s') && p in s.procs && c in s.wires && s.wires[c].owner == p && FirstsNamed(s, p)
    requires s' == Received(s, p, c, handlerOk, ackOk) && s.wires[c].rcvd < |s.broker.links[c].sent|
    requires var d := s.broker.links[c].sent[s.wires[c].rcvd];
      d.key in s.broker.tables.messages && s.broker.tables.messages[d.key].envelope == d.envelope
    ensures FirstsNamed(s', p)
  {
    var d := s.broker.links[c].sent[s.wires[c].rcvd];
    var wins := s.procs[p].wins;
    assert (wins + [d.envelope.id])[..|wins|] == wins;
    ReceiverKeys(s, s', p, c, handlerOk, ackOk);
  }

  lemma ReceiverKeys(s: World, s': World, p: nat, c: nat, handlerOk: bool, ackOk: bool)
    requires s.wires.Keys == s.broker.links.Keys && p in s.procs && c in s.wires && s.wires[c].owner == p
    requires s' == Received(s, p, c, handlerOk, ackOk) && s.wires[c].rcvd < |s.broker.links[c].sent|
    requires forall k | k in s.procs[p].firsts :: ReceivedKey(s, p, k)
    ensures forall k | k in s'.procs[p].firsts :: ReceivedKey(s', p, k)
  {
  }

  lemma ReceiverTookAll(s: World, s': World, p: nat, c: nat, handlerOk: bool, ackOk: bool)
    requires WiresOk(s) && WiresOk(s') && CachesHonest(s) && p in s.procs && c in s.wires && TookAll(s, p)
    requires s' == Received(s, p, c, handlerOk, ackOk) && s.wires[c].rcvd < |s.broker.links[c].sent|
    requires s.broker.links[c].sent[s.wires[c].rcvd].key != ""
    ensures TookAll(s', p)
  {
  }

  // ------------------------------------------------------------ every move

  lemma NextFrameRow(s: World, c: nat)
    requires Safe(s.broker) && c in s.wires && c in s.broker.links && s.wires[c].rcvd < |s.broker.links[c].sent|
    ensures var d := s.broker.links[c].sent[s.wires[c].rcvd];
      d.key != "" && d.key in s.broker.tables.messages && s.broker.tables.messages[d.key].envelope == d.envelope
  {
  }

  lemma ReceiveKeepsOrder(s: World, pid: nat, handlerOk: bool, ackOk: bool)
    requires Honest(s) && WiresOk(Play(s, Receive(pid, handlerOk, ackOk))) && AllOrderly(s)
    ensures AllOrderly(Play(s, Receive(pid, handlerOk, ackOk)))
  {
    var s' := Play(s, Receive(pid, handlerOk, ackOk));
    if s' != s {
      var c := s.procs[pid].conn.value;
      assert Listens(s, pid) && Orderly(s, pid);
      NextFrameRow(s, c);
      var d := s.broker.links[c].sent[s.wires[c].rcvd];
      if s.check(s.procs[pid].name, d.envelope) && d.envelope.id !in s.procs[pid].wins {
        ReceiverSenderOrder(s, pid, c, d.key);
      }
      ReceiverInOrder(s, s', pid, c, handlerOk, ackOk);
      forall p | p in s'.procs ensures Orderly(s', p) {
        if p != pid {
          assert Orderly(s, p);
          OtherReceiver(s, s', p, pid, c, handlerOk, ackOk);
        }
      }
    }
  }

  lemma OtherReceiver(s: World, s': World, p: nat, pid: nat, c: nat, handlerOk: bool, ackOk: bool)
    requires WiresOk(s) && WiresOk(s') && p in s.procs && pid in s.procs && p != pid
    requires c in s.wires && s.wires[c].owner == pid && s' == Received(s, pid, c, handlerOk, ackOk)
    requires Orderly(s, p)
    ensures Orderly(s', p)
  {
  }

  lemma BrokerMoveUndisturbed(s: World, s': World, op: Op, p: nat)
    requires WiresOk(s) && WiresOk(s') && LinksOk(s.broker) && p in s.procs && s'.procs == s.procs
    requires s'.broker == Apply(s.broker, op) && s'.check == s.check && s'.wires.Keys == s.wires.Keys
    requires forall c | c in s.wires :: s'.wires[c].rcvd == s.wires[c].rcvd && s'.wires[c].owner == s.wires[c].owner
    ensures Undisturbed(s, s', p)
  {
    ApplyFollows(s.broker, op);
    StepSent(s.broker, op);
  }

  lemma ConnectUndisturbed(s: World, pid: nat, ackOk: bool, written: nat, heard: bool, p: nat)
    requires WiresOk(s) && LinksOk(s.broker) && p in s.procs && pid in s.procs
    requires WiresOk(Connected(s, pid, ackOk, written, heard))
    ensures Undisturbed(s, Connected(s, pid, ackOk, written, heard), p)
  {
    var op := Accept(HelloOf(s.procs[pid]), ackOk, written);
    ApplyFollows(s.broker, op);
    StepSent(s.broker, op);
  }

  lemma LocalUndisturbed(s: World, m: Move, p: nat)
    requires WiresOk(s) && WiresOk(Play(s, m)) && p in s.procs && (m.Spawn? || m.Send? || m.Drop?)
    ensures p in Play(s, m).procs && Undisturbed(s, Play(s, m), p)
  {
  }

  lemma CloseUndisturbed(s: World, m: Move, p: nat)
    requires WiresOk(s) && WiresOk(Play(s, m)) && LinksOk(s.broker) && p in s.procs
    requires m.BreakLink? || m.ServeEnds? || m.Deregister? || m.RestartBroker?
    ensures Undisturbed(s, Play(s, m), p)
  {
    var op := match m
      case BreakLink(c) => Break(c)
      case ServeEnds(c) => Hangup(c)
      case Deregister(c) => Leave(c)
      case _ => Restart;
    BrokerMoveUndisturbed(s, Play(s, m), op, p);
  }

  /** Every move except receiving leaves each existing process's history as it was. */
  lemma OtherMovesUndisturbed(s: World, m: Move, p: nat)
    requires Honest(s) && Honest(Play(s, m)) && !m.Receive? && p in s.procs
    ensures p in Play(s, m).procs && Undisturbed(s, Play(s, m), p)
  {
    match m
    case Connect(pid, ackOk, written, heard) =>
      if pid in s.procs && s.procs[pid].conn == None {
        ConnectUndisturbed(s, pid, ackOk, written, heard, p);
      } else {
        EvolvesReflexive(s.broker.tables);
      }
    case RouteNext(c, up) =>
      if c in s.wires && s.wires[c].routed < |s.wires[c].up| {
        RouteNextUndisturbed(s, c, up, p);
      } else {
        EvolvesReflexive(s.broker.tables);
      }
    case Spawn(_, _, _, _) => LocalUndisturbed(s, m, p);
    case Send(_, _) => LocalUndisturbed(s, m, p);
    case Drop(_) => LocalUndisturbed(s, m, p);
    case _ => CloseUndisturbed(s, m, p);
  }

  lemma RouteNextUndisturbed(s: World, c: nat, up: set<string>, p: nat)
    requires WiresOk(s) && LinksOk(s.broker) && p in s.procs && WiresOk(Play(s, RouteNext(c, up)))
    requires c in s.wires && s.wires[c].routed < |s.wires[c].up|
    ensures Undisturbed(s, Play(s, RouteNext(c, up)), p)
  {
    var op := Route(c, s.wires[c].up[s.wires[c].routed], up);
    RouteNextIs(s, c, up, op);
    BrokerMoveUndisturbed(s, Play(s, RouteNext(c, up)), op, p);
  }

  lemma StepSent(b: State, op: Op)
    requires LinksOk(b)
    ensures forall c | c in b.links :: c in Apply(b, op).links && b.links[c].sent <= Apply(b, op).links[c].sent
  {
    ApplyCarries(b, op);
    assert Carries(b, Apply(b, op)) ==> forall c | c in b.links :: SamePast(b.links[c], Apply(b, op).links[c]);
  }

  lemma PlayKeepsOrder(s: World, m: Move)
    requires Honest(s) && Honest(Play(s, m)) && AllOrderly(s)
    ensures AllOrderly(Play(s, m))
  {
    match m
    case Receive(pid, handlerOk, ackOk) => ReceiveKeepsOrder(s, pid, handlerOk, ackOk);
    case _ =>
      var s' := Play(s, m);
      forall p | p in s'.procs ensures Orderly(s', p) {
        if p in s.procs {
          assert Orderly(s, p);
          OtherMovesUndisturbed(s, m, p);
          UndisturbedInOrder(s, s', p);
        } else {
          NewcomerInOrder(s, m, p);
        }
      }
  }

  lemma NewcomerInOrder(s: World, m: Move, p: nat)
    requires WiresOk(s) && WiresOk(Play(s, m)) && p !in s.procs && p in Play(s, m).procs
    ensures Orderly(Play(s, m), p)
  {
    var s' := Play(s, m);
    assert m.Spawn? && s'.wires == s.wires;
    forall c | c in s'.wires ensures s'.wires[c].owner != p {
      assert WireOk(s, c);
    }
  }

  lemma {:induction false} PlayAllKeepsOrder(s: World, moves: seq<Move>)
    requires Honest(s) && AllOrderly(s)
    ensures Honest(PlayAll(s, moves)) && AllOrderly(PlayAll(s, moves))
    decreases |moves|
  {
    if moves != [] {
      PlayHonest(s, moves[0]);
      PlayKeepsOrder(s, moves[0]);
      PlayAllKeepsOrder(Play(s, moves[0]), moves[1..]);
    }
  }

  /** Per-sender order over whole runs: whatever is dropped, taken over, restarted or
      redelivered, a process consumes each sender's messages, counting each id once, in the
      order they were accepted, except that an id its host once refused may come late. */
  lemma ConsumedInSenderOrder(check: (string, Envelope) -> bool, tokens: set<string>, moves: seq<Move>, p: nat)
    requires p in PlayAll(Start(check, tokens), moves).procs
    ensures var s := PlayAll(Start(check, tokens), moves); var q, m := s.procs[p].firsts, s.broker.tables.messages;
      && |q| == |Firsts(s.procs[p].wins)|
      && (forall i | 0 <= i < |q| :: q[i] in m && m[q[i]].envelope.id == Firsts(s.procs[p].wins)[i])
      && forall i, j | 0 <= i < j < |q| && m[q[i]].from == m[q[j]].from ::
           m[q[i]].number < m[q[j]].number || m[q[j]].envelope.id in s.procs[p].refused
  {
    var s := PlayAll(Start(check, tokens), moves);
    PlayAllKeepsOrder(Start(check, tokens), moves);
    assert Orderly(s, p);
  }
}
