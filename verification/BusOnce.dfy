/** How often a host consumes one id, over whole runs of the bus. */
module BusOnce {
  import opened Options
  import opened Envelopes
  import opened Store
  import opened Broker
  import opened BrokerSafety
  import opened Recency
  import opened Redelivery
  import opened Bus
  import opened BusSafety
  import opened BusOrder

  /** The envelope ids of all rows addressed to a peer. */
  ghost function RowIds(m: map<string, Row>, name: string): set<string> {
    set k | k in m && m[k].to == name :: m[k].envelope.id
  }

  /** The process's list and its consumptions are what its surfacings make them, and everything
      surfaced carries the id of a row of its peer. */
  ghost predicate Recorded(s: World, p: nat)
    requires p in s.procs
  {
    RecordedIn(s.procs[p], RowIds(s.broker.tables.messages, s.procs[p].name))
  }

  ghost predicate RecordedIn(q: Proc, ids: set<string>) {
    && 0 < q.max && q.cache == CacheAfter(q.max, q.taken) && q.wins == Wins(q.max, q.taken)
    && q.refused == Refusals(q.max, q.taken) && forall d | d in q.taken :: d.id in ids
  }

  lemma SurfacedRecorded(q: Proc, key: string, id: string, handlerOk: bool, ids: set<string>)
    requires RecordedIn(q, ids) && id in ids
    ensures RecordedIn(Surfaced(q, key, id, handlerOk), ids)
  {
    OneMore(q.max, q.taken, Surfacing(id, handlerOk));
  }

  ghost predicate AllRecorded(s: World) {
    forall p {:trigger Recorded(s, p)} | p in s.procs :: Recorded(s, p)
  }

  lemma UndisturbedRecorded(s: World, s': World, p: nat)
    requires p in s.procs && p in s'.procs && WiresOk(s) && WiresOk(s') && Undisturbed(s, s', p) && Recorded(s, p)
    ensures Recorded(s', p)
  {
    var m, m', name := s.broker.tables.messages, s'.broker.tables.messages, s.procs[p].name;
    forall x | x in RowIds(m, name) ensures x in RowIds(m', name) {
      var k :| k in m && m[k].to == name && m[k].envelope.id == x;
      assert RowEvolves(m[k], m'[k]);
    }
  }

  lemma ReceiveRecorded(s: World, pid: nat, handlerOk: bool, ackOk: bool)
    requires Honest(s) && AllRecorded(s)
    ensures AllRecorded(Play(s, Receive(pid, handlerOk, ackOk)))
  {
    if pid in s.procs && s.procs[pid].conn.Some? {
      var c := s.procs[pid].conn.value;
      assert Listens(s, pid);
      if s.wires[c].rcvd < |s.broker.links[c].sent| {
        NextFrameMine(s, pid, c);
      }
      AllReceiveRecorded(s, pid, c, handlerOk, ackOk);
    }
  }

  lemma AllReceiveRecorded(s: World, pid: nat, c: nat, handlerOk: bool, ackOk: bool)
    requires pid in s.procs && c in s.wires && c in s.broker.links && AllRecorded(s)
    requires s.wires[c].rcvd < |s.broker.links[c].sent| ==>
      s.broker.links[c].sent[s.wires[c].rcvd].envelope.id in RowIds(s.broker.tables.messages, s.procs[pid].name)
    ensures AllRecorded(Received(s, pid, c, handlerOk, ackOk))
  {
    assert Recorded(s, pid);
    if s.wires[c].rcvd < |s.broker.links[c].sent| {
      var d := s.broker.links[c].sent[s.wires[c].rcvd];
      SurfacedRecorded(s.procs[pid], d.key, d.envelope.id, handlerOk, RowIds(s.broker.tables.messages, s.procs[pid].name));
    }
    forall p | p in s.procs ensures Recorded(Received(s, pid, c, handlerOk, ackOk), p) {
      assert Recorded(s, p);
    }
  }

  lemma NextFrameMine(s: World, pid: nat, c: nat)
    requires Safe(s.broker) && WiresOk(s) && pid in s.procs && Listens(s, pid) && s.procs[pid].conn == Some(c)
    requires s.wires[c].rcvd < |s.broker.links[c].sent|
    ensures s.broker.links[c].sent[s.wires[c].rcvd].envelope.id in RowIds(s.broker.tables.messages, s.procs[pid].name)
  {
  }

  lemma PlayRecorded(s: World, m: Move)
    requires Honest(s) && Honest(Play(s, m)) && AllRecorded(s)
    ensures AllRecorded(Play(s, m))
  {
    match m
    case Receive(pid, handlerOk, ackOk) => ReceiveRecorded(s, pid, handlerOk, ackOk);
    case _ =>
      var s' := Play(s, m);
      forall p | p in s'.procs ensures Recorded(s', p) {
        if p in s.procs {
          assert Recorded(s, p);
          OtherMovesUndisturbed(s, m, p);
          UndisturbedRecorded(s, s', p);
        }
      }
  }

  lemma {:induction false} PlayAllRecorded(s: World, moves: seq<Move>)
    requires Honest(s) && AllRecorded(s)
    ensures AllRecorded(PlayAll(s, moves))
    decreases |moves|
  {
    if moves != [] {
      PlayHonest(s, moves[0]);
      PlayRecorded(s, moves[0]);
      PlayAllRecorded(Play(s, moves[0]), moves[1..]);
    }
  }

  /** However often the bus redelivers, and whatever was refused meanwhile, a process consumes
      one id twice only with at least max other ids surfaced in between. */
  lemma ConsumedAgainOnlyBeyondWindow(check: (string, Envelope) -> bool, tokens: set<string>, moves: seq<Move>, p: nat)
    requires p in PlayAll(Start(check, tokens), moves).procs
    ensures var s := PlayAll(Start(check, tokens), moves); var q := s.procs[p];
      && q.wins == Wins(q.max, q.taken) && q.refused == Refusals(q.max, q.taken)
      && (forall d | d in q.taken :: d.id in RowIds(s.broker.tables.messages, q.name))
      && forall i, j | 0 <= i < j < |q.taken| && q.taken[i].id == q.taken[j].id
                       && ConsumedAt(q.max, q.taken, i) && ConsumedAt(q.max, q.taken, j) ::
           q.max <= |OthersAfter(q.taken[..j], i, q.taken[i].id)|
  {
    var s := PlayAll(Start(check, tokens), moves);
    PlayAllRecorded(Start(check, tokens), moves);
    assert Recorded(s, p);
    var q := s.procs[p];
    forall i, j | 0 <= i < j < |q.taken| && q.taken[i].id == q.taken[j].id
                  && ConsumedAt(q.max, q.taken, i) && ConsumedAt(q.max, q.taken, j)
      ensures q.max <= |OthersAfter(q.taken[..j], i, q.taken[i].id)|
    {
      ConsumedTwiceOnlyBeyondWindow(q.max, q.taken, i, j);
    }
  }

  /** So a process consumes each id at most once as long as the ids ever addressed to its peer
      fit its dedupe cache. */
  lemma AtMostOnceWithinBound(check: (string, Envelope) -> bool, tokens: set<string>, moves: seq<Move>, p: nat)
    requires p in PlayAll(Start(check, tokens), moves).procs
    ensures var s := PlayAll(Start(check, tokens), moves);
      |RowIds(s.broker.tables.messages, s.procs[p].name)| <= s.procs[p].max ==> Distinct(s.procs[p].wins)
  {
    var s := PlayAll(Start(check, tokens), moves);
    PlayAllRecorded(Start(check, tokens), moves);
    assert Recorded(s, p);
    var q, ids := s.procs[p], RowIds(s.broker.tables.messages, s.procs[p].name);
    if |ids| <= q.max {
      WinsDistinct(q.max, q.taken, ids);
    }
  }
}
