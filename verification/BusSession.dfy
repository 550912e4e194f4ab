/** A fault-free session clears a peer's backlog. */
module BusSession {
  import opened Options
  import opened Envelopes
  import opened Store
  import opened Broker
  import opened BrokerSafety
  import opened BrokerHistory
  import opened BrokerGrowth
  import opened Recency
  import opened Bus
  import opened BusSafety

  // ------------------------------------------------------------ the flush

  /** A flush the link fully accepts writes every key and leaves all of them delivered. */
  lemma {:induction false} FlushComplete(b: State, c: nat, to: string, keys: seq<string>, written: nat)
    requires c in b.links && !b.links[c].broken && |keys| <= written
    requires forall i | 0 <= i < |keys| :: keys[i] in b.tables.messages
    ensures var b' := Flush(b, c, to, keys, written);
      && c in b'.links && !b'.links[c].broken && b'.links[c].serving == b.links[c].serving
      && b'.links[c].name == b.links[c].name && b'.links[c].settled == b.links[c].settled
      && b.links[c].sent <= b'.links[c].sent && |b'.links[c].sent| == |b.links[c].sent| + |keys|
      && (forall i | 0 <= i < |keys| :: b'.links[c].sent[|b.links[c].sent| + i].key == keys[i])
      && SameQueue(b.tables, b'.tables)
      && (forall k | k in b.tables.messages && (k in keys || b.tables.messages[k].delivered) :: b'.tables.messages[k].delivered)
    decreases |keys|
  {
    if keys != [] {
      var b1 := Push(b, c, to, keys[0], true);
      assert forall i | 0 <= i < |keys[1..]| :: keys[1..][i] == keys[i + 1];
      FlushComplete(b1, c, to, keys[1..], written - 1);
      FlushStep(b, b1, Flush(b, c, to, keys, written), c, to, keys);
    }
  }

  lemma FlushStep(b: State, b1: State, b2: State, c: nat, to: string, keys: seq<string>)
    requires keys != [] && c in b.links && !b.links[c].broken && keys[0] in b.tables.messages
    requires b1 == Push(b, c, to, keys[0], true) && c in b2.links
    requires b1.links[c].sent <= b2.links[c].sent && |b2.links[c].sent| == |b1.links[c].sent| + |keys| - 1
    requires forall i | 0 <= i < |keys| - 1 :: b2.links[c].sent[|b1.links[c].sent| + i].key == keys[1..][i]
    requires SameQueue(b1.tables, b2.tables)
    requires forall k | k in b1.tables.messages && (k in keys[1..] || b1.tables.messages[k].delivered) :: b2.tables.messages[k].delivered
    ensures b.links[c].sent <= b2.links[c].sent
    ensures forall i | 0 <= i < |keys| :: b2.links[c].sent[|b.links[c].sent| + i].key == keys[i]
    ensures SameQueue(b.tables, b2.tables)
    ensures forall k | k in b.tables.messages && (k in keys || b.tables.messages[k].delivered) :: b2.tables.messages[k].delivered
  {
    var n := |b.links[c].sent|;
    assert b1.links[c].sent[n].key == keys[0];
    forall i | 0 <= i < |keys| ensures b2.links[c].sent[n + i].key == keys[i] {
      if i > 0 {
        assert b2.links[c].sent[n + 1 + (i - 1)].key == keys[1..][i - 1];
      }
    }
    forall k | k in b.tables.messages ensures SameMessage(b.tables.messages[k], b2.tables.messages[k]) {
      assert SameMessage(b.tables.messages[k], b1.tables.messages[k]) && SameMessage(b1.tables.messages[k], b2.tables.messages[k]);
    }
    assert keys == [keys[0]] + keys[1..];
  }

  /** Every row of the peer is delivered, and acked unless it was written to this connection. */
  ghost predicate CaughtUp(b: State, c: nat, name: string) {
    && c in b.links && b.links[c].serving && b.links[c].name == name
    && forall k | k in b.tables.messages && b.tables.messages[k].to == name ::
         && b.tables.messages[k].delivered
         && (b.tables.messages[k].acked || SentBefore(b.links[c].sent, k, |b.links[c].sent|))
  }

  lemma FlushCatchesUp(w: State, c: nat, name: string, keys: seq<string>, written: nat)
    requires c in w.links && w.links[c].serving && !w.links[c].broken && w.links[c].name == name && |keys| <= written
    requires Ordered(w.tables.messages, w.links[c]) && Remaining(w.tables.messages, w.links[c], keys)
    requires w.links[c].sent == []
    ensures CaughtUp(Flush(w, c, name, keys, written), c, name)
    ensures SameQueue(w.tables, Flush(w, c, name, keys, written).tables)
  {
    FlushComplete(w, c, name, keys, written);
    FlushFollows(w, c, name, keys, written);
    var b := Flush(w, c, name, keys, written);
    forall k | k in b.tables.messages && b.tables.messages[k].to == name
      ensures b.tables.messages[k].delivered
      ensures b.tables.messages[k].acked || SentBefore(b.links[c].sent, k, |b.links[c].sent|)
    {
      assert SameMessage(w.tables.messages[k], b.tables.messages[k]);
      RowCaughtUp(w.tables.messages, b.tables.messages, w.links[c], b.links[c].sent, keys, k);
    }
  }

  lemma RowCaughtUp(v: map<string, Row>, m: map<string, Row>, l: Link, sent: seq<Delivery>, keys: seq<string>, k: string)
    requires k in v && k in m && RowEvolves(v[k], m[k]) && v[k].to == l.name && l.sent == []
    requires Ordered(v, l) && Remaining(v, l, keys) && |sent| == |keys|
    requires forall i | 0 <= i < |keys| :: sent[0 + i].key == keys[i]
    requires k in keys ==> m[k].delivered
    ensures m[k].delivered && (m[k].acked || SentBefore(sent, k, |sent|))
  {
  }

  lemma AdmittedIs(b: State, hello: Hello, written: nat)
    requires Judge(b, hello, true).Admitted?
    ensures var w := Welcomed(b, hello.name, hello.token);
      && Handshake(b, hello, true, written) == Flush(w, b.accepted, hello.name, Drain(w.tables, hello.name), written)
      && w.links[b.accepted] == Link(hello.name, [], false, false, false, true, SettledFor(w.tables, hello.name))
      && w.tables.messages.Keys == b.tables.messages.Keys
      && hello.name != "" && hello.token in b.tokens
  {
  }

  /** An admitted handshake whose flush is fully accepted leaves the peer caught up, with the
      same messages in the queue. */
  lemma HandshakeCatchesUp(b: State, hello: Hello, written: nat)
    requires Safe(b) && Judge(b, hello, true).Admitted?
    requires |Drain(Welcomed(b, hello.name, hello.token).tables, hello.name)| <= written
    ensures CaughtUp(Handshake(b, hello, true, written), b.accepted, hello.name)
    ensures Handshake(b, hello, true, written).tables.messages.Keys == b.tables.messages.Keys
  {
    AdmittedIs(b, hello, written);
    WelcomedKeeps(b, hello.name, hello.token);
    var w := Welcomed(b, hello.name, hello.token);
    assert LinksOk(w);
    FlushCatchesUp(w, b.accepted, hello.name, Drain(w.tables, hello.name), written);
  }

  // ------------------------------------------------------------ reading everything

  ghost function ReadOut(s: World, pid: nat, n: nat): World
    decreases n
  {
    if n == 0 then s else ReadOut(Play(s, Receive(pid, true, true)), pid, n - 1)
  }

  /** The process has read j frames of connection c and acknowledged every verified one. */
  ghost predicate Reading(s: World, pid: nat, c: nat, sent: seq<Delivery>, j: nat) {
    && pid in s.procs && s.procs[pid].conn == Some(c) && c in s.wires && c in s.broker.links
    && s.broker.links[c].sent == sent && s.wires[c].rcvd == j <= |sent| && s.wires[c].routed == 0
    && (forall x | x in s.wires[c].up :: x.AckFrame?)
    && forall i | 0 <= i < j && sent[i].key != "" && s.check(s.procs[pid].name, sent[i].envelope) ::
         AckFrame(sent[i].key) in s.wires[c].up
  }

  lemma ReadOne(s: World, pid: nat, c: nat, sent: seq<Delivery>, j: nat)
    requires Reading(s, pid, c, sent, j) && j < |sent|
    ensures var s' := Play(s, Receive(pid, true, true));
      && Reading(s', pid, c, sent, j + 1) && s'.broker == s.broker && s'.check == s.check
      && s'.procs[pid].name == s.procs[pid].name
  {
  }

  lemma {:induction false} ReadOutReads(s: World, pid: nat, c: nat, sent: seq<Delivery>, j: nat)
    requires Reading(s, pid, c, sent, j)
    ensures var s' := ReadOut(s, pid, |sent| - j);
      && Reading(s', pid, c, sent, |sent|) && s'.broker == s.broker && s'.check == s.check
      && s'.procs[pid].name == s.procs[pid].name
    decreases |sent| - j
  {
    if j < |sent| {
      ReadOne(s, pid, c, sent, j);
      ReadOutReads(Play(s, Receive(pid, true, true)), pid, c, sent, j + 1);
    }
  }

  lemma {:induction false} ReadOutHonest(s: World, pid: nat, n: nat)
    requires Honest(s)
    ensures Honest(ReadOut(s, pid, n))
    decreases n
  {
    if n > 0 {
      PlayHonest(s, Receive(pid, true, true));
      ReadOutHonest(Play(s, Receive(pid, true, true)), pid, n - 1);
    }
  }

  // ------------------------------------------------------------ routing every acknowledgement

  ghost function AckOut(s: World, c: nat, n: nat): World
    decreases n
  {
    if n == 0 then s else AckOut(Play(s, RouteNext(c, {})), c, n - 1)
  }

  /** The broker has read r acknowledgements of connection c; their rows are acked. */
  ghost predicate Acking(s: World, c: nat, up: seq<Frame>, r: nat) {
    && c in s.wires && c in s.broker.links && s.broker.links[c].serving
    && s.wires[c].up == up && s.wires[c].routed == r <= |up| && (forall x | x in up :: x.AckFrame?)
    && forall i | 0 <= i < r && up[i].id != "" && up[i].id in s.broker.tables.messages :: s.broker.tables.messages[up[i].id].acked
  }

  /** Only acked marks may differ. */
  ghost predicate OnlyAcks(t: Tables, u: Tables) {
    && u.messages.Keys == t.messages.Keys
    && forall k | k in t.messages ::
         SameMessage(t.messages[k], u.messages[k]) && u.messages[k].delivered == t.messages[k].delivered
         && (t.messages[k].acked ==> u.messages[k].acked)
  }

  lemma AckOne(s: World, c: nat, up: seq<Frame>, r: nat)
    requires Acking(s, c, up, r) && r < |up|
    ensures var s' := Play(s, RouteNext(c, {}));
      Acking(s', c, up, r + 1) && OnlyAcks(s.broker.tables, s'.broker.tables) && s'.check == s.check
  {
    assert up[r] in up;
    RouteNextIs(s, c, {}, Route(c, up[r], {}));
    assert Apply(s.broker, Route(c, up[r], {})) == HandleAck(s.broker, up[r].id, s.broker.links[c].name);
  }

  lemma OnlyAcksTransitive(t: Tables, u: Tables, v: Tables)
    requires OnlyAcks(t, u) && OnlyAcks(u, v)
    ensures OnlyAcks(t, v)
  {
  }

  lemma {:induction false} AckOutAcks(s: World, c: nat, up: seq<Frame>, r: nat)
    requires Acking(s, c, up, r)
    ensures var s' := AckOut(s, c, |up| - r);
      Acking(s', c, up, |up|) && OnlyAcks(s.broker.tables, s'.broker.tables) && s'.check == s.check
    decreases |up| - r
  {
    if r < |up| {
      var s1 := Play(s, RouteNext(c, {}));
      AckOne(s, c, up, r);
      AckOutAcks(s1, c, up, r + 1);
      OnlyAcksTransitive(s.broker.tables, s1.broker.tables, AckOut(s, c, |up| - r).broker.tables);
    }
  }

  lemma {:induction false} AckOutHonest(s: World, c: nat, n: nat)
    requires Honest(s)
    ensures Honest(AckOut(s, c, n))
    decreases n
  {
    if n > 0 {
      PlayHonest(s, RouteNext(c, {}));
      AckOutHonest(Play(s, RouteNext(c, {})), c, n - 1);
    }
  }

  // ------------------------------------------------------------ the session

  /** Connect, flush everything, read and consume every frame, route every acknowledgement. */
  ghost function Session(s: World, pid: nat, written: nat): World {
    var c := s.broker.accepted;
    var s1 := Play(s, Connect(pid, true, written, true));
    if c in s1.broker.links then ReadAndAck(s1, pid, c, |s1.broker.links[c].sent|) else s1
  }

  ghost predicate CanFlushAll(s: World, pid: nat, written: nat)
    requires pid in s.procs
  {
    var p := s.procs[pid];
    && p.conn == None && Judge(s.broker, HelloOf(p), true).Admitted?
    && |Drain(Welcomed(s.broker, p.name, p.token).tables, p.name)| <= written
  }

  lemma ConnectCatchesUp(s: World, pid: nat, written: nat)
    requires Honest(s) && pid in s.procs && CanFlushAll(s, pid, written)
    ensures var s1 := Play(s, Connect(pid, true, written, true)); var c := s.broker.accepted;
      && Honest(s1) && s1.check == s.check && CaughtUp(s1.broker, c, s.procs[pid].name)
      && s1.broker.tables.messages.Keys == s.broker.tables.messages.Keys
      && Reading(s1, pid, c, s1.broker.links[c].sent, 0) && s1.procs[pid].name == s.procs[pid].name
  {
    PlayHonest(s, Connect(pid, true, written, true));
    HandshakeCatchesUp(s.broker, HelloOf(s.procs[pid]), written);
  }

  lemma {:induction false} ReadOutEvolves(s: World, pid: nat, n: nat)
    ensures Evolves(s.broker.tables, ReadOut(s, pid, n).broker.tables)
    decreases n
  {
    EvolvesReflexive(s.broker.tables);
    if n > 0 {
      var s1 := Play(s, Receive(pid, true, true));
      PlayEvolves(s, Receive(pid, true, true));
      ReadOutEvolves(s1, pid, n - 1);
      EvolvesTransitive(s.broker.tables, s1.broker.tables, ReadOut(s, pid, n).broker.tables);
    }
  }

  lemma {:induction false} AckOutEvolves(s: World, c: nat, n: nat)
    ensures Evolves(s.broker.tables, AckOut(s, c, n).broker.tables)
    decreases n
  {
    EvolvesReflexive(s.broker.tables);
    if n > 0 {
      var s1 := Play(s, RouteNext(c, {}));
      PlayEvolves(s, RouteNext(c, {}));
      AckOutEvolves(s1, c, n - 1);
      EvolvesTransitive(s.broker.tables, s1.broker.tables, AckOut(s, c, n).broker.tables);
    }
  }

  /** A session leaves every queued message as it was but for its marks. */
  lemma SessionEvolves(s: World, pid: nat, written: nat)
    ensures Evolves(s.broker.tables, Session(s, pid, written).broker.tables)
  {
    var c := s.broker.accepted;
    var s1 := Play(s, Connect(pid, true, written, true));
    PlayEvolves(s, Connect(pid, true, written, true));
    if c in s1.broker.links {
      var n := |s1.broker.links[c].sent|;
      var s2 := ReadOut(s1, pid, n);
      ReadOutEvolves(s1, pid, n);
      EvolvesTransitive(s.broker.tables, s1.broker.tables, s2.broker.tables);
      if c in s2.wires {
        var s3 := AckOut(s2, c, |s2.wires[c].up|);
        AckOutEvolves(s2, c, |s2.wires[c].up|);
        EvolvesTransitive(s.broker.tables, s2.broker.tables, s3.broker.tables);
      }
    }
  }

  /** After a fault-free session, from any reachable state: the rows of the peer that are not
      settled are exactly those whose envelope fails its verification; every other one has been
      consumed and acked, so the next requeue brings back none of them. */
  lemma SessionClearsBacklog(check: (string, Envelope) -> bool, tokens: set<string>, moves: seq<Move>,
                             pid: nat, written: nat)
    requires pid in PlayAll(Start(check, tokens), moves).procs
    requires CanFlushAll(PlayAll(Start(check, tokens), moves), pid, written)
    ensures var s := PlayAll(Start(check, tokens), moves); var name := s.procs[pid].name;
      var s' := Session(s, pid, written); var t := s'.broker.tables;
      && t.messages.Keys == s.broker.tables.messages.Keys && Evolves(s.broker.tables, t)
      && (forall k | k in t.messages && t.messages[k].to == name ::
            && (Settled(t.messages[k]) <==> check(name, t.messages[k].envelope))
            && (Settled(t.messages[k]) ==> HandedId(s', name, t.messages[k].envelope.id)))
      && Pending(t, name) == {}
      && Requeueable(t, name) == set k | k in t.messages && t.messages[k].to == name && !check(name, t.messages[k].envelope)
  {
    var s := PlayAll(Start(check, tokens), moves);
    PlayAllHonest(Start(check, tokens), moves);
    PlayAllCheck(Start(check, tokens), moves);
    SessionOutcome(s, pid, written);
    SessionEvolves(s, pid, written);
  }

  /** Reading and acknowledging everything on a connection that caught its peer up. */
  ghost function ReadAndAck(s: World, pid: nat, c: nat, n: nat): World {
    var s2 := ReadOut(s, pid, n);
    if c !in s2.wires then s2 else AckOut(s2, c, |s2.wires[c].up|)
  }

  ghost predicate Cleared(s: World, name: string) {
    forall k | k in s.broker.tables.messages && s.broker.tables.messages[k].to == name ::
      && s.broker.tables.messages[k].delivered
      && (s.broker.tables.messages[k].acked <==> s.check(name, s.broker.tables.messages[k].envelope))
      && (s.broker.tables.messages[k].acked ==> HandedId(s, name, s.broker.tables.messages[k].envelope.id))
  }

  lemma ReadAndAckClears(s: World, pid: nat, c: nat, name: string)
    requires Honest(s) && CaughtUp(s.broker, c, name) && pid in s.procs && s.procs[pid].name == name
    requires Reading(s, pid, c, s.broker.links[c].sent, 0)
    ensures var s' := ReadAndAck(s, pid, c, |s.broker.links[c].sent|);
      && Cleared(s', name) && s'.check == s.check
      && s'.broker.tables.messages.Keys == s.broker.tables.messages.Keys
  {
    var sent := s.broker.links[c].sent;
    ReadOutReads(s, pid, c, sent, 0);
    var s2 := ReadOut(s, pid, |sent|);
    AckPhase(s, pid, c, sent);
    HonestLink(s, c);
    SessionRows(s, s2, AckOut(s2, c, |s2.wires[c].up|), pid, c, name);
  }

  lemma HonestLink(s: World, c: nat)
    requires Honest(s) && c in s.broker.links
    ensures Numbered(s.broker.tables) && Ordered(s.broker.tables.messages, s.broker.links[c])
  {
  }

  /** Acknowledging after reading: what holds of the rows in the end. */
  lemma AckPhase(s: World, pid: nat, c: nat, sent: seq<Delivery>)
    requires Honest(s) && Reading(ReadOut(s, pid, |sent|), pid, c, sent, |sent|)
    requires ReadOut(s, pid, |sent|).broker.links[c].serving
    ensures var s2 := ReadOut(s, pid, |sent|); var s3 := AckOut(s2, c, |s2.wires[c].up|);
      && Acking(s3, c, s2.wires[c].up, |s2.wires[c].up|) && OnlyAcks(s2.broker.tables, s3.broker.tables)
      && s3.check == s2.check && RowsHonest(s3)
  {
    ReadOutHonest(s, pid, |sent|);
    AckEverything(ReadOut(s, pid, |sent|), pid, c, sent);
  }

  lemma AckEverything(s: World, pid: nat, c: nat, sent: seq<Delivery>)
    requires Honest(s) && Reading(s, pid, c, sent, |sent|) && s.broker.links[c].serving
    ensures var s' := AckOut(s, c, |s.wires[c].up|);
      && Acking(s', c, s.wires[c].up, |s.wires[c].up|) && OnlyAcks(s.broker.tables, s'.broker.tables)
      && s'.check == s.check && Honest(s')
  {
    AckOutAcks(s, c, s.wires[c].up, 0);
    AckOutHonest(s, c, |s.wires[c].up|);
  }

  lemma SessionOutcome(s: World, pid: nat, written: nat)
    requires Honest(s) && pid in s.procs && CanFlushAll(s, pid, written)
    ensures var s' := Session(s, pid, written);
      && Cleared(s', s.procs[pid].name) && s'.check == s.check
      && s'.broker.tables.messages.Keys == s.broker.tables.messages.Keys
  {
    ConnectCatchesUp(s, pid, written);
    ReadAndAckClears(Play(s, Connect(pid, true, written, true)), pid, s.broker.accepted, s.procs[pid].name);
  }

  lemma SessionRows(s1: World, s2: World, s3: World, pid: nat, c: nat, name: string)
    requires RowsHonest(s3) && s1.check == s2.check == s3.check && s2.broker == s1.broker
    requires CaughtUp(s1.broker, c, name) && Numbered(s1.broker.tables) && Ordered(s1.broker.tables.messages, s1.broker.links[c])
    requires pid in s2.procs && s2.procs[pid].name == name
    requires Reading(s2, pid, c, s1.broker.links[c].sent, |s1.broker.links[c].sent|)
    requires Acking(s3, c, s2.wires[c].up, |s2.wires[c].up|) && OnlyAcks(s2.broker.tables, s3.broker.tables)
    ensures Cleared(s3, name)
  {
    forall k | k in s3.broker.tables.messages && s3.broker.tables.messages[k].to == name
      ensures s3.broker.tables.messages[k].delivered
      ensures s3.broker.tables.messages[k].acked <==> s1.check(name, s3.broker.tables.messages[k].envelope)
      ensures s3.broker.tables.messages[k].acked ==> HandedId(s3, name, s3.broker.tables.messages[k].envelope.id)
    {
      assert SameMessage(s1.broker.tables.messages[k], s3.broker.tables.messages[k]);
      SessionRow(s1, s2, s3, pid, c, name, k);
    }
  }

  lemma SessionRow(s1: World, s2: World, s3: World, pid: nat, c: nat, name: string, k: string)
    requires RowsHonest(s3) && s1.check == s2.check == s3.check && s2.broker == s1.broker
    requires CaughtUp(s1.broker, c, name) && Numbered(s1.broker.tables) && Ordered(s1.broker.tables.messages, s1.broker.links[c])
    requires pid in s2.procs && s2.procs[pid].name == name
    requires Reading(s2, pid, c, s1.broker.links[c].sent, |s1.broker.links[c].sent|)
    requires Acking(s3, c, s2.wires[c].up, |s2.wires[c].up|) && OnlyAcks(s2.broker.tables, s3.broker.tables)
    requires k in s1.broker.tables.messages && s1.broker.tables.messages[k].to == name
    ensures s3.broker.tables.messages[k].delivered
    ensures s3.broker.tables.messages[k].acked <==> s1.check(name, s3.broker.tables.messages[k].envelope)
    ensures s3.broker.tables.messages[k].acked ==> HandedId(s3, name, s3.broker.tables.messages[k].envelope.id)
  {
  }
}
