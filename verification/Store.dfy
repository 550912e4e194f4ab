/** The durable queue: peers, messages and per-sender counters. The pure functions give what
    each store operation does to the tables; DurableStore carries them out in place. */
module Store {
  import opened Envelopes
  import opened Order

  /** One message row; its id is the key it is stored under. */
  datatype Row = Row(
    from: string, to: string, envelope: Envelope,
    delivered: bool, acked: bool, attempts: nat, number: nat)

  datatype Tables = Tables(peers: set<string>, messages: map<string, Row>, next: map<string, nat>)

  const EMPTY := Tables({}, map[], map[])

  datatype Outcome = Done | Closed | EmptyName | MissingField | UnknownPeer | DuplicateId

  function NextSeq(t: Tables, sender: string): nat {
    if sender in t.next then t.next[sender] else 0
  }

  function EnqueueOutcome(t: Tables, id: string, from: string, to: string): Outcome {
    if id == "" || from == "" || to == "" then MissingField
    else if to !in t.peers then UnknownPeer
    else if id in t.messages then DuplicateId
    else Done
  }

  /** A message is accepted exactly when its three names are there, its recipient is known and its
      id is new; otherwise the first of these that fails is the error. */
  lemma OutcomeIs(t: Tables, id: string, from: string, to: string)
    ensures var out := EnqueueOutcome(t, id, from, to); var complete := id != "" && from != "" && to != "";
      && (out == MissingField <==> !complete)
      && (out == UnknownPeer <==> complete && to !in t.peers)
      && (out == DuplicateId <==> complete && to in t.peers && id in t.messages)
      && (out == Done <==> complete && to in t.peers && id !in t.messages)
  {
  }

  function Enqueued(t: Tables, id: string, from: string, to: string, env: Envelope): Tables {
    if EnqueueOutcome(t, id, from, to) != Done then t
    else
      var number := NextSeq(t, from);
      t.(messages := t.messages[id := Row(from, to, env, false, false, 0, number)],
         next := t.next[from := number + 1])
  }

  function Registered(t: Tables, name: string): Tables {
    if name == "" then t else t.(peers := t.peers + {name})
  }

  function MarkedDelivered(t: Tables, id: string): Tables {
    if id !in t.messages then t
    else
      var row := t.messages[id];
      t.(messages := t.messages[id := row.(delivered := true, attempts := row.attempts + 1)])
  }

  function MarkedAcked(t: Tables, id: string): Tables {
    if id !in t.messages then t
    else t.(messages := t.messages[id := t.messages[id].(acked := true)])
  }

  function Requeueable(t: Tables, name: string): set<string> {
    set k | k in t.messages && t.messages[k].to == name && t.messages[k].delivered && !t.messages[k].acked
  }

  function Requeued(t: Tables, name: string): Tables {
    if name !in t.peers then t
    else t.(messages := map k | k in t.messages ::
              if k in Requeueable(t, name) then t.messages[k].(delivered := false) else t.messages[k])
  }

  function Pending(t: Tables, name: string): set<string> {
    set k | k in t.messages && t.messages[k].to == name && !t.messages[k].delivered
  }

  /** ORDER BY sender, seq. */
  predicate RowBefore(a: Row, b: Row) {
    StrLess(a.from, b.from) || (a.from == b.from && a.number < b.number)
  }

  function DrainLess(messages: map<string, Row>): (string, string) -> bool {
    (j, k) => j in messages && k in messages && RowBefore(messages[j], messages[k])
  }

  /** What PendingFor returns for a known peer. */
  ghost function Drain(t: Tables, name: string): seq<string> {
    Sorted(DrainLess(t.messages), Pending(t, name))
  }

  // ------------------------------------------------------------ numbering

  ghost predicate HasSeq(t: Tables, sender: string, i: nat) {
    exists k :: k in t.messages && t.messages[k].from == sender && t.messages[k].number == i
  }

  /** Each sender's rows carry exactly the numbers 0..next-1, one row each, and every row
      names a known recipient. */
  ghost predicate Numbered(t: Tables) {
    && (forall k | k in t.messages ::
          && k != "" && t.messages[k].from != "" && t.messages[k].to != "" && t.messages[k].to in t.peers
          && t.messages[k].number < NextSeq(t, t.messages[k].from))
    && (forall j, k | j in t.messages && k in t.messages && j != k && t.messages[j].from == t.messages[k].from ::
          t.messages[j].number != t.messages[k].number)
    && (forall s, i: nat | i < NextSeq(t, s) :: HasSeq(t, s, i))
  }

  lemma EnqueuedNumbered(t: Tables, id: string, from: string, to: string, env: Envelope)
    requires Numbered(t)
    ensures Numbered(Enqueued(t, id, from, to, env))
  {
    var u := Enqueued(t, id, from, to, env);
    if u != t {
      forall s, i: nat | i < NextSeq(u, s) ensures HasSeq(u, s, i) {
        if s == from && i == NextSeq(t, from) {
          assert u.messages[id].from == s && u.messages[id].number == i;
        } else {
          assert HasSeq(t, s, i);
          var k :| k in t.messages && t.messages[k].from == s && t.messages[k].number == i;
          assert k in u.messages && u.messages[k] == t.messages[k];
        }
      }
    }
  }

  /** u holds the same messages as t and differs only in delivery marks and peers. */
  ghost predicate SameQueue(t: Tables, u: Tables) {
    && t.peers <= u.peers && t.next == u.next && t.messages.Keys == u.messages.Keys
    && forall k | k in t.messages :: SameMessage(t.messages[k], u.messages[k])
  }

  predicate SameMessage(a: Row, b: Row) {
    a.from == b.from && a.to == b.to && a.envelope == b.envelope && a.number == b.number
  }

  lemma SameQueueNumbered(t: Tables, u: Tables)
    requires Numbered(t) && SameQueue(t, u)
    ensures Numbered(u)
  {
    forall s, i: nat | i < NextSeq(u, s) ensures HasSeq(u, s, i) {
      assert HasSeq(t, s, i);
      var k :| k in t.messages && t.messages[k].from == s && t.messages[k].number == i;
      assert SameMessage(t.messages[k], u.messages[k]);
    }
  }

  // ------------------------------------------------------------ evolution

  /** Handed to the recipient and confirmed: nothing brings such a row back. */
  predicate Settled(r: Row) { r.delivered && r.acked }

  predicate RowEvolves(a: Row, b: Row) {
    && SameMessage(a, b) && a.attempts <= b.attempts
    && (a.acked ==> b.acked) && (Settled(a) ==> Settled(b))
  }

  /** No accepted message is lost or altered, and no confirmation is undone. */
  ghost predicate Evolves(t: Tables, u: Tables) {
    && t.peers <= u.peers
    && (forall s :: NextSeq(t, s) <= NextSeq(u, s))
    && (forall k | k in t.messages :: k in u.messages && RowEvolves(t.messages[k], u.messages[k]))
  }

  lemma EvolvesTransitive(t: Tables, u: Tables, v: Tables)
    requires Evolves(t, u) && Evolves(u, v)
    ensures Evolves(t, v)
  {
    forall k | k in t.messages ensures k in v.messages && RowEvolves(t.messages[k], v.messages[k]) {
      assert RowEvolves(t.messages[k], u.messages[k]);
      assert RowEvolves(u.messages[k], v.messages[k]);
    }
    forall s ensures NextSeq(t, s) <= NextSeq(v, s) {
      assert NextSeq(t, s) <= NextSeq(u, s);
    }
  }

  datatype TableOp =
    | Register(name: string)
    | Enqueue(id: string, from: string, to: string, env: Envelope)
    | MarkDelivered(id: string)
    | MarkAcked(id: string)
    | Requeue(name: string)

  function Perform(t: Tables, op: TableOp): Tables {
    match op
    case Register(name) => Registered(t, name)
    case Enqueue(id, from, to, env) => Enqueued(t, id, from, to, env)
    case MarkDelivered(id) => MarkedDelivered(t, id)
    case MarkAcked(id) => MarkedAcked(t, id)
    case Requeue(name) => Requeued(t, name)
  }

  function PerformAll(t: Tables, ops: seq<TableOp>): Tables
    decreases |ops|
  {
    if ops == [] then t else PerformAll(Perform(t, ops[0]), ops[1..])
  }

  lemma RequeuedKeeps(t: Tables, name: string)
    ensures SameQueue(t, Requeued(t, name)) && Evolves(t, Requeued(t, name))
  {
  }

  lemma MarksKeep(t: Tables, op: TableOp)
    requires !op.Enqueue?
    ensures SameQueue(t, Perform(t, op)) && Evolves(t, Perform(t, op))
  {
  }

  /** Every operation keeps the numbering, loses nothing and settles for good. */
  lemma PerformKeeps(t: Tables, op: TableOp)
    requires Numbered(t)
    ensures Numbered(Perform(t, op)) && Evolves(t, Perform(t, op))
  {
    if op.Enqueue? {
      EnqueuedNumbered(t, op.id, op.from, op.to, op.env);
    } else {
      MarksKeep(t, op);
      SameQueueNumbered(t, Perform(t, op));
    }
  }

  lemma {:induction false} PerformAllKeeps(t: Tables, ops: seq<TableOp>)
    requires Numbered(t)
    ensures Numbered(PerformAll(t, ops)) && Evolves(t, PerformAll(t, ops))
    decreases |ops|
  {
    if ops != [] {
      var u := Perform(t, ops[0]);
      PerformKeeps(t, ops[0]);
      PerformAllKeeps(u, ops[1..]);
      EvolvesTransitive(t, u, PerformAll(t, ops));
    }
  }

  // ------------------------------------------------------------ draining

  lemma DrainTotal(t: Tables, s: set<string>)
    requires Numbered(t) && s <= t.messages.Keys
    ensures TotalOn(DrainLess(t.messages), s)
  {
    var lt := DrainLess(t.messages);
    assert forall x, y | x in s && y in s :: lt(x, y) <==> RowBefore(t.messages[x], t.messages[y]);
    forall x, y, z | x in s && y in s && z in s
      ensures !lt(x, x) && (lt(x, y) && lt(y, z) ==> lt(x, z))
    {
      StrLessIsStrictOrder(t.messages[x].from, t.messages[y].from, t.messages[z].from);
    }
    forall x, y | x in s && y in s ensures x == y || lt(x, y) || lt(y, x) {
      StrLessIsTotal(t.messages[x].from, t.messages[y].from);
    }
  }

  /** A drain lists exactly the recipient's undelivered rows, each once, and each sender's
      rows in the order they were accepted. */
  lemma DrainIsFifo(t: Tables, name: string)
    requires Numbered(t)
    ensures forall k :: k in Drain(t, name) <==> k in t.messages && t.messages[k].to == name && !t.messages[k].delivered
    ensures forall i, j :: 0 <= i < j < |Drain(t, name)| ==> Drain(t, name)[i] != Drain(t, name)[j]
    ensures forall i, j :: 0 <= i < j < |Drain(t, name)| ==>
              var a, b := t.messages[Drain(t, name)[i]], t.messages[Drain(t, name)[j]];
              RowBefore(a, b) && (StrLess(a.from, b.from) || (a.from == b.from && a.number < b.number))
  {
    DrainTotal(t, Pending(t, name));
    SortedInOrder(DrainLess(t.messages), Pending(t, name));
    var q := Drain(t, name);
    forall i, j | 0 <= i < j < |q| ensures q[i] != q[j] && RowBefore(t.messages[q[i]], t.messages[q[j]]) {
      assert DrainLess(t.messages)(q[i], q[j]);
      StrLessIsStrictOrder(t.messages[q[i]].from, "", "");
    }
  }

  /** After a requeue, what is not pending for the peer is settled for good. */
  lemma RequeuedSplits(t: Tables, name: string)
    requires Numbered(t)
    ensures Pending(Requeued(t, name), name)
         == set k | k in t.messages && t.messages[k].to == name && !Settled(t.messages[k])
    ensures Requeueable(Requeued(t, name), name) == {}
  {
  }

  // ------------------------------------------------------------ the store object

  class DurableStore {
    var closed: bool
    var peers: set<string>
    var messages: map<string, Row>
    var senderNext: map<string, nat>

    ghost function Contents(): Tables
      reads this
    {
      Tables(peers, messages, senderNext)
    }

    constructor ()
      ensures !closed && Contents() == EMPTY
    {
      closed, peers, messages, senderNext := false, {}, map[], map[];
    }

    method Close()
      modifies this`closed
      ensures closed
    {
      closed := true;
    }

    method Register(name: string) returns (out: Outcome)
      modifies this`peers
      ensures out == if closed then Closed else if name == "" then EmptyName else Done
      ensures Contents() == if out == Done then Registered(old(Contents()), name) else old(Contents())
    {
      if closed { return Closed; }
      if name == "" { return EmptyName; }
      peers := peers + {name};
      out := Done;
    }

    /** A rejected message leaves every table untouched; an accepted one takes its sender's
        next number. */
    method Enqueue(id: string, from: string, to: string, env: Envelope) returns (out: Outcome)
      modifies this`messages, this`senderNext
      ensures out == if closed then Closed else EnqueueOutcome(old(Contents()), id, from, to)
      ensures Contents() == if closed then old(Contents()) else Enqueued(old(Contents()), id, from, to, env)
    {
      if closed { return Closed; }
      if id == "" || from == "" || to == "" { return MissingField; }
      if to !in peers { return UnknownPeer; }
      if id in messages { return DuplicateId; }
      var number := 0;
      if from in senderNext { number := senderNext[from]; }
      senderNext := senderNext[from := number + 1];
      messages := messages[id := Row(from, to, env, false, false, 0, number)];
      out := Done;
    }

    method PendingFor(name: string) returns (out: Outcome, rows: seq<string>)
      requires Numbered(Contents())
      ensures out == if closed then Closed else if name !in peers then UnknownPeer else Done
      ensures rows == if out == Done then Drain(Contents(), name) else []
    {
      rows := [];
      if closed { return Closed, []; }
      if name !in peers { return UnknownPeer, []; }
      ghost var t := Contents();
      ghost var listed := {};
      var left := messages.Keys;
      while left != {}
        invariant left <= messages.Keys && listed <= messages.Keys && listed !! left
        invariant Pending(t, name) == listed + (Pending(t, name) * left)
        invariant InOrder(DrainLess(messages), listed, rows)
        decreases left
      {
        var k :| k in left;
        if messages[k].to == name && !messages[k].delivered {
          DrainTotal(t, listed + {k});
          rows := Insert(DrainLess(messages), listed, rows, k);
          listed := listed + {k};
        }
        left := left - {k};
      }
      out := Done;
      assert left == {} && listed == Pending(t, name);
      DrainTotal(t, listed);
      SortedInOrder(DrainLess(messages), listed);
      InOrderUnique(DrainLess(messages), listed, rows, Drain(t, name));
    }

    method MarkDelivered(id: string) returns (out: Outcome)
      modifies this`messages
      ensures out == if closed then Closed else Done
      ensures Contents() == if closed then old(Contents()) else MarkedDelivered(old(Contents()), id)
    {
      if closed { return Closed; }
      if id in messages {
        var row := messages[id];
        messages := messages[id := row.(delivered := true, attempts := row.attempts + 1)];
      }
      out := Done;
    }

    method MarkAcked(id: string) returns (out: Outcome)
      modifies this`messages
      ensures out == if closed then Closed else Done
      ensures Contents() == if closed then old(Contents()) else MarkedAcked(old(Contents()), id)
    {
      if closed { return Closed; }
      if id in messages {
        messages := messages[id := messages[id].(acked := true)];
      }
      out := Done;
    }

    method RequeueUnacked(name: string) returns (out: Outcome, n: nat)
      modifies this`messages
      ensures out == if closed then Closed else if name !in peers then UnknownPeer else Done
      ensures n == if out == Done then |Requeueable(old(Contents()), name)| else 0
      ensures Contents() == if closed then old(Contents()) else Requeued(old(Contents()), name)
    {
      if closed { return Closed, 0; }
      if name !in peers { return UnknownPeer, 0; }
      var hit := set k | k in messages && messages[k].to == name && messages[k].delivered && !messages[k].acked;
      messages := map k | k in messages :: if k in hit then messages[k].(delivered := false) else messages[k];
      return Done, |hit|;
    }
  }
}
