/** When a row is acked: over whole runs, exactly when some connection acknowledged its key. */
module BrokerAcks {
  import opened Store
  import opened Broker
  import opened BrokerSafety
  import opened BrokerHistory
  import opened BrokerGrowth
  import opened BrokerOrigins

  ghost predicate AckedRow(b: State, k: string) {
    k in b.tables.messages && b.tables.messages[k].acked
  }

  /** The step routes an acknowledgement of row k from a serving connection, of whatever name. */
  ghost predicate AcksRow(b: State, op: Op, k: string) {
    && op.Route? && op.conn in b.links && b.links[op.conn].serving
    && op.frame == AckFrame(k) && k != "" && k in b.tables.messages
  }

  lemma AckStep(b: State, op: Op, k: string)
    requires LinksOk(b)
    ensures AckedRow(Apply(b, op), k) <==> AckedRow(b, k) || AcksRow(b, op, k)
  {
    ApplyCarries(b, op);
    ApplyFollows(b, op);
    if AckedRow(b, k) {
      assert RowEvolves(b.tables.messages[k], Apply(b, op).tables.messages[k]);
    }
  }

  /** Over a whole run: a row is acked at the end exactly when it was acked at the start or some
      step of the run routed an acknowledgement of its key while the row existed. */
  lemma {:induction false} RunAcks(b: State, ops: seq<Op>, k: string)
    requires Safe(b)
    ensures AckedRow(Run(b, ops), k)
       <==> AckedRow(b, k) || exists i :: 0 <= i < |ops| && AcksRow(StateAt(b, ops, i), ops[i], k)
    decreases |ops|
  {
    if ops != [] {
      var b1, rest := Apply(b, ops[0]), ops[1..];
      ApplySafe(b, ops[0]);
      AckStep(b, ops[0], k);
      RunAcks(b1, rest, k);
      StateAtStep(b, ops, 0);
      assert AcksRow(b, ops[0], k) ==> AcksRow(StateAt(b, ops, 0), ops[0], k);
      forall i | 0 <= i < |rest|
        ensures AcksRow(StateAt(b1, rest, i), rest[i], k) <==> AcksRow(StateAt(b, ops, i + 1), ops[i + 1], k)
      {
        StateAtStep(b, ops, i);
      }
      if i :| 0 <= i < |ops| && AcksRow(StateAt(b, ops, i), ops[i], k) && i > 0 {
        assert AcksRow(StateAt(b1, rest, i - 1), rest[i - 1], k);
      }
    }
  }
}
