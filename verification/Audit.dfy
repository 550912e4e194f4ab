/** The append-only audit chain. The digest is a parameter of which only its fixed output
    length is used; conclusions name two colliding inputs where a stronger digest would be
    assumed. */
module Audit {

  /** Maps bytes to the hex text of their digest. */
  type Digest = string -> string

  const DIGEST_HEX_LEN := 64

  ghost predicate FixedLength(h: Digest) {
    forall x :: |h(x)| == DIGEST_HEX_LEN
  }

  datatype AuditRow = AuditRow(position: int, prevHash: string, hash: string, event: string)

  function GenesisPrevHash(h: Digest): string { h("") }

  function ChainHash(h: Digest, prevHash: string, event: string): string { h(prevHash + event) }

  /** The digest row i has to chain from. */
  function Previous(h: Digest, rows: seq<AuditRow>, i: nat): string
    requires i <= |rows|
  {
    if i == 0 then GenesisPrevHash(h) else rows[i - 1].hash
  }

  predicate RowIntact(h: Digest, rows: seq<AuditRow>, i: nat)
    requires i < |rows|
  {
    && rows[i].position == i && rows[i].prevHash == Previous(h, rows, i)
    && rows[i].hash == ChainHash(h, rows[i].prevHash, rows[i].event)
  }

  predicate Intact(h: Digest, rows: seq<AuditRow>) {
    forall i | 0 <= i < |rows| :: RowIntact(h, rows, i)
  }

  /** Row i is the first that breaks the chain. */
  ghost predicate BreaksAt(h: Digest, rows: seq<AuditRow>, i: nat) {
    i < |rows| && (forall j | 0 <= j < i :: RowIntact(h, rows, j)) && !RowIntact(h, rows, i)
  }

  // ------------------------------------------------------------ appending and verifying

  datatype Reason = SeqOutOfOrder | PrevHashMismatch | HashMismatch
  datatype Break = Unbroken | BrokenAt(index: nat, position: int, reason: Reason)

  /** The audit table, in seq order, and its single appender. */
  class Log {
    const digest: Digest
    var rows: seq<AuditRow>

    constructor (digest: Digest)
      ensures this.digest == digest && rows == []
    {
      this.digest := digest;
      rows := [];
    }

    /** Appending extends the chain by one row carrying the event verbatim and keeps it intact. */
    method Append(event: string) returns (row: AuditRow)
      modifies this`rows
      ensures rows == old(rows) + [row] && row.event == event
      ensures row.position == if old(rows) == [] then 0 else old(rows)[|old(rows)| - 1].position + 1
      ensures Intact(digest, old(rows)) ==> Intact(digest, rows)
    {
      var position, prevHash := 0, GenesisPrevHash(digest);
      if rows != [] {
        var last := rows[|rows| - 1];
        position := last.position + 1;
        prevHash := last.hash;
      }
      row := AuditRow(position, prevHash, ChainHash(digest, prevHash, event), event);
      AppendIntact(digest, rows, row);
      rows := rows + [row];
    }

    /** Overwrites one row, as on-disk corruption would. */
    method Tamper(position: int, event: string, hash: string)
      modifies this`rows
      ensures |rows| == |old(rows)|
      ensures forall i | 0 <= i < |rows| ::
                rows[i] == if old(rows)[i].position == position
                           then old(rows)[i].(event := event, hash := hash) else old(rows)[i]
    {
      rows := seq(|rows|, i requires 0 <= i < |rows| reads this =>
                if rows[i].position == position then rows[i].(event := event, hash := hash) else rows[i]);
    }
  }

  lemma AppendIntact(h: Digest, rows: seq<AuditRow>, row: AuditRow)
    requires row.position == if rows == [] then 0 else rows[|rows| - 1].position + 1
    requires row.prevHash == Previous(h, rows, |rows|)
    requires row.hash == ChainHash(h, row.prevHash, row.event)
    ensures Intact(h, rows) ==> Intact(h, rows + [row])
  {
    if Intact(h, rows) {
      assert rows != [] ==> RowIntact(h, rows, |rows| - 1);
      forall i | 0 <= i < |rows + [row]| ensures RowIntact(h, rows + [row], i) {
        assert i < |rows| ==> RowIntact(h, rows, i);
      }
    }
  }

  /** Reports nothing exactly when the whole chain is intact, and otherwise the first row that
      breaks it, with the check that failed. */
  method Verify(h: Digest, rows: seq<AuditRow>) returns (brk: Break)
    ensures brk == Unbroken <==> Intact(h, rows)
    ensures brk.BrokenAt? ==> BreaksAt(h, rows, brk.index) && brk.position == brk.index
    ensures brk.BrokenAt? ==>
      var r := rows[brk.index];
      match brk.reason
      case SeqOutOfOrder => r.position != brk.index
      case PrevHashMismatch => r.position == brk.index && r.prevHash != Previous(h, rows, brk.index)
      case HashMismatch => r.position == brk.index && r.prevHash == Previous(h, rows, brk.index)
                           && r.hash != ChainHash(h, r.prevHash, r.event)
  {
    if |rows| == 0 { return Unbroken; }
    var want := GenesisPrevHash(h);
    var i := 0;
    while i < |rows|
      invariant 0 <= i <= |rows| && want == Previous(h, rows, i)
      invariant forall j | 0 <= j < i :: RowIntact(h, rows, j)
    {
      var r := rows[i];
      if r.position != i {
        assert !RowIntact(h, rows, i);
        return BrokenAt(i, i, SeqOutOfOrder);
      }
      if r.prevHash != want {
        assert !RowIntact(h, rows, i);
        return BrokenAt(i, r.position, PrevHashMismatch);
      }
      var got := ChainHash(h, r.prevHash, r.event);
      if got != r.hash {
        assert !RowIntact(h, rows, i);
        return BrokenAt(i, r.position, HashMismatch);
      }
      want := r.hash;
      i := i + 1;
    }
    brk := Unbroken;
  }

  // ------------------------------------------------------------ tamper evidence

  /** x and y are different inputs with one digest. */
  predicate Collision(h: Digest, x: string, y: string) { x != y && h(x) == h(y) }

  /** Two chains that both verify and end in the same hash hold the same rows, or a collision
      of the digest can be read off them. */
  lemma {:induction false} SameEndSameLog(h: Digest, a: seq<AuditRow>, b: seq<AuditRow>) returns (x: string, y: string)
    requires FixedLength(h) && Intact(h, a) && Intact(h, b) && a != [] && b != []
    requires a[|a| - 1].hash == b[|b| - 1].hash
    ensures a == b || Collision(h, x, y)
    decreases |a|
  {
    var m, n := |a| - 1, |b| - 1;
    assert RowIntact(h, a, m) && RowIntact(h, b, n);
    var p, q := a[m].prevHash, b[n].prevHash;
    assert |p| == |q| == DIGEST_HEX_LEN by { PreviousLength(h, a, m); PreviousLength(h, b, n); }
    x, y := p + a[m].event, q + b[n].event;
    if x == y {
      assert x[..DIGEST_HEX_LEN] == p && y[..DIGEST_HEX_LEN] == q;
      assert x[DIGEST_HEX_LEN..] == a[m].event && y[DIGEST_HEX_LEN..] == b[n].event;
      if m == 0 && n == 0 {
        assert a == [a[0]] && b == [b[0]];
      } else if m == 0 {
        x, y := "", EarlierInput(h, b, n);
      } else if n == 0 {
        x, y := "", EarlierInput(h, a, m);
      } else {
        PrefixIntact(h, a, m);
        PrefixIntact(h, b, n);
        x, y := SameEndSameLog(h, a[..m], b[..n]);
        if a[..m] == b[..n] {
          assert a == a[..m] + [a[m]] && b == b[..n] + [b[n]];
        }
      }
    }
  }

  lemma PreviousLength(h: Digest, rows: seq<AuditRow>, i: nat)
    requires FixedLength(h) && Intact(h, rows) && i < |rows|
    ensures |rows[i].prevHash| == DIGEST_HEX_LEN
  {
    assert RowIntact(h, rows, i);
    if i > 0 {
      assert RowIntact(h, rows, i - 1);
    }
  }

  lemma PrefixIntact(h: Digest, rows: seq<AuditRow>, m: nat)
    requires Intact(h, rows) && m <= |rows|
    ensures Intact(h, rows[..m])
  {
    forall i | 0 <= i < m ensures RowIntact(h, rows[..m], i) {
      assert RowIntact(h, rows, i);
    }
  }

  /** What was hashed into the row before position n; it is never empty. */
  function EarlierInput(h: Digest, rows: seq<AuditRow>, n: nat): (x: string)
    requires FixedLength(h) && Intact(h, rows) && 0 < n < |rows|
    ensures x != "" && h(x) == rows[n].prevHash
  {
    PreviousLength(h, rows, n - 1);
    assert RowIntact(h, rows, n - 1) && RowIntact(h, rows, n);
    rows[n - 1].prevHash + rows[n - 1].event
  }

  /** Changing event or hash of any row but the last is found at that row or the next, unless
      the change itself exhibits a collision. */
  lemma TamperingIsFound(h: Digest, rows: seq<AuditRow>, i: nat, event: string, hash: string)
    requires Intact(h, rows) && i + 1 < |rows| && (event != rows[i].event || hash != rows[i].hash)
    ensures var bad := rows[i := rows[i].(event := event, hash := hash)];
      BreaksAt(h, bad, i) || BreaksAt(h, bad, i + 1)
      || Collision(h, rows[i].prevHash + event, rows[i].prevHash + rows[i].event)
  {
    var bad := rows[i := rows[i].(event := event, hash := hash)];
    forall j | 0 <= j < i ensures RowIntact(h, bad, j) {
      assert RowIntact(h, rows, j);
    }
    assert RowIntact(h, rows, i) && RowIntact(h, rows, i + 1);
    if RowIntact(h, bad, i) && hash == rows[i].hash {
      var p := rows[i].prevHash;
      assert (p + event)[|p|..] == event && (p + rows[i].event)[|p|..] == rows[i].event;
    }
  }

  /** A change to the last row goes unnoticed exactly when its hash was recomputed to match. */
  lemma LastRowTampering(h: Digest, rows: seq<AuditRow>, event: string, hash: string)
    requires Intact(h, rows) && rows != []
    ensures var n := |rows| - 1;
      Intact(h, rows[n := rows[n].(event := event, hash := hash)]) <==> hash == ChainHash(h, rows[n].prevHash, event)
  {
    var n := |rows| - 1;
    var bad := rows[n := rows[n].(event := event, hash := hash)];
    assert RowIntact(h, rows, n);
    assert RowIntact(h, bad, n) <==> hash == ChainHash(h, rows[n].prevHash, event);
    forall j | 0 <= j < n ensures RowIntact(h, bad, j) {
      assert RowIntact(h, rows, j);
    }
  }
}
