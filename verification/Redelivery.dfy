/** What redelivery can make a host consume twice: the dedupe list over a history of surfaced
    deliveries, refusals included. */
module Redelivery {
  import opened Recency

  /** One verified delivery brought to the host: its envelope id, and whether the handler would
      take it. */
  datatype Surfacing = Surfacing(id: string, ok: bool)

  function CacheAfter(max: nat, ds: seq<Surfacing>): seq<string>
    decreases |ds|
  {
    if ds == [] then [] else CacheNext(max, CacheAfter(max, ds[..|ds| - 1]), ds[|ds| - 1])
  }

  /** A refused new id is forgotten; what seeing it evicted stays evicted. */
  function CacheNext(max: nat, cache: seq<string>, d: Surfacing): seq<string> {
    var next := AfterSeen(cache, max, d.id);
    if d.id in cache || d.ok then next else AfterForget(next, d.id)
  }

  /** The j-th delivery was consumed by the host. */
  predicate ConsumedAt(max: nat, ds: seq<Surfacing>, j: nat)
    requires j < |ds|
  {
    ds[j].id !in CacheAfter(max, ds[..j]) && ds[j].ok
  }

  /** The other ids delivered after position i. */
  function OthersAfter(ds: seq<Surfacing>, i: nat, id: string): set<string> {
    set k | i < k < |ds| && ds[k].id != id :: ds[k].id
  }

  lemma {:induction false} CacheWellFormed(max: nat, ds: seq<Surfacing>)
    requires 0 < max
    ensures Distinct(CacheAfter(max, ds)) && |CacheAfter(max, ds)| <= max
    decreases |ds|
  {
    if ds != [] {
      var past := CacheAfter(max, ds[..|ds| - 1]);
      CacheWellFormed(max, ds[..|ds| - 1]);
      SeenWellFormed(past, max, ds[|ds| - 1].id);
      WithoutDistinct(AfterSeen(past, max, ds[|ds| - 1].id), ds[|ds| - 1].id);
    }
  }

  lemma OthersAfterGrow(ds: seq<Surfacing>, i: nat, id: string)
    requires i + 1 < |ds|
    ensures OthersAfter(ds, i, id)
         == OthersAfter(ds[..|ds| - 1], i, id) + if ds[|ds| - 1].id != id then {ds[|ds| - 1].id} else {}
  {
  }

  /** What was delivered at position i is held with only later ids ahead of it, or at least max
      other ids have come since. */
  ghost predicate HeldSince(max: nat, ds: seq<Surfacing>, i: nat)
    requires i < |ds|
  {
    var others := OthersAfter(ds, i, ds[i].id);
    max <= |others| || Held(max, CacheAfter(max, ds), ds[i].id, others)
  }

  /** Once consumed, an id is held until max other ids have been delivered. */
  lemma {:induction false} HeldAfterConsumed(max: nat, ds: seq<Surfacing>, i: nat)
    requires 0 < max && i < |ds| && ConsumedAt(max, ds, i)
    ensures HeldSince(max, ds, i)
    decreases |ds|
  {
    if i == |ds| - 1 {
      HeldAtOnce(max, CacheAfter(max, ds[..i]), ds[i], OthersAfter(ds, i, ds[i].id));
    } else {
      assert ds[..|ds| - 1][..i] == ds[..i];
      HeldAfterConsumed(max, ds[..|ds| - 1], i);
      HeldSinceStep(max, ds, i);
    }
  }

  lemma HeldSinceStep(max: nat, ds: seq<Surfacing>, i: nat)
    requires 0 < max && i < |ds| - 1 && HeldSince(max, ds[..|ds| - 1], i)
    ensures HeldSince(max, ds, i)
  {
    var n := |ds| - 1;
    CacheWellFormed(max, ds[..n]);
    HeldNext(max, CacheAfter(max, ds[..n]), ds[i].id, ds[n], OthersAfter(ds[..n], i, ds[i].id));
    OthersAfterGrow(ds, i, ds[i].id);
  }

  lemma HeldAtOnce(max: nat, cache: seq<string>, d: Surfacing, others: set<string>)
    requires 0 < max && d.id !in cache && d.ok
    ensures Held(max, CacheNext(max, cache, d), d.id, others)
  {
    PresentedIsHeld(max, cache, d.id, others);
  }

  lemma HeldNext(max: nat, cache: seq<string>, id: string, d: Surfacing, others: set<string>)
    requires 0 < max && Distinct(cache) && |cache| <= max && (max <= |others| || Held(max, cache, id, others))
    ensures var others' := others + if d.id != id then {d.id} else {};
      max <= |others'| || Held(max, CacheNext(max, cache, d), id, others')
  {
    Subset(others, others + {d.id});
    if |others| < max {
      assert id in cache;
      if d.id == id {
        PresentedIsHeld(max, cache, id, others);
      } else {
        HeldStep(max, cache, id, Present(d.id), others);
        if CacheNext(max, cache, d) != AfterSeen(cache, max, d.id) {
          SeenWellFormed(cache, max, d.id);
          HeldStep(max, AfterSeen(cache, max, d.id), id, Step.Forget(d.id), others + {d.id});
        }
      }
    }
  }

  /** The host consumes an id a second time only after at least max other ids were delivered in
      between, whatever was refused meanwhile. */
  lemma ConsumedTwiceOnlyBeyondWindow(max: nat, ds: seq<Surfacing>, i: nat, j: nat)
    requires 0 < max && i < j < |ds| && ds[i].id == ds[j].id
    requires ConsumedAt(max, ds, i) && ConsumedAt(max, ds, j)
    ensures max <= |OthersAfter(ds[..j], i, ds[i].id)|
  {
    assert ds[..j][..i] == ds[..i];
    HeldAfterConsumed(max, ds[..j], i);
  }

  // ------------------------------------------------------------ what was consumed

  /** The ids consumed, in order. */
  function Wins(max: nat, ds: seq<Surfacing>): seq<string>
    decreases |ds|
  {
    if ds == [] then []
    else
      var past, d := Wins(max, ds[..|ds| - 1]), ds[|ds| - 1];
      if d.id !in CacheAfter(max, ds[..|ds| - 1]) && d.ok then past + [d.id] else past
  }

  /** The ids the handler refused. */
  function Refusals(max: nat, ds: seq<Surfacing>): set<string>
    decreases |ds|
  {
    if ds == [] then {}
    else
      var past, d := Refusals(max, ds[..|ds| - 1]), ds[|ds| - 1];
      if d.id !in CacheAfter(max, ds[..|ds| - 1]) && !d.ok then past + {d.id} else past
  }

  /** One more surfacing. */
  lemma OneMore(max: nat, ds: seq<Surfacing>, d: Surfacing)
    ensures CacheAfter(max, ds + [d]) == CacheNext(max, CacheAfter(max, ds), d)
    ensures Wins(max, ds + [d]) == Wins(max, ds) + if d.id !in CacheAfter(max, ds) && d.ok then [d.id] else []
    ensures Refusals(max, ds + [d]) == Refusals(max, ds) + if d.id !in CacheAfter(max, ds) && !d.ok then {d.id} else {}
  {
    assert (ds + [d])[..|ds|] == ds;
  }

  /** Every consumed id was consumed at some position. */
  lemma {:induction false} WonAt(max: nat, ds: seq<Surfacing>, id: string) returns (i: nat)
    requires id in Wins(max, ds)
    ensures i < |ds| && ds[i].id == id && ConsumedAt(max, ds, i)
    decreases |ds|
  {
    var past := ds[..|ds| - 1];
    if id in Wins(max, past) {
      i := WonAt(max, past, id);
      assert past[..i] == ds[..i];
    } else {
      i := |ds| - 1;
    }
  }

  /** While the ids presented fit the list, no id is consumed twice. */
  lemma {:induction false} WinsDistinct(max: nat, ds: seq<Surfacing>, ids: set<string>)
    requires 0 < max && |ids| <= max && forall d | d in ds :: d.id in ids
    ensures Distinct(Wins(max, ds))
    decreases |ds|
  {
    if ds != [] {
      var n := |ds| - 1;
      var past, id := ds[..n], ds[n].id;
      WinsDistinct(max, past, ids);
      if ConsumedAt(max, ds, n) && id in Wins(max, past) {
        var i := WonAt(max, past, id);
        assert past[..i] == ds[..i];
        ConsumedTwiceOnlyBeyondWindow(max, ds, i, n);
        Subset(OthersAfter(past, i, id), ids - {id});
        assert false;
      }
    }
  }
}
