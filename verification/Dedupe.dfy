/** The dedupe cache as it is built: a ring of doubly linked elements with a sentinel, and an
    index from id to element. */
module Dedupe {
  import opened Recency

  class Element {
    const value: string
    var next: Element?
    var prev: Element?

    constructor (value: string)
      ensures this.value == value && next == null && prev == null
    {
      this.value := value;
      next, prev := null, null;
    }
  }

  /** ring is the walk from the sentinel once around, with the sentinel at both ends. */
  class List {
    const root: Element
    var len: nat
    ghost var ring: seq<Element>

    ghost predicate Linked()
      reads this, ring
    {
      && |ring| >= 2 && ring[0] == root && ring[|ring| - 1] == root
      && (forall i, j :: 0 <= i < j < |ring| - 1 ==> ring[i] != ring[j])
      && (forall i {:trigger ring[i].next} :: 0 <= i < |ring| - 1 ==> ring[i].next == ring[i + 1])
      && (forall i {:trigger ring[i].prev} :: 0 < i < |ring| ==> ring[i].prev == ring[i - 1])
    }

    ghost predicate Valid()
      reads this, ring
    {
      Linked() && len == |ring| - 2
    }

    constructor ()
      ensures Valid() && fresh(root) && ring == [root, root]
    {
      var r := new Element("");
      root := r;
      len := 0;
      ring := [r, r];
      new;
      root.next, root.prev := root, root;
    }

    method Link(e: Element)
      requires Linked() && e !in ring
      modifies this`ring, ring, e
      ensures Linked() && ring == [root, e] + old(ring)[1..]
    {
      assert ring[0].next == ring[1] && ring[1].prev == ring[0];
      e.prev := root;
      e.next := root.next;
      e.prev.next := e;
      e.next.prev := e;
      ring := [root, e] + ring[1..];
    }

    method Unlink(e: Element, ghost k: nat)
      requires Linked() && 0 < k < |ring| - 1 && ring[k] == e
      modifies this`ring, ring
      ensures Linked() && ring == old(ring)[..k] + old(ring)[k + 1..] && e !in ring
    {
      assert ring[k].next == ring[k + 1] && ring[k].prev == ring[k - 1];
      e.prev.next := e.next;
      e.next.prev := e.prev;
      ring := ring[..k] + ring[k + 1..];
    }

    /** The oldest element, or null for an empty list. */
    method Back() returns (e: Element?)
      requires Valid()
      ensures e == if len == 0 then null else ring[len]
    {
      if len == 0 { return null; }
      assert ring[len + 1].prev == ring[len];
      e := root.prev;
    }

    method PushFront(value: string) returns (e: Element)
      requires Valid()
      modifies this, ring
      ensures Valid() && fresh(e) && e.value == value && ring == [root, e] + old(ring)[1..]
    {
      e := new Element(value);
      Link(e);
      len := len + 1;
    }

    method Remove(e: Element, ghost k: nat)
      requires Valid() && 0 < k <= len && ring[k] == e
      modifies this, ring
      ensures Valid() && ring == old(ring)[..k] + old(ring)[k + 1..]
    {
      Unlink(e, k);
      e.next := null;
      e.prev := null;
      len := len - 1;
    }

    method MoveToFront(e: Element, ghost k: nat)
      requires Valid() && 0 < k <= len && ring[k] == e
      modifies this`ring, ring
      ensures Valid() && ring == [root, e] + old(ring)[1..k] + old(ring)[k + 1..]
    {
      assert ring[0].next == ring[1];
      if root.next == e {
        assert k == 1;
        assert ring == [root, e] + ring[1..k] + ring[k + 1..];
      } else {
        Unlink(e, k);
        Link(e);
      }
    }
  }

  const DEFAULT_DEDUPE_SIZE := 4096

  /** The ids along a ring, most recently seen first. */
  ghost function Ids(ring: seq<Element>): seq<string>
    requires |ring| >= 2
  {
    seq(|ring| - 2, i requires 0 <= i < |ring| - 2 => ring[i + 1].value)
  }

  /** The ring and the index agree: every held id once, each entry at its own element. */
  ghost predicate Indexed(ring: seq<Element>, idx: map<string, Element>)
    requires |ring| >= 2
  {
    && Distinct(Ids(ring))
    && (forall id :: id in idx <==> id in Ids(ring))
    && (forall i :: 0 < i < |ring| - 1 ==> ring[i].value in idx && idx[ring[i].value] == ring[i])
  }

  lemma IndexedPush(ring: seq<Element>, idx: map<string, Element>, e: Element)
    requires |ring| >= 2 && Indexed(ring, idx) && e.value !in idx
    ensures Indexed([ring[0], e] + ring[1..], idx[e.value := e])
    ensures Ids([ring[0], e] + ring[1..]) == [e.value] + Ids(ring)
  {
    var next := [ring[0], e] + ring[1..];
    var q, q' := Ids(ring), Ids(next);
    assert forall i :: 2 <= i < |next| ==> next[i] == ring[i - 1];
    assert q' == [e.value] + q;
  }

  lemma IdsCut(ring: seq<Element>, k: nat)
    requires |ring| >= 2 && 0 < k < |ring| - 1 && Distinct(Ids(ring))
    ensures Ids(ring[..k] + ring[k + 1..]) == Without(Ids(ring), ring[k].value)
  {
    var next := ring[..k] + ring[k + 1..];
    assert forall i :: 0 <= i < k ==> next[i] == ring[i];
    assert forall i :: k <= i < |next| ==> next[i] == ring[i + 1];
    assert Ids(next) == Ids(ring)[..k - 1] + Ids(ring)[k..];
    assert Ids(ring)[k - 1] == ring[k].value;
    WithoutIsCut(Ids(ring), k - 1);
  }

  lemma IndexedCut(ring: seq<Element>, idx: map<string, Element>, k: nat)
    requires |ring| >= 2 && Indexed(ring, idx) && 0 < k < |ring| - 1
    ensures Indexed(ring[..k] + ring[k + 1..], idx - {ring[k].value})
    ensures Ids(ring[..k] + ring[k + 1..]) == Without(Ids(ring), ring[k].value)
  {
    var next := ring[..k] + ring[k + 1..];
    var idx' := idx - {ring[k].value};
    IdsCut(ring, k);
    WithoutDistinct(Ids(ring), ring[k].value);
    forall i | 0 < i < |next| - 1 ensures next[i].value in idx' && idx'[next[i].value] == next[i] {
      assert next[i] == ring[if i < k then i else i + 1];
      assert Ids(next)[i - 1] == next[i].value;
      assert Ids(next)[i - 1] in Ids(next);
    }
  }

  /** Where the index points is on the ring. */
  lemma IndexedAt(ring: seq<Element>, idx: map<string, Element>, id: string) returns (k: nat)
    requires |ring| >= 2 && Indexed(ring, idx) && id in idx
    ensures 0 < k < |ring| - 1 && ring[k] == idx[id] && ring[k].value == id
  {
    var i :| 0 <= i < |Ids(ring)| && Ids(ring)[i] == id;
    k := i + 1;
    assert ring[k].value == id;
  }

  class DedupeCache {
    const max: nat
    const ll: List
    var idx: map<string, Element>

    /** The ids held, most recently seen first. */
    ghost function Order(): seq<string>
      requires |ll.ring| >= 2
      reads this, ll
    {
      Ids(ll.ring)
    }

    ghost predicate Valid()
      reads this, ll, ll.ring
    {
      0 < max && ll.Valid() && ll.len <= max && Indexed(ll.ring, idx)
    }

    constructor (size: int)
      ensures Valid() && Order() == [] && fresh(ll) && fresh(ll.root)
      ensures max == if size <= 0 then 4096 else size
    {
      max := if size <= 0 then DEFAULT_DEDUPE_SIZE else size;
      ll := new List();
      idx := map[];
    }

    /** Reports whether id was held, and leaves it the most recent id. */
    method Seen(id: string) returns (seen: bool)
      requires Valid()
      modifies this`idx, ll, ll.ring
      ensures Valid() && forall i | 0 <= i < |ll.ring| :: ll.ring[i] in old(ll.ring) || fresh(ll.ring[i])
      ensures seen <==> id in old(Order())
      ensures Order() == AfterSeen(old(Order()), max, id)
    {
      if id in idx {
        Refresh(id);
        seen := true;
      } else {
        Record(id);
        seen := false;
      }
    }

    method Refresh(id: string)
      requires Valid() && id in idx
      modifies ll, ll.ring
      ensures Valid() && forall i | 0 <= i < |ll.ring| :: ll.ring[i] in old(ll.ring)
      ensures Order() == [id] + Without(old(Order()), id)
    {
      ghost var ring := ll.ring;
      var e := idx[id];
      ghost var k := IndexedAt(ring, idx, id);
      MovedIsRepushed(ring, idx, k);
      ll.MoveToFront(e, k);
    }

    method Record(id: string)
      requires Valid() && id !in idx
      modifies this`idx, ll, ll.ring
      ensures Valid() && forall i | 0 <= i < |ll.ring| :: ll.ring[i] in old(ll.ring) || fresh(ll.ring[i])
      ensures Order() == AfterSeen(old(Order()), max, id)
    {
      var e := ll.PushFront(id);
      IndexedPush(old(ll.ring), idx, e);
      idx := idx[id := e];
      if ll.len > max {
        EvictOldest();
      }
    }

    method EvictOldest()
      requires 0 < max && ll.Valid() && ll.len == max + 1 && Indexed(ll.ring, idx)
      modifies this`idx, ll, ll.ring
      ensures Valid() && forall i | 0 <= i < |ll.ring| :: ll.ring[i] in old(ll.ring)
      ensures Order() == old(Order())[..max]
    {
      ghost var ring := ll.ring;
      var oldest := ll.Back();
      if oldest != null {
        ghost var kept := ring[..max + 1] + ring[max + 2..];
        ghost var idx' := idx - {oldest.value};
        assert Indexed(kept, idx') && Ids(kept) == Ids(ring)[..max] by {
          IndexedDropLast(ring, idx);
        }
        ll.Remove(oldest, ll.len);
        assert ll.ring == kept;
        idx := idx - {oldest.value};
      }
    }

    method Forget(id: string)
      requires Valid()
      modifies this`idx, ll, ll.ring
      ensures Valid() && (forall i | 0 <= i < |ll.ring| :: ll.ring[i] in old(ll.ring))
      ensures Order() == AfterForget(old(Order()), id)
    {
      if id in idx {
        var e := idx[id];
        ghost var k := IndexedAt(ll.ring, idx, id);
        IndexedCut(ll.ring, idx, k);
        ll.Remove(e, k);
        idx := idx - {id};
      } else {
        WithoutAbsent(Order(), id);
      }
    }

    method Len() returns (n: nat)
      requires Valid()
      ensures n == |Order()| <= max
    {
      n := ll.len;
    }
  }

  /** Moving an element to the front is cutting it out and pushing it again. */
  lemma MovedIsRepushed(ring: seq<Element>, idx: map<string, Element>, k: nat)
    requires |ring| >= 2 && Indexed(ring, idx) && 0 < k < |ring| - 1
    requires forall i, j :: 0 <= i < j < |ring| - 1 ==> ring[i] != ring[j]
    requires ring[|ring| - 1] == ring[0]
    ensures Indexed([ring[0], ring[k]] + ring[1..k] + ring[k + 1..], idx)
    ensures Ids([ring[0], ring[k]] + ring[1..k] + ring[k + 1..]) == [ring[k].value] + Without(Ids(ring), ring[k].value)
  {
    var e := ring[k];
    var cut := ring[..k] + ring[k + 1..];
    IndexedCut(ring, idx, k);
    IndexedPush(cut, idx - {e.value}, e);
    assert [cut[0], e] + cut[1..] == [ring[0], e] + ring[1..k] + ring[k + 1..];
    assert (idx - {e.value})[e.value := e] == idx;
  }

  lemma IndexedDropLast(ring: seq<Element>, idx: map<string, Element>)
    requires |ring| >= 3 && Indexed(ring, idx)
    ensures var k := |ring| - 2;
      && Indexed(ring[..k] + ring[k + 1..], idx - {ring[k].value})
      && Ids(ring[..k] + ring[k + 1..]) == Ids(ring)[..k - 1]
  {
    var k := |ring| - 2;
    IndexedCut(ring, idx, k);
    assert Ids(ring)[k - 1] == ring[k].value;
    WithoutIsCut(Ids(ring), k - 1);
  }
}
