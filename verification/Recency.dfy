/** The bounded recency list behind consumer-side dedupe, as a function of its history. */
module Recency {

  function Without(s: seq<string>, id: string): (r: seq<string>)
    ensures id !in r && |r| <= |s| && (id in s ==> |r| < |s|)
    ensures forall x :: x in r <==> x in s && x != id
    decreases |s|
  {
    if s == [] then []
    else if s[0] == id then Without(s[1..], id)
    else [s[0]] + Without(s[1..], id)
  }

  /** The list after presenting id: refreshed to the front, or pushed with the oldest id
      evicted once more than max are held. */
  function AfterSeen(cache: seq<string>, max: nat, id: string): seq<string> {
    if id in cache then [id] + Without(cache, id)
    else if |cache| + 1 > max then ([id] + cache)[..|cache|]
    else [id] + cache
  }

  function AfterForget(cache: seq<string>, id: string): seq<string> {
    Without(cache, id)
  }

  predicate Distinct(s: seq<string>) {
    forall i, j :: 0 <= i < j < |s| ==> s[i] != s[j]
  }

  lemma {:induction false} WithoutDistinct(s: seq<string>, id: string)
    requires Distinct(s)
    ensures Distinct(Without(s, id))
    decreases |s|
  {
    if s != [] {
      assert s[0] !in s[1..];
      WithoutDistinct(s[1..], id);
    }
  }

  /** Removing the element at position k of a list without repeats. */
  lemma {:induction false} WithoutIsCut(s: seq<string>, k: nat)
    requires Distinct(s) && k < |s|
    ensures Without(s, s[k]) == s[..k] + s[k + 1..]
    decreases k
  {
    if k == 0 {
      WithoutAbsent(s[1..], s[0]);
    } else {
      WithoutIsCut(s[1..], k - 1);
      assert s[1..][k - 1] == s[k];
      assert s[..k] == [s[0]] + s[1..][..k - 1] && s[k + 1..] == s[1..][k..];
    }
  }

  lemma {:induction false} WithoutAbsent(s: seq<string>, id: string)
    requires id !in s
    ensures Without(s, id) == s
    decreases |s|
  {
    if s != [] {
      WithoutAbsent(s[1..], id);
    }
  }

  lemma SeenWellFormed(cache: seq<string>, max: nat, id: string)
    requires Distinct(cache) && |cache| <= max && 0 < max
    ensures Distinct(AfterSeen(cache, max, id)) && |AfterSeen(cache, max, id)| <= max
    ensures AfterSeen(cache, max, id) != [] && AfterSeen(cache, max, id)[0] == id
  {
    WithoutDistinct(cache, id);
  }

  // ------------------------------------------------------------ histories

  datatype Step = Present(id: string) | Forget(id: string)

  function Advance(cache: seq<string>, max: nat, step: Step): seq<string> {
    match step
    case Present(id) => AfterSeen(cache, max, id)
    case Forget(id) => AfterForget(cache, id)
  }

  function After(max: nat, h: seq<Step>): seq<string>
    decreases |h|
  {
    if h == [] then [] else Advance(After(max, h[..|h| - 1]), max, h[|h| - 1])
  }

  lemma {:induction false} AfterWellFormed(max: nat, h: seq<Step>)
    requires 0 < max
    ensures Distinct(After(max, h)) && |After(max, h)| <= max
    decreases |h|
  {
    if h != [] {
      var past := h[..|h| - 1];
      AfterWellFormed(max, past);
      match h[|h| - 1]
      case Present(id) => SeenWellFormed(After(max, past), max, id);
      case Forget(id) => WithoutDistinct(After(max, past), id);
    }
  }

  /** The same history with no bound on the list. */
  function Unbounded(h: seq<Step>): seq<string>
    decreases |h|
  {
    if h == [] then []
    else
      var past := Unbounded(h[..|h| - 1]);
      match h[|h| - 1]
      case Present(id) => [id] + Without(past, id)
      case Forget(id) => Without(past, id)
  }

  lemma {:induction false} WithoutPrefix(s: seq<string>, t: seq<string>, id: string)
    requires s <= t
    ensures Without(s, id) <= Without(t, id)
    decreases |s|
  {
    if s != [] {
      WithoutPrefix(s[1..], t[1..], id);
    }
  }

  /** The bounded list is always the most recent part of the unbounded one. */
  lemma {:induction false} BoundedIsPrefix(max: nat, h: seq<Step>)
    requires 0 < max
    ensures After(max, h) <= Unbounded(h)
    decreases |h|
  {
    if h != [] {
      var past := h[..|h| - 1];
      var id := h[|h| - 1].id;
      BoundedIsPrefix(max, past);
      WithoutPrefix(After(max, past), Unbounded(past), id);
      if id !in After(max, past) {
        WithoutAbsent(After(max, past), id);
      }
    }
  }

  /** id was presented at position i and has not been forgotten since. */
  predicate StandsSince(h: seq<Step>, i: nat, id: string) {
    i < |h| && h[i] == Present(id) && forall k | i < k < |h| :: h[k] != Forget(id)
  }

  /** Seen gives no false positives: a held id was presented and not forgotten since. */
  lemma {:induction false} HeldWasPresented(max: nat, h: seq<Step>, id: string)
    requires id in After(max, h)
    ensures exists i: nat :: StandsSince(h, i, id)
    decreases |h|
  {
    var n := |h| - 1;
    var past := h[..n];
    if h[n] == Present(id) {
      assert StandsSince(h, n, id);
    } else {
      assert id in After(max, past) && h[n] != Forget(id);
      HeldWasPresented(max, past, id);
      var i: nat :| StandsSince(past, i, id);
      assert past[i] == h[i];
      assert forall k | i < k < n :: past[k] == h[k];
      assert StandsSince(h, i, id);
    }
  }

  /** The ids other than id presented after position i. */
  function OthersSince(h: seq<Step>, i: nat, id: string): set<string> {
    set k | i < k < |h| && h[k].Present? && h[k].id != id :: h[k].id
  }

  lemma OthersGrow(h: seq<Step>, i: nat, id: string)
    requires 0 < |h| && i < |h| - 1
    ensures OthersSince(h, i, id) == OthersSince(h[..|h| - 1], i, id) + PresentedBy(h[|h| - 1], id)
  {
  }

  /** What stands in front of id in the list. */
  function Ahead(s: seq<string>, id: string): (r: seq<string>)
    ensures id !in r
    ensures r <= s && (id in s ==> |r| < |s| && s[|r|] == id)
    decreases |s|
  {
    if s == [] || s[0] == id then [] else [s[0]] + Ahead(s[1..], id)
  }

  function Elements(s: seq<string>): set<string> { set x | x in s }

  lemma {:induction false} DistinctCount(s: seq<string>)
    requires Distinct(s)
    ensures |Elements(s)| == |s|
    decreases |s|
  {
    if s != [] {
      DistinctCount(s[1..]);
      assert Elements(s) == {s[0]} + Elements(s[1..]);
    }
  }

  lemma NotAmong(s: seq<string>, n: nat, id: string)
    requires n <= |s| && id !in s[..n]
    ensures forall j | 0 <= j < n :: s[j] != id
  {
  }

  lemma AheadIs(s: seq<string>, id: string, k: nat)
    requires k < |s| && s[k] == id && id !in s[..k]
    ensures Ahead(s, id) == s[..k]
  {
  }

  lemma AheadOfTake(s: seq<string>, n: nat, id: string)
    requires n <= |s|
    ensures id in s[..n] ==> Ahead(s[..n], id) == Ahead(s, id)
    ensures id !in s[..n] && id in s ==> n <= |Ahead(s, id)|
  {
    if id in s[..n] {
      var k := |Ahead(s[..n], id)|;
      assert s[..n][..k] == s[..k];
      AheadIs(s, id, k);
    } else if id in s {
      NotAmong(s, n, id);
    }
  }

  lemma {:induction false} AheadOfWithout(s: seq<string>, id: string, x: string)
    requires x != id
    ensures Ahead(Without(s, x), id) == Without(Ahead(s, id), x)
    decreases |s|
  {
    if s != [] {
      AheadOfWithout(s[1..], id, x);
    }
  }

  lemma AheadOfPush(s: seq<string>, id: string, x: string)
    requires x != id
    ensures Ahead([x] + s, id) == [x] + Ahead(s, id)
  {
  }

  /** One presentation: id stays held, with at most one more id ahead of it, unless the list
      was full of more recent ids. */
  lemma PresentStep(cache: seq<string>, max: nat, id: string, x: string)
    requires |cache| <= max && 0 < max && id in cache && x != id
    ensures var next := AfterSeen(cache, max, x);
      if id in next then Elements(Ahead(next, id)) == Elements(Ahead(cache, id)) + {x}
      else x !in cache && |Ahead(cache, id)| + 1 == max
  {
    if x in cache {
      RefreshStep(cache, id, x);
    } else if |cache| == max {
      EvictStep(cache, id, x);
    } else {
      AheadOfPush(cache, id, x);
      ElementsOfPush(Ahead(cache, id), x);
    }
  }

  lemma ElementsOfPush(s: seq<string>, x: string)
    ensures Elements([x] + s) == Elements(s) + {x}
  {
  }

  lemma RefreshStep(cache: seq<string>, id: string, x: string)
    requires x in cache && id in cache && x != id
    ensures id in [x] + Without(cache, x)
    ensures Elements(Ahead([x] + Without(cache, x), id)) == Elements(Ahead(cache, id)) + {x}
  {
    var a := Ahead(cache, id);
    AheadOfPush(Without(cache, x), id, x);
    AheadOfWithout(cache, id, x);
    ElementsOfPush(Without(a, x), x);
    assert Elements(Without(a, x)) + {x} == Elements(a) + {x};
  }

  lemma EvictStep(cache: seq<string>, id: string, x: string)
    requires id in cache && x !in cache && x != id
    ensures var next := ([x] + cache)[..|cache|];
      if id in next then Elements(Ahead(next, id)) == Elements(Ahead(cache, id)) + {x}
      else |Ahead(cache, id)| + 1 == |cache|
  {
    var n := |cache| - 1;
    AheadOfTake(cache, n, id);
    assert ([x] + cache)[..|cache|] == [x] + cache[..n];
    AheadOfPush(cache[..n], id, x);
    ElementsOfPush(Ahead(cache, id), x);
  }

  /** Forgetting another id leaves id held with no more ahead of it than before. */
  lemma ForgetStep(cache: seq<string>, id: string, x: string)
    requires id in cache && x != id
    ensures id in AfterForget(cache, x)
    ensures Elements(Ahead(AfterForget(cache, x), id)) <= Elements(Ahead(cache, id))
  {
    AheadOfWithout(cache, id, x);
  }

  /** While id stands it is held with only later-presented ids ahead of it, until max other
      ids have been presented. Without any forgetting the ids ahead are exactly those. */
  lemma {:induction false} Window(max: nat, h: seq<Step>, i: nat, id: string)
    requires 0 < max && StandsSince(h, i, id)
    ensures Held(max, After(max, h), id, OthersSince(h, i, id))
    decreases |h|
  {
    var n := |h| - 1;
    var past := h[..n];
    if h[n] == Present(id) {
      PresentedIsHeld(max, After(max, past), id, OthersSince(h, i, id));
    } else {
      assert StandsSince(past, i, id);
      Window(max, past, i, id);
      AfterWellFormed(max, past);
      HeldStep(max, After(max, past), id, h[n], OthersSince(past, i, id));
      OthersGrow(h, i, id);
    }
  }

  /** Everything ahead of id is among the others, or there are at least max others. */
  ghost predicate Held(max: nat, cache: seq<string>, id: string, others: set<string>) {
    if id in cache then Elements(Ahead(cache, id)) <= others else max <= |others|
  }

  lemma PresentedIsHeld(max: nat, cache: seq<string>, id: string, others: set<string>)
    requires 0 < max
    ensures Held(max, AfterSeen(cache, max, id), id, others)
  {
    JustSeenHasNoneAhead(cache, max, id);
  }

  function PresentedBy(step: Step, id: string): set<string> {
    if step.Present? && step.id != id then {step.id} else {}
  }

  lemma HeldStep(max: nat, cache: seq<string>, id: string, step: Step, others: set<string>)
    requires 0 < max && Distinct(cache) && |cache| <= max && step.id != id && Held(max, cache, id, others)
    ensures Held(max, Advance(cache, max, step), id, others + PresentedBy(step, id))
  {
    if id in cache {
      match step
      case Present(x) =>
        PresentStep(cache, max, id, x);
        if id !in AfterSeen(cache, max, x) {
          EvictionCount(cache, max, id, x, others);
        }
      case Forget(x) => ForgetStep(cache, id, x);
    } else {
      Subset(others, others + PresentedBy(step, id));
      AbsentStaysOut(cache, max, id, step);
    }
  }

  lemma AbsentStaysOut(cache: seq<string>, max: nat, id: string, step: Step)
    requires id !in cache && step.id != id
    ensures id !in Advance(cache, max, step)
  {
  }

  lemma {:induction false} Subset(a: set<string>, b: set<string>)
    requires a <= b
    ensures |a| <= |b|
    decreases a
  {
    if a != {} {
      var x :| x in a;
      Subset(a - {x}, b - {x});
    }
  }

  lemma EvictionCount(cache: seq<string>, max: nat, id: string, x: string, others: set<string>)
    requires Distinct(cache) && x !in cache && |Ahead(cache, id)| + 1 == max
    requires Elements(Ahead(cache, id)) <= others
    ensures max <= |others + {x}|
  {
    var a := Ahead(cache, id);
    assert Distinct(a);
    DistinctCount(a);
    assert x !in Elements(a);
    Subset(Elements(a) + {x}, others + {x});
  }

  /** Seen misses an id that stands only after at least max other ids were presented since its
      last presentation. */
  lemma MissedOnlyBeyondWindow(max: nat, h: seq<Step>, i: nat, id: string)
    requires 0 < max && StandsSince(h, i, id) && |OthersSince(h, i, id)| < max
    ensures id in After(max, h)
  {
    Window(max, h, i, id);
  }

  /** With nothing forgotten, what is held is exactly what has had fewer than max other ids
      presented since its last presentation. */
  lemma HeldExactly(max: nat, h: seq<Step>, i: nat, id: string)
    requires 0 < max && i < |h| && h[i] == Present(id)
    requires forall k | 0 <= k < |h| :: h[k].Present? && (i < k ==> h[k].id != id)
    ensures id in After(max, h) <==> |OthersSince(h, i, id)| < max
  {
    Window(max, h, i, id);
    if id in After(max, h) {
      AheadExact(max, h, i, id);
      AfterWellFormed(max, h);
      DistinctCount(Ahead(After(max, h), id));
    }
  }

  lemma {:induction false} AheadExact(max: nat, h: seq<Step>, i: nat, id: string)
    requires 0 < max && i < |h| && h[i] == Present(id) && id in After(max, h)
    requires forall k | 0 <= k < |h| :: h[k].Present? && (i < k ==> h[k].id != id)
    ensures Elements(Ahead(After(max, h), id)) == OthersSince(h, i, id)
    decreases |h|
  {
    var n := |h| - 1;
    var past := h[..n];
    if i == n {
      JustSeenHasNoneAhead(After(max, past), max, id);
    } else {
      AfterWellFormed(max, past);
      OnlySeenComesBack(After(max, past), max, id, h[n].id);
      AheadExact(max, past, i, id);
      PresentStep(After(max, past), max, id, h[n].id);
      OthersGrow(h, i, id);
    }
  }

  lemma JustSeenHasNoneAhead(cache: seq<string>, max: nat, id: string)
    requires 0 < max
    ensures id in AfterSeen(cache, max, id) && Ahead(AfterSeen(cache, max, id), id) == []
  {
  }

  lemma OnlySeenComesBack(cache: seq<string>, max: nat, id: string, x: string)
    requires id != x && id in AfterSeen(cache, max, x)
    ensures id in cache
  {
  }
}
