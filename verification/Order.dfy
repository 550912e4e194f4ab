/** Sorted listings: the registry's name list and the queue's drain order are both the
    elements of a set listed once each in ascending order. */
module Order {

  /** lt is a strict total order on the elements of s. */
  ghost predicate TotalOn<T(!new)>(lt: (T, T) -> bool, s: set<T>) {
    && (forall x | x in s :: !lt(x, x))
    && (forall x, y | x in s && y in s :: x == y || lt(x, y) || lt(y, x))
    && (forall x, y, z | x in s && y in s && z in s && lt(x, y) && lt(y, z) :: lt(x, z))
  }

  /** q lists exactly the elements of s, each once, in ascending order. */
  ghost predicate InOrder<T(!new)>(lt: (T, T) -> bool, s: set<T>, q: seq<T>) {
    && (forall x :: x in q <==> x in s)
    && (forall i, j :: 0 <= i < j < |q| ==> lt(q[i], q[j]))
  }

  /** The ascending listing of s. */
  ghost function Sorted<T(!new)>(lt: (T, T) -> bool, s: set<T>): seq<T> {
    if exists q :: InOrder(lt, s, q) then (var q :| InOrder(lt, s, q); q) else []
  }

  lemma {:induction false} InOrderUnique<T(!new)>(lt: (T, T) -> bool, s: set<T>, p: seq<T>, q: seq<T>)
    requires TotalOn(lt, s) && InOrder(lt, s, p) && InOrder(lt, s, q)
    ensures p == q
    decreases |p|
  {
    assert p != [] ==> p[0] in s && p[0] in q;
    assert q != [] ==> q[0] in s && q[0] in p;
    if p != [] {
      assert p[0] == q[0];
      var t := s - {p[0]};
      assert p == [p[0]] + p[1..] && q == [q[0]] + q[1..];
      assert p[0] !in p[1..] && q[0] !in q[1..];
      assert forall x :: (x in p <==> x == p[0] || x in p[1..]) && (x in q <==> x == q[0] || x in q[1..]);
      InOrderUnique(lt, t, p[1..], q[1..]);
    }
  }

  /** Inserts a new element into its place. */
  method Insert<T(!new)>(lt: (T, T) -> bool, ghost s: set<T>, q: seq<T>, x: T) returns (r: seq<T>)
    requires InOrder(lt, s, q) && x !in s && TotalOn(lt, s + {x})
    ensures InOrder(lt, s + {x}, r)
  {
    var i := 0;
    while i < |q| && lt(q[i], x)
      invariant 0 <= i <= |q|
      invariant forall j :: 0 <= j < i ==> lt(q[j], x)
    {
      i := i + 1;
    }
    InsertedInOrder(lt, s, q, x, i);
    r := q[..i] + [x] + q[i..];
  }

  lemma InsertedInOrder<T(!new)>(lt: (T, T) -> bool, s: set<T>, q: seq<T>, x: T, i: nat)
    requires InOrder(lt, s, q) && x !in s && TotalOn(lt, s + {x})
    requires i <= |q| && (forall j :: 0 <= j < i ==> lt(q[j], x)) && (i < |q| ==> !lt(q[i], x))
    ensures InOrder(lt, s + {x}, q[..i] + [x] + q[i..])
  {
  }

  lemma Place<T(!new)>(lt: (T, T) -> bool, q: seq<T>, x: T) returns (i: nat)
    ensures i <= |q| && (forall j :: 0 <= j < i ==> lt(q[j], x)) && (i < |q| ==> !lt(q[i], x))
  {
    i := 0;
    while i < |q| && lt(q[i], x)
      invariant 0 <= i <= |q|
      invariant forall j :: 0 <= j < i ==> lt(q[j], x)
    {
      i := i + 1;
    }
  }

  lemma {:induction false} Listing<T(!new)>(lt: (T, T) -> bool, s: set<T>) returns (q: seq<T>)
    requires TotalOn(lt, s)
    ensures InOrder(lt, s, q)
    decreases s
  {
    if s == {} {
      q := [];
    } else {
      var x :| x in s;
      var t := s - {x};
      q := Listing(lt, t);
      var i := Place(lt, q, x);
      assert t + {x} == s;
      InsertedInOrder(lt, t, q, x, i);
      q := q[..i] + [x] + q[i..];
    }
  }

  lemma SortedInOrder<T(!new)>(lt: (T, T) -> bool, s: set<T>)
    requires TotalOn(lt, s)
    ensures InOrder(lt, s, Sorted(lt, s))
  {
    var q := Listing(lt, s);
  }

  /** Byte order on names. UTF-8 preserves the order of Unicode scalar values, so names
      compare scalar by scalar. */
  predicate StrLess(a: string, b: string) {
    if b == "" then false
    else if a == "" then true
    else if a[0] != b[0] then a[0] < b[0]
    else StrLess(a[1..], b[1..])
  }

  /** The names agree before position n; there a ends, or has the smaller character. */
  ghost predicate SmallerAt(a: string, b: string, n: nat) {
    n <= |a| && n < |b| && a[..n] == b[..n] && (n == |a| || a[n] < b[n])
  }

  /** A name comes first when it is a proper prefix of the other, or has the smaller character
      where they first differ. */
  lemma {:induction false} StrLessIff(a: string, b: string)
    ensures StrLess(a, b) <==> exists n: nat :: SmallerAt(a, b, n)
  {
    if b != "" {
      if a == "" || a[0] < b[0] {
        assert SmallerAt(a, b, 0);
      } else if a[0] == b[0] {
        StrLessIff(a[1..], b[1..]);
        forall n: nat | SmallerAt(a[1..], b[1..], n) ensures SmallerAt(a, b, n + 1) {
          assert a[..n + 1] == [a[0]] + a[1..][..n] && b[..n + 1] == [b[0]] + b[1..][..n];
        }
        forall n: nat | SmallerAt(a, b, n) ensures n > 0 && SmallerAt(a[1..], b[1..], n - 1) {
          assert a[1..][..n - 1] == a[..n][1..] && b[1..][..n - 1] == b[..n][1..];
        }
      } else {
        forall n: nat ensures !SmallerAt(a, b, n) {
          if 0 < n <= |a| && n <= |b| {
            assert a[..n][0] != b[..n][0];
          }
        }
      }
    }
  }

  lemma {:induction false} StrLessIsStrictOrder(a: string, b: string, c: string)
    ensures !StrLess(a, a)
    ensures StrLess(a, b) && StrLess(b, c) ==> StrLess(a, c)
    decreases |a| + |b| + |c|
  {
    if a != "" && b != "" && c != "" {
      StrLessIsStrictOrder(a[1..], b[1..], c[1..]);
    } else if a != "" {
      StrLessIsStrictOrder(a[1..], b, c);
    }
  }

  lemma {:induction false} StrLessIsTotal(a: string, b: string)
    ensures a == b || StrLess(a, b) || StrLess(b, a)
  {
    if a != "" && b != "" && a[0] == b[0] {
      StrLessIsTotal(a[1..], b[1..]);
      assert a == [a[0]] + a[1..] && b == [b[0]] + b[1..];
    }
  }

  lemma NamesTotal(s: set<string>)
    ensures TotalOn(StrLess, s)
  {
    forall x, y, z | x in s && y in s && z in s
      ensures !StrLess(x, x) && (StrLess(x, y) && StrLess(y, z) ==> StrLess(x, z))
    {
      StrLessIsStrictOrder(x, y, z);
    }
    forall x, y | x in s && y in s ensures x == y || StrLess(x, y) || StrLess(y, x) {
      StrLessIsTotal(x, y);
    }
  }
}
