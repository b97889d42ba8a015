/** Strictly sorted sequences: one for each set of elements. */
module Sorting {

  ghost predicate StrictlySorted<T(!new)>(less: (T, T) -> bool, s: seq<T>)
  {
    forall i, j :: 0 <= i < j < |s| ==> less(s[i], s[j])
  }

  /** `less` orders the elements of `s` and is transitive and asymmetric everywhere. */
  ghost predicate Orders<T(!new)>(less: (T, T) -> bool, s: seq<T>)
  {
    && (forall x, y :: x in s && y in s ==> x == y || less(x, y) || less(y, x))
    && Strict(less)
  }

  ghost predicate Strict<T(!new)>(less: (T, T) -> bool)
  {
    && (forall x, y, z :: less(x, y) && less(y, z) ==> less(x, z))
    && (forall x, y :: less(x, y) ==> !less(y, x))
  }

  function Insert<T(!new)>(less: (T, T) -> bool, x: T, s: seq<T>): seq<T>
  {
    if s == [] || less(x, s[0]) then [x] + s else [s[0]] + Insert(less, x, s[1..])
  }

  function Sort<T(!new)>(less: (T, T) -> bool, s: seq<T>): seq<T>
  {
    if s == [] then [] else Insert(less, s[0], Sort(less, s[1..]))
  }

  lemma {:induction false} InsertSorts<T(!new)>(less: (T, T) -> bool, x: T, s: seq<T>)
    requires StrictlySorted(less, s) && x !in s && Orders(less, [x] + s)
    ensures StrictlySorted(less, Insert(less, x, s))
    ensures forall y :: y in Insert(less, x, s) <==> y == x || y in s
  {
    if s != [] {
      var t := s[1..];
      assert forall y :: y in s <==> y == s[0] || y in t;
      if less(x, s[0]) {
        forall j | 0 <= j < |s| ensures less(x, s[j]) {
        }
      } else {
        assert x in [x] + s && s[0] in [x] + s;
        assert forall y :: y in [x] + t ==> y in [x] + s;
        InsertSorts(less, x, t);
        var r := Insert(less, x, t);
        forall j | 0 <= j < |r| ensures less(s[0], r[j]) {
          assert r[j] in r;
          if r[j] != x {
            var k :| 0 <= k < |t| && t[k] == r[j];
            assert s[k + 1] == r[j];
          }
        }
      }
    }
  }

  lemma {:induction false} SortSorts<T(!new)>(less: (T, T) -> bool, s: seq<T>)
    requires Orders(less, s) && forall i, j :: 0 <= i < j < |s| ==> s[i] != s[j]
    ensures StrictlySorted(less, Sort(less, s))
    ensures forall y :: y in Sort(less, s) <==> y in s
  {
    if s != [] {
      var t := s[1..];
      assert forall y :: y in s <==> y == s[0] || y in t;
      SortSorts(less, t);
      assert s[0] !in t;
      assert forall y :: y in [s[0]] + Sort(less, t) ==> y in s;
      InsertSorts(less, s[0], Sort(less, t));
    }
  }

  /** Sorting forgets the order in which elements were delivered. */
  lemma {:induction false} SortedUnique<T(!new)>(less: (T, T) -> bool, a: seq<T>, b: seq<T>)
    requires Strict(less) && StrictlySorted(less, a) && StrictlySorted(less, b)
    requires forall x :: x in a <==> x in b
    ensures a == b
  {
    if a == [] {
      if b != [] {
        HeadIsMember(b);
      }
    } else {
      assert a[0] in a;
      assert b[0] in b;
      HeadIsLeast(less, a, b[0]);
      HeadIsLeast(less, b, a[0]);
      forall x ensures x in a[1..] <==> x in b[1..] {
        TailMembers(less, a, x);
        TailMembers(less, b, x);
      }
      SortedUnique(less, a[1..], b[1..]);
      assert a == [a[0]] + a[1..] && b == [b[0]] + b[1..];
    }
  }

  lemma HeadIsMember<T>(s: seq<T>)
    requires s != []
    ensures s[0] in s
  {
  }

  lemma HeadIsLeast<T(!new)>(less: (T, T) -> bool, s: seq<T>, x: T)
    requires StrictlySorted(less, s) && x in s
    ensures x == s[0] || less(s[0], x)
  {
    var k :| 0 <= k < |s| && s[k] == x;
  }

  lemma TailMembers<T(!new)>(less: (T, T) -> bool, s: seq<T>, x: T)
    requires Strict(less) && StrictlySorted(less, s) && s != []
    ensures x in s[1..] <==> x in s && x != s[0]
  {
    if x in s[1..] {
      var k :| 0 <= k < |s[1..]| && s[1..][k] == x;
      assert less(s[0], s[k + 1]);
    }
  }
}
