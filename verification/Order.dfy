/**
 Dense sibling positions of taypeer-core/src/order.rs. A position is a path of
 (rank, identity) segments. Siblings are compared by their paths completed with the
 sibling's own identity, so equal stored positions still have a fixed order.

 Ranks are a dense order without endpoints; rationals in `real` stand for the
 library's fractional indices, and their byte length is the parameter `width`.
 */
module Order {
  import Text
  import opened Wrappers

  datatype OrderError = OrderError

  datatype Segment = Segment(rank: real, identity: string)
  type Path = seq<Segment>
  type Key = Path
  datatype Sibling = Sibling(key: Key, id: string)

  const MAX_BYTES: nat := 4096
  const MIDDLE: real := 0.0

  function Before(a: real): real { a - 1.0 }

  function After(a: real): real { a + 1.0 }

  function Between(a: real, b: real): Option<real>
  {
    if a < b then Some((a + b) / 2.0) else None
  }

  // ----- the derived order of segments and paths

  predicate SegmentLess(a: Segment, b: Segment)
  {
    a.rank < b.rank || (a.rank == b.rank && Text.Less(a.identity, b.identity))
  }

  predicate PathLess(a: Path, b: Path)
  {
    b != [] && (a == [] || SegmentLess(a[0], b[0]) || (a[0] == b[0] && PathLess(a[1..], b[1..])))
  }

  function Complete(sibling: Sibling): (path: Path)
    ensures path != []
  {
    sibling.key + [Segment(MIDDLE, sibling.id)]
  }

  predicate Compare(a: Sibling, b: Sibling)
  {
    PathLess(Complete(a), Complete(b))
  }

  // ----- validation and allocation

  function Bytes(key: Key, width: real -> nat): nat
  {
    if key == [] then 0 else width(key[0].rank) + |key[0].identity| + Bytes(key[1..], width)
  }

  predicate Valid(key: Key, width: real -> nat)
  {
    && 0 < |key| <= MAX_BYTES
    && (forall i :: 0 <= i < |key| ==> key[i].identity != "")
    && Bytes(key, width) <= MAX_BYTES
  }

  function CommonPrefix(a: Path, b: Path): (n: nat)
    ensures n <= |a| && n <= |b| && a[..n] == b[..n]
    ensures n < |a| && n < |b| ==> a[n] != b[n]
  {
    if a == [] || b == [] || a[0] != b[0] then 0
    else
      var n := CommonPrefix(a[1..], b[1..]);
      assert a[..n + 1] == [a[0]] + a[1..][..n] && b[..n + 1] == [b[0]] + b[1..][..n];
      n + 1
  }

  /** Allocate a position between two siblings; a missing bound is the beginning or the end. */
  function Allocate(left: Option<Sibling>, right: Option<Sibling>, operation: string, width: real -> nat): Result<Key, OrderError>
  {
    if operation == "" then Err(OrderError)
    else
      var path := match (left, right) {
        case (None, None) => Ok([Segment(MIDDLE, operation)])
        case (None, Some(r)) => Ok([Segment(Before(Complete(r)[0].rank), operation)])
        case (Some(l), None) => Ok([Segment(After(Complete(l)[0].rank), operation)])
        case (Some(l), Some(r)) =>
          if !Compare(l, r) then Err(OrderError)
          else Split(Complete(l), Complete(r), operation)
      };
      if path.Ok? && Valid(path.value, width) then path else Err(OrderError)
  }

  function Split(left: Path, right: Path, operation: string): Result<Key, OrderError>
    requires PathLess(left, right)
  {
    PrefixOfLess(left, right);
    var common := CommonPrefix(left, right);
    if common == |left| then Ok(left + [Segment(Before(right[common].rank), operation)])
    else if left[common].rank < right[common].rank then
      match Between(left[common].rank, right[common].rank) {
        case Some(rank) => Ok(left[..common] + [Segment(rank, operation)])
        case None => Err(OrderError)
      }
    else Ok(left + [Segment(MIDDLE, operation)])
  }

  // ----- the order is strict and total

  lemma SegmentTransitive(a: Segment, b: Segment, c: Segment)
    requires SegmentLess(a, b) && SegmentLess(b, c)
    ensures SegmentLess(a, c)
  {
    if a.rank == b.rank == c.rank {
      Text.Transitive(a.identity, b.identity, c.identity);
    }
  }

  lemma {:induction false} PathIrreflexive(a: Path)
    ensures !PathLess(a, a)
  {
    if a != [] {
      Text.Irreflexive(a[0].identity);
      PathIrreflexive(a[1..]);
    }
  }

  lemma {:induction false} PathTransitive(a: Path, b: Path, c: Path)
    requires PathLess(a, b) && PathLess(b, c)
    ensures PathLess(a, c)
  {
    if a != [] {
      if a[0] == b[0] == c[0] {
        Text.Irreflexive(a[0].identity);
        PathTransitive(a[1..], b[1..], c[1..]);
      } else if SegmentLess(a[0], b[0]) && SegmentLess(b[0], c[0]) {
        SegmentTransitive(a[0], b[0], c[0]);
      }
    }
  }

  lemma {:induction false} PathTotal(a: Path, b: Path)
    ensures PathLess(a, b) || a == b || PathLess(b, a)
  {
    if a != [] && b != [] {
      Text.Total(a[0].identity, b[0].identity);
      if a[0] == b[0] {
        PathTotal(a[1..], b[1..]);
        assert a == [a[0]] + a[1..] && b == [b[0]] + b[1..];
      }
    }
  }

  lemma CompleteInjective(a: Sibling, b: Sibling)
    requires Complete(a) == Complete(b)
    ensures a == b
  {
    var x, y := Complete(a), Complete(b);
    assert a.key == x[..|x| - 1] && b.key == y[..|y| - 1];
    assert x[|x| - 1].identity == a.id && y[|y| - 1].identity == b.id;
  }

  /** Distinct siblings are always ordered, even at one stored position. */
  lemma DistinctSiblingsAreOrdered(a: Sibling, b: Sibling)
    requires a != b
    ensures Compare(a, b) != Compare(b, a)
  {
    var x, y := Complete(a), Complete(b);
    if x == y {
      CompleteInjective(a, b);
    }
    PathTotal(x, y);
    if PathLess(x, y) && PathLess(y, x) {
      PathTransitive(x, y, x);
      PathIrreflexive(x);
    }
  }

  // ----- paths that share a prefix

  lemma {:induction false} CompareAfterPrefix(prefix: Path, a: Path, b: Path)
    ensures PathLess(prefix + a, prefix + b) == PathLess(a, b)
  {
    if prefix == [] {
      assert prefix + a == a && prefix + b == b;
    } else {
      Text.Irreflexive(prefix[0].identity);
      assert (prefix + a)[1..] == prefix[1..] + a && (prefix + b)[1..] == prefix[1..] + b;
      CompareAfterPrefix(prefix[1..], a, b);
    }
  }

  /** A smaller path ends, or branches off to the left, where the common prefix ends. */
  lemma PrefixOfLess(a: Path, b: Path)
    requires PathLess(a, b)
    ensures var n := CommonPrefix(a, b); n < |b| && (n < |a| ==> SegmentLess(a[n], b[n]))
  {
    var n := CommonPrefix(a, b);
    assert a == a[..n] + a[n..] && b == a[..n] + b[n..];
    CompareAfterPrefix(a[..n], a[n..], b[n..]);
  }

  lemma LessByBranch(prefix: Path, a: Path, b: Path)
    requires b != [] && (a == [] || SegmentLess(a[0], b[0]))
    ensures PathLess(prefix + a, prefix + b)
  {
    CompareAfterPrefix(prefix, a, b);
  }

  // ----- main results

  /** A split is strictly between its bounds, whichever identity completes it. */
  lemma SplitIsBetween(left: Path, right: Path, operation: string, id: string)
    requires PathLess(left, right)
    ensures IsSplit(left, right, operation, id)
  {
    PrefixOfLess(left, right);
    var n := CommonPrefix(left, right);
    if n == |left| {
      BeforeNext(left, right, Before(right[n].rank), operation, id);
    } else if left[n].rank < right[n].rank {
      ByRank(left, right, n, Between(left[n].rank, right[n].rank).value, operation, id);
    } else {
      Below(left, right, n, operation, id);
    }
  }

  /** The completed key lies strictly between two paths. */
  ghost predicate Lies(left: Path, key: Key, id: string, right: Path)
  {
    PathLess(left, Complete(Sibling(key, id))) && PathLess(Complete(Sibling(key, id)), right)
  }

  /** A branch after a common prefix that goes right of one path and left of another lies between them. */
  lemma BranchBetween(prefix: Path, left: Path, branch: Path, right: Path, a: Path, c: Path, b: Path)
    requires a == prefix + left && c == prefix + branch && b == prefix + right
    requires PathLess(left, branch) && PathLess(branch, right)
    ensures PathLess(a, c) && PathLess(c, b)
  {
    CompareAfterPrefix(prefix, left, branch);
    CompareAfterPrefix(prefix, branch, right);
  }

  lemma Branching(a: Path, b: Path)
    requires b != [] && (a == [] || SegmentLess(a[0], b[0]))
    ensures PathLess(a, b)
  {
  }

  /** The left path is a prefix of the right one: the new one branches off before its next segment. */
  lemma BeforeNext(left: Path, right: Path, rank: real, operation: string, id: string)
    requires |left| < |right| && left == right[..|left|] && rank < right[|left|].rank
    ensures Lies(left, left + [Segment(rank, operation)], id, right)
  {
    var key, rest := left + [Segment(rank, operation)], right[|left|..];
    var branch := [Segment(rank, operation), Segment(MIDDLE, id)];
    assert left == left + [] && right == left + rest;
    assert Complete(Sibling(key, id)) == left + branch;
    Branching([], branch);
    Branching(branch, rest);
    BranchBetween(left, [], branch, rest, left, Complete(Sibling(key, id)), right);
  }

  /** The ranks differ: the new path branches off between them. */
  lemma ByRank(left: Path, right: Path, n: nat, rank: real, operation: string, id: string)
    requires n < |left| && n < |right| && left[..n] == right[..n] && left[n].rank < rank < right[n].rank
    ensures Lies(left, left[..n] + [Segment(rank, operation)], id, right)
  {
    var prefix, key := left[..n], left[..n] + [Segment(rank, operation)];
    var branch := [Segment(rank, operation), Segment(MIDDLE, id)];
    assert left == prefix + left[n..] && right == prefix + right[n..];
    assert Complete(Sibling(key, id)) == prefix + branch;
    Branching(left[n..], branch);
    Branching(branch, right[n..]);
    BranchBetween(prefix, left[n..], branch, right[n..], left, Complete(Sibling(key, id)), right);
  }

  /** Only the identities differ: the new path hangs below the left one. */
  lemma Below(left: Path, right: Path, n: nat, operation: string, id: string)
    requires n < |left| && n < |right| && left[..n] == right[..n] && SegmentLess(left[n], right[n])
    ensures Lies(left, left + [Segment(MIDDLE, operation)], id, right)
  {
    var prefix, key := left[..n], left + [Segment(MIDDLE, operation)];
    var branch := [Segment(MIDDLE, operation), Segment(MIDDLE, id)];
    assert left == prefix + left[n..] && right == prefix + right[n..];
    assert Complete(Sibling(key, id)) == left + branch;
    Associates(prefix, left[n..], branch);
    Branching([], branch);
    CompareAfterPrefix(left[n..], [], branch);
    assert left[n..] + [] == left[n..];
    Branching(left[n..] + branch, right[n..]);
    BranchBetween(prefix, left[n..], left[n..] + branch, right[n..], left, Complete(Sibling(key, id)), right);
  }

  lemma Associates(a: Path, b: Path, c: Path)
    ensures a + b + c == a + (b + c)
  {
  }

  ghost predicate IsSplit(left: Path, right: Path, operation: string, id: string)
    requires PathLess(left, right)
  {
    var split := Split(left, right, operation);
    && split.Ok?
    && |split.value| <= |left| + 1
    && Lies(left, split.value, id, right)
  }

  /** The position `Allocate` chooses before it checks the budget. */
  ghost function Candidate(left: Option<Sibling>, right: Option<Sibling>, operation: string): Key
    requires left.Some? && right.Some? ==> Compare(left.value, right.value)
  {
    match (left, right)
    case (None, None) => [Segment(MIDDLE, operation)]
    case (None, Some(r)) => [Segment(Before(Complete(r)[0].rank), operation)]
    case (Some(l), None) => [Segment(After(Complete(l)[0].rank), operation)]
    case (Some(l), Some(r)) =>
      SplitIsBetween(Complete(l), Complete(r), operation, "");
      Split(Complete(l), Complete(r), operation).value
  }

  /** Allocation fails only for an empty operation, misordered bounds or an invalid or oversized path. */
  lemma AllocationFails(left: Option<Sibling>, right: Option<Sibling>, operation: string, width: real -> nat)
    ensures Allocate(left, right, operation, width).Err? <==>
            (|| operation == ""
             || (left.Some? && right.Some? && !Compare(left.value, right.value))
             || !Valid(Candidate(left, right, operation), width))
  {
    if left.Some? && right.Some? && Compare(left.value, right.value) {
      SplitIsBetween(Complete(left.value), Complete(right.value), operation, "");
    }
  }

  /** An allocated position lies strictly between its neighbours and is at most two segments longer. */
  lemma AllocatedIsBetween(left: Option<Sibling>, right: Option<Sibling>, operation: string, width: real -> nat, id: string)
    requires Allocate(left, right, operation, width).Ok?
    ensures var key := Allocate(left, right, operation, width).value;
            && Valid(key, width)
            && |key| <= (if left.Some? then |left.value.key| else 0) + 2
            && (left.Some? ==> Compare(left.value, Sibling(key, id)))
            && (right.Some? ==> Compare(Sibling(key, id), right.value))
  {
    if left.Some? && right.Some? {
      SplitIsBetween(Complete(left.value), Complete(right.value), operation, id);
    }
  }

  // ----- what the order and the budget mean

  /** At the first differing segment `a` has ended, or has the smaller rank, or the same rank and the smaller identity. */
  ghost predicate BranchesLeft(a: Path, b: Path, n: nat)
  {
    && n <= |a| && n < |b| && a[..n] == b[..n]
    && (n == |a| || a[n].rank < b[n].rank || (a[n].rank == b[n].rank && Text.Earlier(a[n].identity, b[n].identity)))
  }

  /** Paths are compared at their first differing segment. */
  lemma PathLessMeans(a: Path, b: Path)
    ensures PathLess(a, b) <==> exists n: nat :: BranchesLeft(a, b, n)
  {
    if PathLess(a, b) {
      PrefixOfLess(a, b);
      var n := CommonPrefix(a, b);
      if n < |a| {
        Text.LessMeans(a[n].identity, b[n].identity);
      }
      assert BranchesLeft(a, b, n);
    }
    if n: nat :| BranchesLeft(a, b, n) {
      assert a == a[..n] + a[n..] && b == a[..n] + b[n..];
      if n < |a| {
        Text.LessMeans(a[n].identity, b[n].identity);
      }
      LessByBranch(a[..n], a[n..], b[n..]);
    }
  }

  lemma {:induction false} BytesOfPrefix(a: Key, b: Key, width: real -> nat)
    ensures Bytes(a + b, width) == Bytes(a, width) + Bytes(b, width)
  {
    if a == [] {
      assert a + b == b;
    } else {
      assert (a + b)[1..] == a[1..] + b;
      BytesOfPrefix(a[1..], b, width);
    }
  }

  lemma BytesOfOne(s: Segment, width: real -> nat)
    ensures Bytes([s], width) == width(s.rank) + |s.identity|
  {
    assert [s][1..] == [];
  }

  predicate Identified(key: Key)
  {
    forall i :: 0 <= i < |key| ==> key[i].identity != ""
  }

  lemma {:induction false} BytesExceedLength(key: Key, width: real -> nat)
    requires Identified(key)
    ensures |key| <= Bytes(key, width)
  {
    if key != [] {
      assert forall i :: 0 <= i < |key[1..]| ==> key[1..][i] == key[i + 1];
      BytesExceedLength(key[1..], width);
    }
  }

  /** Validation asks for a segment, identities that are not empty, and at most 4096 bytes. */
  lemma ValidMeans(key: Key, width: real -> nat)
    ensures Valid(key, width) <==> key != [] && Identified(key) && Bytes(key, width) <= 4096
  {
    if Identified(key) {
      BytesExceedLength(key, width);
    }
  }

  lemma Fits(kept: Key, rank: real, operation: string, width: real -> nat, most: nat)
    requires operation != "" && Identified(kept) && width(rank) <= most
    requires Bytes(kept, width) + most + |operation| <= 4096
    ensures Valid(kept + [Segment(rank, operation)], width)
  {
    var key := kept + [Segment(rank, operation)];
    BytesOfPrefix(kept, [Segment(rank, operation)], width);
    BytesOfOne(Segment(rank, operation), width);
    ValidMeans(key, width);
  }

  /** A candidate is a prefix of the completed left neighbour and one new segment. */
  lemma CandidateExtends(left: Option<Sibling>, right: Option<Sibling>, operation: string) returns (kept: Key, rank: real)
    requires left.Some? && right.Some? ==> Compare(left.value, right.value)
    ensures Candidate(left, right, operation) == kept + [Segment(rank, operation)]
    ensures if left.Some? then kept <= Complete(left.value) else kept == []
  {
    if left.Some? && right.Some? {
      SplitIsBetween(Complete(left.value), Complete(right.value), operation, "");
      PrefixOfLess(Complete(left.value), Complete(right.value));
    }
    var key := Candidate(left, right, operation);
    kept, rank := key[..|key| - 1], key[|key| - 1].rank;
  }

  lemma BytesOfCompleted(left: Sibling, kept: Key, width: real -> nat)
    requires kept <= Complete(left) && Identified(left.key) && left.id != ""
    ensures Identified(kept) && Bytes(kept, width) <= Bytes(left.key, width) + width(MIDDLE) + |left.id|
  {
    var whole := Complete(left);
    assert whole == kept + whole[|kept|..];
    BytesOfPrefix(kept, whole[|kept|..], width);
    BytesOfPrefix(left.key, [Segment(MIDDLE, left.id)], width);
    BytesOfOne(Segment(MIDDLE, left.id), width);
  }

  /**
   Between neighbours in order there is always room, as long as the left neighbour completed with its
   own identity, one more rank and the operation are within the budget.
   */
  lemma AllocationSucceeds(left: Option<Sibling>, right: Option<Sibling>, operation: string, width: real -> nat, most: nat)
    requires operation != "" && forall rank :: width(rank) <= most
    requires left.Some? && right.Some? ==> Compare(left.value, right.value)
    requires left.Some? ==> Identified(left.value.key) && left.value.id != ""
    requires (if left.Some? then Bytes(left.value.key, width) + width(0.0) + |left.value.id| else 0) + most + |operation| <= 4096
    ensures Allocate(left, right, operation, width).Ok?
  {
    var kept, rank := CandidateExtends(left, right, operation);
    if left.Some? {
      BytesOfCompleted(left.value, kept, width);
    }
    Fits(kept, rank, operation, width, most);
    AllocationFails(left, right, operation, width);
  }

  /** The first position of an empty list is refused exactly when it has no operation or is over the budget. */
  lemma FirstAllocation(operation: string, width: real -> nat)
    ensures Allocate(None, None, operation, width) ==
            if operation != "" && width(0.0) + |operation| <= 4096 then Ok([Segment(0.0, operation)]) else Err(OrderError)
  {
    BytesOfOne(Segment(MIDDLE, operation), width);
    ValidMeans([Segment(MIDDLE, operation)], width);
  }

  // ----- whole sibling lists

  ghost predicate Sorted(siblings: seq<Sibling>)
  {
    forall i, j :: 0 <= i < j < |siblings| ==> Compare(siblings[i], siblings[j])
  }

  /** One requested insertion: where, under which operation, and for which object. */
  datatype Insertion = Insertion(position: nat, operation: string, id: string)

  function Insert(siblings: seq<Sibling>, request: Insertion, width: real -> nat): Result<seq<Sibling>, OrderError>
  {
    var at := request.position;
    if at > |siblings| then Err(OrderError)
    else
      var left := if at > 0 then Some(siblings[at - 1]) else None;
      var right := if at < |siblings| then Some(siblings[at]) else None;
      match Allocate(left, right, request.operation, width) {
        case Err(_) => Err(OrderError)
        case Ok(key) => Ok(siblings[..at] + [Sibling(key, request.id)] + siblings[at..])
      }
  }

  /** Failed insertions leave the list as it was. */
  function InsertAll(siblings: seq<Sibling>, requests: seq<Insertion>, width: real -> nat): seq<Sibling>
    decreases requests
  {
    if requests == [] then siblings
    else
      var next := match Insert(siblings, requests[0], width) { case Ok(list) => list case Err(_) => siblings };
      InsertAll(next, requests[1..], width)
  }

  ghost predicate Subsequence<T>(a: seq<T>, b: seq<T>)
  {
    a == [] || (b != [] && ((a[0] == b[0] && Subsequence(a[1..], b[1..])) || Subsequence(a, b[1..])))
  }

  lemma InsertKeepsSorted(siblings: seq<Sibling>, request: Insertion, width: real -> nat)
    requires Sorted(siblings) && Insert(siblings, request, width).Ok?
    ensures Sorted(Insert(siblings, request, width).value)
  {
    var at := request.position;
    var left := if at > 0 then Some(siblings[at - 1]) else None;
    var right := if at < |siblings| then Some(siblings[at]) else None;
    AllocatedIsBetween(left, right, request.operation, width, request.id);
    var list := Insert(siblings, request, width).value;
    var added := list[at];
    forall i | 0 <= i < at ensures Compare(siblings[i], added) {
      if i < at - 1 {
        PathTransitive(Complete(siblings[i]), Complete(siblings[at - 1]), Complete(added));
      }
    }
    forall j | at <= j < |siblings| ensures Compare(added, siblings[j]) {
      if at < j {
        PathTransitive(Complete(added), Complete(siblings[at]), Complete(siblings[j]));
      }
    }
    forall i, j | 0 <= i < j < |list| ensures Compare(list[i], list[j]) {
      var k, l := if i < at then i else i - 1, if j < at then j else j - 1;
      assert i != at ==> list[i] == siblings[k];
      assert j != at ==> list[j] == siblings[l];
    }
  }

  lemma {:induction false} SubsequenceInsert<T>(a: seq<T>, b: seq<T>, x: T, at: nat)
    requires at <= |b| && Subsequence(a, b)
    ensures Subsequence(a, b[..at] + [x] + b[at..])
    decreases b
  {
    var c := b[..at] + [x] + b[at..];
    if at == 0 {
      assert c[1..] == b;
    } else if a != [] {
      assert c[1..] == b[1..][..at - 1] + [x] + b[1..][at - 1..];
      if a[0] == b[0] && Subsequence(a[1..], b[1..]) {
        SubsequenceInsert(a[1..], b[1..], x, at - 1);
      } else {
        SubsequenceInsert(a, b[1..], x, at - 1);
      }
    }
  }

  lemma {:induction false} SubsequenceRefl<T>(a: seq<T>)
    ensures Subsequence(a, a)
  {
    if a != [] {
      SubsequenceRefl(a[1..]);
    }
  }

  lemma {:induction false} KeepsSubsequence(base: seq<Sibling>, siblings: seq<Sibling>, requests: seq<Insertion>, width: real -> nat)
    requires Sorted(siblings) && Subsequence(base, siblings)
    ensures Sorted(InsertAll(siblings, requests, width))
    ensures Subsequence(base, InsertAll(siblings, requests, width))
    decreases requests
  {
    if requests != [] {
      match Insert(siblings, requests[0], width)
      case Err(_) =>
        KeepsSubsequence(base, siblings, requests[1..], width);
      case Ok(list) =>
        InsertKeepsSorted(siblings, requests[0], width);
        SubsequenceInsert(base, siblings, list[requests[0].position], requests[0].position);
        KeepsSubsequence(base, list, requests[1..], width);
    }
  }

  /** One insertion puts its object where it was asked to, and moves nothing else; it is refused beyond the end or without a position. */
  lemma InsertPlaces(siblings: seq<Sibling>, request: Insertion, width: real -> nat)
    ensures request.position > |siblings| ==> Insert(siblings, request, width).Err?
    ensures Insert(siblings, request, width).Ok? ==>
              var list, at := Insert(siblings, request, width).value, request.position;
              && at <= |siblings| && |list| == |siblings| + 1
              && list[..at] == siblings[..at] && list[at].id == request.id && list[at + 1..] == siblings[at..]
  {
  }

  lemma {:induction false} InsertAllSplit(siblings: seq<Sibling>, first: seq<Insertion>, second: seq<Insertion>, width: real -> nat)
    ensures InsertAll(siblings, first + second, width) == InsertAll(InsertAll(siblings, first, width), second, width)
    decreases first
  {
    if first == [] {
      assert first + second == second;
    } else {
      assert (first + second)[1..] == first[1..] + second;
      var next := match Insert(siblings, first[0], width) { case Ok(list) => list case Err(_) => siblings };
      InsertAllSplit(next, first[1..], second, width);
    }
  }

  /** At every moment of a run the list as it is then, with everything inserted so far, is part of the final list. */
  lemma InsertedStays(siblings: seq<Sibling>, requests: seq<Insertion>, k: nat, width: real -> nat)
    requires Sorted(siblings) && k < |requests|
    ensures var before := InsertAll(siblings, requests[..k], width);
            Subsequence(match Insert(before, requests[k], width) { case Ok(list) => list case Err(_) => before }, InsertAll(siblings, requests, width))
  {
    var before := InsertAll(siblings, requests[..k], width);
    var next := match Insert(before, requests[k], width) { case Ok(list) => list case Err(_) => before };
    assert requests == requests[..k] + requests[k..] && requests[k..][0] == requests[k] && requests[k..][1..] == requests[k + 1..];
    InsertAllSplit(siblings, requests[..k], requests[k..], width);
    InsertionsKeepOrder(siblings, requests[..k], width);
    if Insert(before, requests[k], width).Ok? {
      InsertKeepsSorted(before, requests[k], width);
    }
    InsertionsKeepOrder(next, requests[k + 1..], width);
  }

  /** Any run of insertions keeps the list strictly sorted and every existing sibling as it was. */
  lemma InsertionsKeepOrder(siblings: seq<Sibling>, requests: seq<Insertion>, width: real -> nat)
    requires Sorted(siblings)
    ensures Sorted(InsertAll(siblings, requests, width))
    ensures Subsequence(siblings, InsertAll(siblings, requests, width))
  {
    SubsequenceRefl(siblings);
    KeepsSubsequence(siblings, siblings, requests, width);
  }
}
