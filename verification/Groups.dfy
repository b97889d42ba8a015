/**
 The ordinary group tree of taypeer-document/src/groups.rs. Concurrent moves can leave
 cycles, orphans and edges into closed generations; `Tree` lifts one edge per cycle, drops
 orphaned edges and then spreads statuses until nothing changes.
 */
module Groups {
  import Text
  import opened Operations
  import opened Wrappers

  datatype Address = Address(id: string, generation: string)
  datatype Status = Active | Trashed | Purged | Unplaced

  /**
   One group generation as `read_group` delivers it. `retained` holds the parents of every
   placement alternative, `parent` the parent of the selected one, `rank` the operation of
   the latest placement.
   */
  datatype Node = Node(current: bool, parent: Option<Address>, retained: set<Address>, rank: OpId, status: Status, conflict: bool)

  type Graph = map<Address, Node>

  /** What reading the stored registers guarantees: the selected placement is one of the retained ones. */
  ghost predicate Stored(g: Graph)
  {
    forall a :: a in g ==>
      && (g[a].parent.Some? ==> g[a].parent.value in g[a].retained)
      && g[a].status != Unplaced
  }

  // ----- order of placements

  predicate AddressLess(a: Address, b: Address)
  {
    Text.Less(a.id, b.id) || (a.id == b.id && Text.Less(a.generation, b.generation))
  }

  predicate KeyLess(g: Graph, a: Address, b: Address)
    requires a in g && b in g
  {
    Operations.Precedes(g[a].rank, g[b].rank) || (g[a].rank == g[b].rank && AddressLess(a, b))
  }

  lemma KeyTotal(g: Graph, a: Address, b: Address)
    requires a in g && b in g
    ensures a == b || KeyLess(g, a, b) || KeyLess(g, b, a)
    ensures !(KeyLess(g, a, b) && KeyLess(g, b, a))
    ensures !KeyLess(g, a, a)
  {
    Operations.Total(g[a].rank, g[b].rank);
    Text.Total(a.id, b.id);
    Text.Total(a.generation, b.generation);
    Operations.Irreflexive(g[a].rank);
    Text.Irreflexive(a.id);
    Text.Irreflexive(a.generation);
    if Operations.Precedes(g[a].rank, g[b].rank) && Operations.Precedes(g[b].rank, g[a].rank) {
      Operations.Transitive(g[a].rank, g[b].rank, g[a].rank);
    }
    if Text.Less(a.id, b.id) && Text.Less(b.id, a.id) {
      Text.Transitive(a.id, b.id, a.id);
    }
    if Text.Less(a.generation, b.generation) && Text.Less(b.generation, a.generation) {
      Text.Transitive(a.generation, b.generation, a.generation);
    }
  }

  lemma KeyTransitive(g: Graph, a: Address, b: Address, c: Address)
    requires a in g && b in g && c in g
    requires KeyLess(g, a, b) && KeyLess(g, b, c)
    ensures KeyLess(g, a, c)
  {
    if Operations.Precedes(g[a].rank, g[b].rank) && Operations.Precedes(g[b].rank, g[c].rank) {
      Operations.Transitive(g[a].rank, g[b].rank, g[c].rank);
    }
    if Text.Less(a.id, b.id) && Text.Less(b.id, c.id) {
      Text.Transitive(a.id, b.id, c.id);
    }
    if Text.Less(a.generation, b.generation) && Text.Less(b.generation, c.generation) {
      Text.Transitive(a.generation, b.generation, c.generation);
    }
  }

  /** An older latest placement comes first; the same one, by the characters of the address. */
  lemma KeyMeans(g: Graph, a: Address, b: Address)
    requires a in g && b in g
    ensures KeyLess(g, a, b) <==>
            var p, q := g[a].rank, g[b].rank;
            || p.counter < q.counter
            || (p.counter == q.counter && Text.Earlier(p.actor, q.actor))
            || (p == q && (Text.Earlier(a.id, b.id) || (a.id == b.id && Text.Earlier(a.generation, b.generation))))
  {
    Operations.PrecedesMeans(g[a].rank, g[b].rank);
    Text.LessMeans(a.id, b.id);
    Text.LessMeans(a.generation, b.generation);
  }

  ghost predicate IsLeast(g: Graph, s: set<Address>, a: Address)
  {
    a in s && s <= g.Keys && forall b :: b in s ==> b == a || KeyLess(g, a, b)
  }

  lemma {:induction false} LeastExists(g: Graph, s: set<Address>) returns (least: Address)
    requires s != {} && s <= g.Keys
    ensures IsLeast(g, s, least)
  {
    var a :| a in s;
    least := a;
    if s != {a} {
      var b := LeastExists(g, s - {a});
      KeyTotal(g, a, b);
      if KeyLess(g, a, b) {
        forall c | c in s ensures c == a || KeyLess(g, a, c) {
          if c != a && c != b {
            KeyTransitive(g, a, b, c);
          }
        }
      } else {
        least := b;
      }
    }
  }

  // ----- following selected parents

  /** The edge the walk may follow: only a current node passes it on. */
  function Next(g: Graph, a: Address): Option<Address>
  {
    if a in g && g[a].current then g[a].parent else None
  }

  function Chain(g: Graph, a: Address, n: nat): Option<Address>
    decreases n
  {
    if n == 0 then Some(a)
    else match Next(g, a) {
      case None => None
      case Some(b) => Chain(g, b, n - 1)
    }
  }

  ghost predicate Meets(g: Graph, a: Address, b: Address)
  {
    exists n: nat :: Chain(g, a, n) == Some(b)
  }

  ghost predicate Returns(g: Graph, a: Address, n: nat)
  {
    n > 0 && Chain(g, a, n) == Some(a)
  }

  ghost predicate OnCycle(g: Graph, a: Address)
  {
    exists n: nat :: Returns(g, a, n)
  }

  /** The node of a cycle whose edge is lifted: the least by (placement rank, address). */
  ghost predicate CycleRoot(g: Graph, a: Address)
  {
    a in g && OnCycle(g, a) && forall b :: Meets(g, a, b) ==> b in g && (b == a || KeyLess(g, a, b))
  }

  lemma {:induction false} ChainAdd(g: Graph, a: Address, m: nat, n: nat)
    ensures Chain(g, a, m + n) == match Chain(g, a, m) { case None => None case Some(b) => Chain(g, b, n) }
    decreases m
  {
    if m > 0 && Next(g, a).Some? {
      ChainAdd(g, Next(g, a).value, m - 1, n);
    }
  }

  lemma {:induction false} CycleNeverEnds(g: Graph, a: Address, k: nat, n: nat)
    requires Returns(g, a, k)
    ensures Chain(g, a, n).Some?
    decreases n
  {
    if n <= k {
      ChainAdd(g, a, n, k - n);
    } else {
      ChainAdd(g, a, k, n - k);
      CycleNeverEnds(g, a, k, n - k);
    }
  }

  lemma {:induction false} CycleComesBack(g: Graph, a: Address, k: nat, b: Address, m: nat)
    requires Returns(g, a, k) && Chain(g, a, m) == Some(b)
    ensures Meets(g, b, a) && OnCycle(g, b)
    decreases m
  {
    if m <= k {
      ChainAdd(g, a, m, k - m);
      assert Chain(g, b, k - m) == Some(a);
      ChainAdd(g, b, k - m, m);
      if k > 0 {
        assert Returns(g, b, k);
      }
    } else {
      ChainAdd(g, a, k, m - k);
      CycleComesBack(g, a, k, b, m - k);
    }
  }

  lemma MeetsTransitive(g: Graph, a: Address, b: Address, c: Address)
    requires Meets(g, a, b) && Meets(g, b, c)
    ensures Meets(g, a, c)
  {
    var m: nat :| Chain(g, a, m) == Some(b);
    var n: nat :| Chain(g, b, n) == Some(c);
    ChainAdd(g, a, m, n);
  }

  lemma CycleStaysInside(g: Graph, a: Address, b: Address)
    requires OnCycle(g, a) && Meets(g, a, b)
    ensures b in g && g[b].current && Meets(g, b, a) && OnCycle(g, b)
  {
    var k: nat :| Returns(g, a, k);
    var m: nat :| Chain(g, a, m) == Some(b);
    CycleComesBack(g, a, k, b, m);
    var j: nat :| Returns(g, b, j);
  }

  // ----- the walk

  /** Follow selected parents from `start`; a repeated address closes a cycle and yields its root. */
  method Walk(g: Graph, start: Address) returns (root: Option<Address>)
    requires start in g
    ensures root.Some? ==> CycleRoot(g, root.value)
    ensures CycleRoot(g, start) ==> root == Some(start)
  {
    var path: seq<Address> := [];
    var positions: map<Address, nat> := map[];
    var cursor := Some(start);
    while cursor.Some?
      invariant positions.Keys <= g.Keys
      invariant forall i :: 0 <= i < |path| ==> path[i] in positions && positions[path[i]] == i
      invariant forall a :: a in positions ==> positions[a] < |path| && path[positions[a]] == a
      invariant forall i :: 0 <= i < |path| ==> Chain(g, start, i) == Some(path[i])
      invariant Chain(g, start, |path|) == cursor
      decreases g.Keys - positions.Keys, cursor.Some?
    {
      var address := cursor.value;
      if address in positions {
        var position := positions[address];
        var least := LeastOf(g, path[position..]);
        ClosedWalk(g, start, path, position, least);
        return Some(least);
      }
      ChainAdd(g, start, |path|, 1);
      assert Chain(g, address, 1) == Next(g, address);
      if address !in g || !g[address].current {
        break;
      }
      ghost var before := positions.Keys;
      positions := positions[address := |path|];
      assert address in g.Keys - before;
      path := path + [address];
      cursor := g[address].parent;
    }
    EndedWalk(g, start, if cursor.Some? then |path| + 1 else |path|);
    root := None;
  }

  method LeastOf(g: Graph, cycle: seq<Address>) returns (least: Address)
    requires cycle != [] && forall i :: 0 <= i < |cycle| ==> cycle[i] in g
    ensures least in cycle && forall b :: b in cycle ==> b == least || KeyLess(g, least, b)
  {
    least := cycle[0];
    for i := 1 to |cycle|
      invariant least in cycle
      invariant forall j :: 0 <= j < i ==> cycle[j] == least || KeyLess(g, least, cycle[j])
    {
      KeyTotal(g, cycle[i], least);
      if KeyLess(g, cycle[i], least) {
        forall j | 0 <= j < i && cycle[j] != least ensures KeyLess(g, cycle[i], cycle[j]) {
          KeyTransitive(g, cycle[i], least, cycle[j]);
        }
        least := cycle[i];
      }
    }
  }

  lemma EndedWalk(g: Graph, start: Address, n: nat)
    requires Chain(g, start, n) == None
    ensures !OnCycle(g, start)
  {
    if OnCycle(g, start) {
      var k: nat :| Returns(g, start, k);
      CycleNeverEnds(g, start, k, n);
    }
  }

  lemma {:induction false} WalkStays(g: Graph, start: Address, path: seq<Address>, p: nat, n: nat)
    requires p < |path| && Chain(g, start, |path|) == Some(path[p])
    requires forall i :: 0 <= i < |path| ==> Chain(g, start, i) == Some(path[i])
    requires n >= p
    ensures Chain(g, start, n).Some? && Chain(g, start, n).value in path[p..]
    decreases n
  {
    if n < |path| {
      assert path[p..][n - p] == path[n];
    } else {
      ChainAdd(g, start, |path|, n - |path|);
      ChainAdd(g, start, p, n - |path|);
      WalkStays(g, start, path, p, p + n - |path|);
    }
  }

  lemma ClosedWalk(g: Graph, start: Address, path: seq<Address>, p: nat, least: Address)
    requires p < |path| && Chain(g, start, |path|) == Some(path[p])
    requires forall i :: 0 <= i < |path| ==> path[i] in g && Chain(g, start, i) == Some(path[i])
    requires forall i, j :: 0 <= i < j < |path| ==> path[i] != path[j]
    requires least in path[p..] && forall b :: b in path[p..] ==> b == least || KeyLess(g, least, b)
    ensures CycleRoot(g, least)
    ensures CycleRoot(g, start) ==> least == start
  {
    var q: nat :| p <= q < |path| && path[q] == least;
    ChainAdd(g, start, q, |path| - q);
    ChainAdd(g, least, |path| - q, q - p);
    ChainAdd(g, start, p, q - p);
    assert Returns(g, least, |path| - p);
    forall b | Meets(g, least, b) ensures b in g && (b == least || KeyLess(g, least, b)) {
      var n: nat :| Chain(g, least, n) == Some(b);
      ChainAdd(g, start, q, n);
      WalkStays(g, start, path, p, q + n);
    }
    if CycleRoot(g, start) {
      assert Meets(g, start, least);
      CycleStaysInside(g, start, least);
      KeyTotal(g, start, least);
    }
  }

  method FindRoots(g: Graph) returns (roots: set<Address>)
    ensures forall a :: a in roots <==> CycleRoot(g, a)
  {
    roots := {};
    var starts := g.Keys;
    while starts != {}
      invariant starts <= g.Keys
      invariant forall a :: a in roots ==> CycleRoot(g, a)
      invariant forall a :: a in g.Keys - starts && CycleRoot(g, a) ==> a in roots
    {
      var start :| start in starts;
      starts := starts - {start};
      var root := Walk(g, start);
      if root.Some? {
        roots := roots + {root.value};
      }
    }
  }

  // ----- lifting one edge per cycle

  ghost predicate Lifted(g: Graph, lifted: Graph)
  {
    && lifted.Keys == g.Keys
    && forall a :: a in g ==> lifted[a] == if CycleRoot(g, a) then g[a].(parent := None) else g[a]
  }

  method Lift(g: Graph) returns (lifted: Graph)
    ensures Lifted(g, lifted)
  {
    var roots := FindRoots(g);
    lifted := g;
    var pending := roots;
    while pending != {}
      invariant pending <= roots && lifted.Keys == g.Keys
      invariant forall a :: a in g ==> lifted[a] == if a in roots - pending then g[a].(parent := None) else g[a]
    {
      var a :| a in pending;
      pending := pending - {a};
      lifted := lifted[a := lifted[a].(parent := None)];
    }
  }

  lemma {:induction false} LiftedChain(g: Graph, lifted: Graph, a: Address, n: nat)
    requires Lifted(g, lifted) && Chain(lifted, a, n).Some?
    ensures Chain(g, a, n) == Chain(lifted, a, n)
    decreases n
  {
    if n > 0 {
      LiftedChain(g, lifted, Next(lifted, a).value, n - 1);
    }
  }

  lemma RootLosesItsEdge(g: Graph, lifted: Graph, root: Address)
    requires Lifted(g, lifted) && CycleRoot(g, root)
    ensures !OnCycle(lifted, root)
  {
    assert Chain(lifted, root, 1) == None;
    EndedWalk(lifted, root, 1);
  }

  /** No cycle of current groups survives, wherever the walk started. */
  lemma LiftedIsAcyclic(g: Graph, lifted: Graph, a: Address)
    requires Lifted(g, lifted)
    ensures !OnCycle(lifted, a)
  {
    if OnCycle(lifted, a) {
      var k: nat :| Returns(lifted, a, k);
      assert Chain(lifted, a, 0) == Some(a);
      CycleStaysInside(lifted, a, a);
      var cycle := set b | b in lifted && Meets(lifted, a, b);
      assert a in cycle;
      var least := LeastExists(g, cycle);
      CycleStaysInside(lifted, a, least);
      var j: nat :| Returns(lifted, least, j);
      LiftedChain(g, lifted, least, j);
      assert Returns(g, least, j);
      forall b | Meets(g, least, b) ensures b in g && (b == least || KeyLess(g, least, b)) {
        var n: nat :| Chain(g, least, n) == Some(b);
        CycleNeverEnds(lifted, least, j, n);
        LiftedChain(g, lifted, least, n);
        MeetsTransitive(lifted, a, least, b);
        CycleStaysInside(lifted, a, b);
      }
      RootLosesItsEdge(g, lifted, least);
    }
  }

  /** Every cycle loses an edge, and only one. */
  lemma OneRootPerCycle(g: Graph, a: Address) returns (root: Address)
    requires OnCycle(g, a)
    ensures Meets(g, a, root) && CycleRoot(g, root)
    ensures forall other :: Meets(g, a, other) && CycleRoot(g, other) ==> other == root
  {
    assert Chain(g, a, 0) == Some(a);
    CycleStaysInside(g, a, a);
    var cycle := set b | b in g && Meets(g, a, b);
    assert a in cycle;
    root := LeastExists(g, cycle);
    CycleStaysInside(g, a, root);
    forall b | Meets(g, root, b) ensures b in g && (b == root || KeyLess(g, root, b)) {
      MeetsTransitive(g, a, root, b);
      CycleStaysInside(g, a, b);
    }
    forall other | Meets(g, a, other) && CycleRoot(g, other) ensures other == root {
      CycleStaysInside(g, a, other);
      MeetsTransitive(g, root, a, other);
      MeetsTransitive(g, other, a, root);
      KeyTotal(g, root, other);
    }
  }

  // ----- orphans and closed generations

  function PrepareNode(lifted: Graph, node: Node): Node
  {
    var placed := if node.parent.Some? && node.parent.value !in lifted then node.(parent := None) else node;
    if !placed.current && placed.status == Active then placed.(status := Unplaced) else placed
  }

  function Prepare(lifted: Graph): Graph
  {
    map a | a in lifted :: PrepareNode(lifted, lifted[a])
  }

  // ----- the status loop

  function RaisedStatus(previous: Graph, node: Node): Status
  {
    if node.status == Purged then Purged
    else if node.status == Trashed || exists p :: p in node.retained && p in previous && previous[p].status == Trashed then Trashed
    else if node.parent.None? || node.parent.value !in previous then node.status
    else
      var parent := previous[node.parent.value];
      if parent.status == Trashed then Trashed
      else if parent.status == Purged || !parent.current || parent.status == Unplaced then Unplaced
      else node.status
  }

  function Raise(previous: Graph, node: Node): Node
  {
    var status := RaisedStatus(previous, node);
    node.(status := status, conflict := node.conflict || (node.status == Active && status == Unplaced))
  }

  /** Same nodes and edges, statuses no lower: active, unplaced, trashed; purged is fixed. */
  ghost predicate Climbs(from: Graph, to: Graph)
  {
    && from.Keys == to.Keys
    && forall a :: a in from ==>
         && to[a].current == from[a].current && to[a].parent == from[a].parent
         && to[a].retained == from[a].retained && to[a].rank == from[a].rank
         && (from[a].status == Purged <==> to[a].status == Purged)
         && (from[a].status == Trashed ==> to[a].status == Trashed)
         && (to[a].status == Active ==> from[a].status == Active)
  }

  function Untrashed(g: Graph): set<Address>
  {
    set a | a in g && g[a].status in {Active, Unplaced}
  }

  function Actives(g: Graph): set<Address>
  {
    set a | a in g && g[a].status == Active
  }

  ghost predicate Stable(g: Graph)
  {
    forall a :: a in g ==> RaisedStatus(g, g[a]) == g[a].status
  }

  /** What `Prepare` guarantees to the loop. */
  ghost predicate Prepared(g: Graph)
  {
    forall a :: a in g ==>
      && (g[a].parent.Some? ==> g[a].parent.value in g[a].retained)
      && (!g[a].current ==> g[a].status != Active)
  }

  /** The body of the loop for one node. */
  method RaiseOne(previous: Graph, before: Node) returns (node: Node, changed: bool)
    ensures node == Raise(previous, before)
    ensures changed <==> node.status != before.status
  {
    node := before;
    changed := false;
    if node.status != Purged {
      if (exists p :: p in node.retained && p in previous && previous[p].status == Trashed) && node.status != Trashed {
        node := node.(status := Trashed);
        changed := true;
      }
      if node.parent.Some? && node.parent.value in previous {
        var parent := previous[node.parent.value];
        if parent.status == Trashed {
          if node.status != Trashed {
            node := node.(status := Trashed);
            changed := true;
          }
        } else if node.status == Active && (parent.status == Purged || !parent.current || parent.status == Unplaced) {
          node := node.(status := Unplaced, conflict := true);
          changed := true;
        }
      }
    }
  }

  /** One pass over every node against the statuses of the pass before. */
  method Pass(previous: Graph) returns (nodes: Graph, changed: bool)
    ensures nodes.Keys == previous.Keys
    ensures forall a :: a in nodes ==> nodes[a] == Raise(previous, previous[a])
    ensures changed <==> exists a :: a in previous && nodes[a].status != previous[a].status
  {
    nodes := previous;
    changed := false;
    var pending := nodes.Keys;
    while pending != {}
      invariant pending <= previous.Keys == nodes.Keys
      invariant forall a :: a in pending ==> nodes[a] == previous[a]
      invariant forall a :: a in previous.Keys - pending ==> nodes[a] == Raise(previous, previous[a])
      invariant changed <==> exists a :: a in previous.Keys - pending && nodes[a].status != previous[a].status
    {
      var a :| a in pending;
      pending := pending - {a};
      var node, raised := RaiseOne(previous, nodes[a]);
      nodes := nodes[a := node];
      changed := changed || raised;
    }
  }

  /** A pass keeps what holds between the start and the pass before. */
  lemma PassKeeps(prepared: Graph, previous: Graph, nodes: Graph)
    requires Climbs(prepared, previous) && Flagged(prepared, previous)
    requires nodes.Keys == previous.Keys && forall a :: a in nodes ==> nodes[a] == Raise(previous, previous[a])
    ensures Climbs(prepared, nodes) && Flagged(prepared, nodes)
  {
    forall a | a in nodes
      ensures nodes[a].current == previous[a].current && nodes[a].parent == previous[a].parent
      ensures nodes[a].retained == previous[a].retained && nodes[a].rank == previous[a].rank
      ensures previous[a].status == Purged <==> nodes[a].status == Purged
      ensures previous[a].status == Trashed ==> nodes[a].status == Trashed
      ensures nodes[a].status == Active ==> previous[a].status == Active
    {
    }
  }

  /** Spread statuses from parents to children until one whole pass changes nothing. */
  method Propagate(prepared: Graph) returns (nodes: Graph)
    requires Prepared(prepared)
    ensures Climbs(prepared, nodes) && Stable(nodes) && Sound(prepared, nodes) && Flagged(prepared, nodes)
  {
    nodes := prepared;
    InitialStatuses(prepared);
    var changed := true;
    while changed
      invariant Climbs(prepared, nodes) && Sound(prepared, nodes) && Flagged(prepared, nodes)
      invariant !changed ==> Stable(nodes)
      decreases Untrashed(nodes), Actives(nodes), changed
    {
      var previous := nodes;
      nodes, changed := Pass(previous);
      PassIsSound(prepared, previous, nodes);
      PassKeeps(prepared, previous, nodes);
      PassClimbs(previous, nodes, changed);
    }
  }

  // ----- what the loop computes

  /** `a` reaches, within `n` retained edges between unpurged groups, a group trashed in its own right. */
  ghost predicate TrashWithin(g: Graph, a: Address, n: nat)
    decreases n
  {
    && a in g && g[a].status != Purged
    && (g[a].status == Trashed || (n > 0 && exists p :: p in g[a].retained && TrashWithin(g, p, n - 1)))
  }

  ghost predicate LeadsToTrash(g: Graph, a: Address)
  {
    exists n: nat :: TrashWithin(g, a, n)
  }

  /** Active in its own right, and no retained edge leads to the trash. */
  ghost predicate Healthy(g: Graph, a: Address)
  {
    a in g && g[a].status == Active && !LeadsToTrash(g, a)
  }

  function Above(g: Graph, a: Address, n: nat): Option<Address>
    decreases n
  {
    if n == 0 then Some(a)
    else if a in g && g[a].parent.Some? then Above(g, g[a].parent.value, n - 1)
    else None
  }

  ghost predicate FailsAt(g: Graph, a: Address, n: nat)
  {
    Above(g, a, n).Some? && !Healthy(g, Above(g, a, n).value)
  }

  /** Some group on the way up from `a`, or `a` itself, is not healthy. */
  ghost predicate Fails(g: Graph, a: Address)
  {
    exists n: nat :: FailsAt(g, a, n)
  }

  /** A group that stays as active as it was keeps its flag; one that the loop unplaces is flagged. */
  ghost predicate Flagged(from: Graph, to: Graph)
  {
    && from.Keys == to.Keys
    && forall a :: a in from ==>
         && (from[a].conflict ==> to[a].conflict)
         && (from[a].status != Active || to[a].status == Active ==> to[a].conflict == from[a].conflict)
         && (from[a].status == Active && to[a].status == Unplaced ==> to[a].conflict)
  }

  ghost predicate Sound(prepared: Graph, nodes: Graph)
  {
    forall a :: a in nodes ==>
      && (nodes[a].status == Trashed ==> LeadsToTrash(prepared, a))
      && (nodes[a].status != Active ==> Fails(prepared, a))
  }

  lemma InitialStatuses(g: Graph)
    ensures Sound(g, g)
  {
    forall a | a in g
      ensures g[a].status == Trashed ==> LeadsToTrash(g, a)
      ensures g[a].status != Active ==> Fails(g, a)
    {
      if g[a].status == Trashed {
        assert TrashWithin(g, a, 0);
      }
      if g[a].status != Active {
        assert FailsAt(g, a, 0);
      }
    }
  }

  lemma TrashedEdge(g: Graph, a: Address, p: Address)
    requires a in g && g[a].status != Purged && p in g[a].retained && LeadsToTrash(g, p)
    ensures LeadsToTrash(g, a) && Fails(g, a)
  {
    var n: nat :| TrashWithin(g, p, n);
    assert TrashWithin(g, a, n + 1);
    assert FailsAt(g, a, 0);
  }

  lemma FailingParent(g: Graph, a: Address, p: Address)
    requires a in g && g[a].parent == Some(p) && Fails(g, p)
    ensures Fails(g, a)
  {
    var n: nat :| FailsAt(g, p, n);
    assert FailsAt(g, a, n + 1);
  }

  lemma PassIsSound(prepared: Graph, previous: Graph, nodes: Graph)
    requires Prepared(prepared) && Climbs(prepared, previous) && Sound(prepared, previous)
    requires nodes.Keys == previous.Keys && forall a :: a in nodes ==> nodes[a] == Raise(previous, previous[a])
    ensures Sound(prepared, nodes)
  {
    forall a | a in nodes
      ensures nodes[a].status == Trashed ==> LeadsToTrash(prepared, a)
      ensures nodes[a].status != Active ==> Fails(prepared, a)
    {
      var node := previous[a];
      if node.status != Purged {
        if p :| p in node.retained && p in previous && previous[p].status == Trashed {
          TrashedEdge(prepared, a, p);
        } else if node.parent.Some? && node.parent.value in previous && previous[node.parent.value].status != Active {
          FailingParent(prepared, a, node.parent.value);
        }
      }
    }
  }

  lemma PassClimbs(previous: Graph, nodes: Graph, changed: bool)
    requires nodes.Keys == previous.Keys && forall a :: a in nodes ==> nodes[a] == Raise(previous, previous[a])
    requires changed <==> exists a :: a in previous && nodes[a].status != previous[a].status
    ensures Climbs(previous, nodes)
    ensures Untrashed(nodes) <= Untrashed(previous) && Actives(nodes) <= Actives(previous)
    ensures changed ==> Untrashed(nodes) < Untrashed(previous) || Actives(nodes) < Actives(previous)
    ensures !changed ==> Stable(nodes)
  {
    assert Climbs(previous, nodes);
    if changed {
      var a :| a in previous && nodes[a].status != previous[a].status;
      assert a in Untrashed(previous) && (a !in Untrashed(nodes) || (a in Actives(previous) && a !in Actives(nodes)));
    } else {
      forall a | a in nodes ensures RaisedStatus(nodes, nodes[a]) == nodes[a].status {
        SameStatuses(previous, nodes, previous[a]);
      }
    }
  }

  lemma SameStatuses(g: Graph, h: Graph, node: Node)
    requires g.Keys == h.Keys
    requires forall a :: a in g ==> g[a].status == h[a].status && g[a].current == h[a].current
    ensures RaisedStatus(g, node) == RaisedStatus(h, node)
  {
    assert (exists p :: p in node.retained && p in g && g[p].status == Trashed)
      <==> (exists p :: p in node.retained && p in h && h[p].status == Trashed);
  }

  // ----- main results

  lemma {:induction false} TrashSpreads(prepared: Graph, nodes: Graph, a: Address, n: nat)
    requires Climbs(prepared, nodes) && Stable(nodes) && TrashWithin(prepared, a, n)
    ensures nodes[a].status == Trashed
    decreases n
  {
    if prepared[a].status != Trashed {
      var p :| p in prepared[a].retained && TrashWithin(prepared, p, n - 1);
      TrashSpreads(prepared, nodes, p, n - 1);
      assert p in nodes[a].retained && nodes[p].status == Trashed;
      assert RaisedStatus(nodes, nodes[a]) == Trashed;
    }
  }

  lemma {:induction false} FailureSpreads(prepared: Graph, nodes: Graph, a: Address, n: nat)
    requires Prepared(prepared) && Climbs(prepared, nodes) && Stable(nodes)
    requires a in prepared && FailsAt(prepared, a, n)
    requires forall b :: b in prepared && prepared[b].parent.Some? ==> prepared[b].parent.value in prepared
    ensures nodes[a].status != Active
    decreases n
  {
    if n == 0 {
      if prepared[a].status == Active {
        var m: nat :| TrashWithin(prepared, a, m);
        TrashSpreads(prepared, nodes, a, m);
      }
    } else {
      FailureSpreads(prepared, nodes, prepared[a].parent.value, n - 1);
      assert RaisedStatus(nodes, nodes[a]) == nodes[a].status;
    }
  }

  /** The statuses of the result, exactly. */
  ghost predicate ExactStatuses(prepared: Graph, nodes: Graph)
  {
    && nodes.Keys == prepared.Keys
    && forall a :: a in nodes ==>
         && (nodes[a].status == Purged <==> prepared[a].status == Purged)
         && (nodes[a].status == Trashed <==> LeadsToTrash(prepared, a))
         && (nodes[a].status == Active <==> !Fails(prepared, a))
  }

  lemma StatusesAreExact(prepared: Graph, nodes: Graph)
    requires Prepared(prepared) && Climbs(prepared, nodes) && Stable(nodes) && Sound(prepared, nodes)
    requires forall b :: b in prepared && prepared[b].parent.Some? ==> prepared[b].parent.value in prepared
    ensures ExactStatuses(prepared, nodes)
  {
    forall a | a in nodes
      ensures nodes[a].status == Trashed <==> LeadsToTrash(prepared, a)
      ensures nodes[a].status == Active <==> !Fails(prepared, a)
    {
      if LeadsToTrash(prepared, a) {
        var n: nat :| TrashWithin(prepared, a, n);
        TrashSpreads(prepared, nodes, a, n);
      }
      if Fails(prepared, a) {
        var n: nat :| FailsAt(prepared, a, n);
        FailureSpreads(prepared, nodes, a, n);
      }
    }
  }

  /** The groups the ordinary list shows. */
  predicate Listed(nodes: Graph, a: Address)
  {
    a in nodes && nodes[a].status == Active && nodes[a].current
  }

  /** Each listed group hangs from the top level or from a listed group, and climbing ends. */
  ghost predicate Forest(nodes: Graph)
  {
    forall a :: Listed(nodes, a) ==>
      && (nodes[a].parent.Some? ==> Listed(nodes, nodes[a].parent.value))
      && !OnCycle(nodes, a)
      && exists n: nat :: ReachesTop(nodes, a, n)
  }

  /** After `n` listed groups the climb is at the top level. */
  ghost predicate ReachesTop(nodes: Graph, a: Address, n: nat)
    decreases n
  {
    && Listed(nodes, a)
    && if n == 0 then nodes[a].parent.None? else nodes[a].parent.Some? && ReachesTop(nodes, nodes[a].parent.value, n - 1)
  }

  ghost predicate LeadsUpTo(g: Graph, b: Address, a: Address)
  {
    exists k: nat :: k > 0 && Chain(g, b, k) == Some(a)
  }

  lemma {:induction false} Climb(nodes: Graph, a: Address, seen: set<Address>) returns (n: nat)
    requires forall b :: Listed(nodes, b) && nodes[b].parent.Some? ==> Listed(nodes, nodes[b].parent.value)
    requires forall b :: !OnCycle(nodes, b)
    requires Listed(nodes, a) && seen <= nodes.Keys
    requires forall b :: b in seen ==> LeadsUpTo(nodes, b, a)
    ensures ReachesTop(nodes, a, n)
    decreases nodes.Keys - seen
  {
    if nodes[a].parent.None? {
      n := 0;
    } else {
      var parent := nodes[a].parent.value;
      assert !OnCycle(nodes, a);
      if a in seen {
        var k: nat :| k > 0 && Chain(nodes, a, k) == Some(a);
        assert Returns(nodes, a, k);
      }
      assert Chain(nodes, a, 1) == Chain(nodes, parent, 0);
      assert LeadsUpTo(nodes, a, parent);
      forall b | b in seen ensures LeadsUpTo(nodes, b, parent) {
        var k: nat :| k > 0 && Chain(nodes, b, k) == Some(a);
        ChainAdd(nodes, b, k, 1);
        assert Chain(nodes, b, k + 1) == Some(parent);
      }
      var m := Climb(nodes, parent, seen + {a});
      n := m + 1;
    }
  }

  ghost predicate FewerEdges(g: Graph, h: Graph)
  {
    && g.Keys == h.Keys
    && forall b :: b in g ==> g[b].current == h[b].current && (h[b].parent == g[b].parent || h[b].parent == None)
  }

  lemma {:induction false} SameEdges(g: Graph, h: Graph, a: Address, n: nat)
    requires FewerEdges(g, h)
    requires Chain(h, a, n).Some?
    ensures Chain(g, a, n) == Chain(h, a, n)
    decreases n
  {
    if n > 0 {
      SameEdges(g, h, Next(h, a).value, n - 1);
    }
  }

  lemma ListIsClosed(prepared: Graph, nodes: Graph, a: Address)
    requires Climbs(prepared, nodes) && Stable(nodes) && Listed(nodes, a) && nodes[a].parent.Some?
    requires forall b :: b in prepared && prepared[b].parent.Some? ==> prepared[b].parent.value in prepared
    ensures Listed(nodes, nodes[a].parent.value)
  {
    assert RaisedStatus(nodes, nodes[a]) == nodes[a].status;
  }

  lemma ResultIsAcyclic(g: Graph, lifted: Graph, nodes: Graph, a: Address)
    requires Lifted(g, lifted) && Climbs(Prepare(lifted), nodes)
    ensures !OnCycle(nodes, a)
  {
    LiftedIsAcyclic(g, lifted, a);
    RepairedEdges(lifted, nodes);
    if OnCycle(nodes, a) {
      FewerEdgesFewerCycles(lifted, nodes, a);
    }
  }

  lemma RepairedEdges(lifted: Graph, nodes: Graph)
    requires Climbs(Prepare(lifted), nodes)
    ensures FewerEdges(lifted, nodes)
  {
  }

  lemma FewerEdgesFewerCycles(g: Graph, h: Graph, a: Address)
    requires FewerEdges(g, h) && OnCycle(h, a)
    ensures OnCycle(g, a)
  {
    var k: nat :| Returns(h, a, k);
    SameEdges(g, h, a, k);
    assert Returns(g, a, k);
  }

  lemma ListIsForest(g: Graph, lifted: Graph, nodes: Graph)
    requires Lifted(g, lifted) && Climbs(Prepare(lifted), nodes) && Stable(nodes)
    ensures Forest(nodes)
  {
    var prepared := Prepare(lifted);
    forall a | Listed(nodes, a) && nodes[a].parent.Some? ensures Listed(nodes, nodes[a].parent.value) {
      ListIsClosed(prepared, nodes, a);
    }
    forall a ensures !OnCycle(nodes, a) {
      ResultIsAcyclic(g, lifted, nodes, a);
    }
    forall a | Listed(nodes, a) ensures exists n: nat :: ReachesTop(nodes, a, n) {
      var n := Climb(nodes, a, {});
    }
  }

  // ----- the list, from the stored placements alone

  /** The stored selected parent, but none for the root of a cycle and none that is absent. */
  ghost function KeptParent(g: Graph, a: Address): Option<Address>
  {
    if a in g && !CycleRoot(g, a) && g[a].parent.Some? && g[a].parent.value in g then g[a].parent else None
  }

  /** The way up: `n` kept parents above `a`. */
  ghost function WayUp(g: Graph, a: Address, n: nat): Option<Address>
    decreases n
  {
    if n == 0 then Some(a)
    else match KeptParent(g, a) {
      case None => None
      case Some(b) => WayUp(g, b, n - 1)
    }
  }

  /** Current, active as stored, and no retained placement leads to the trash. */
  ghost predicate InOrder(g: Graph, a: Address)
  {
    a in g && g[a].current && g[a].status == Active && !LeadsToTrash(g, a)
  }

  /** The group and every group on its way up are in order. */
  ghost predicate Shown(g: Graph, a: Address)
  {
    forall n: nat {:trigger WayUp(g, a, n)} :: WayUp(g, a, n).Some? ==> InOrder(g, WayUp(g, a, n).value)
  }

  ghost predicate SameHealth(g: Graph, prepared: Graph)
  {
    && g.Keys == prepared.Keys
    && (forall a :: a in g ==> prepared[a].parent == KeptParent(g, a))
    && (forall a :: a in g ==> (Healthy(prepared, a) <==> InOrder(g, a)))
  }

  lemma RepairedNode(g: Graph, lifted: Graph, a: Address)
    requires Lifted(g, lifted) && a in g
    ensures a in Prepare(lifted) && Prepare(lifted)[a].parent == KeptParent(g, a)
    ensures Prepare(lifted)[a].status == if !g[a].current && g[a].status == Active then Unplaced else g[a].status
    ensures Prepare(lifted)[a].current == g[a].current && Prepare(lifted)[a].retained == g[a].retained
    ensures Prepare(lifted)[a].rank == g[a].rank && Prepare(lifted)[a].conflict == g[a].conflict
  {
  }

  lemma RepairedHealth(g: Graph, lifted: Graph, a: Address)
    requires Stored(g) && Lifted(g, lifted) && a in g
    ensures Healthy(Prepare(lifted), a) <==> InOrder(g, a)
  {
    RepairedNode(g, lifted, a);
    TrashSurvives(g, lifted, a);
  }

  lemma RepairKeepsHealth(g: Graph, lifted: Graph)
    requires Stored(g) && Lifted(g, lifted)
    ensures SameHealth(g, Prepare(lifted))
  {
    forall a | a in g
      ensures Prepare(lifted)[a].parent == KeptParent(g, a)
      ensures Healthy(Prepare(lifted), a) <==> InOrder(g, a)
    {
      RepairedNode(g, lifted, a);
      RepairedHealth(g, lifted, a);
    }
  }

  lemma {:induction false} SameWay(g: Graph, prepared: Graph, a: Address, n: nat)
    requires SameHealth(g, prepared) && a in g
    ensures Above(prepared, a, n) == WayUp(g, a, n)
    ensures WayUp(g, a, n).Some? ==> WayUp(g, a, n).value in g
    decreases n
  {
    if n > 0 && KeptParent(g, a).Some? {
      SameWay(g, prepared, KeptParent(g, a).value, n - 1);
    }
  }

  lemma ShownExactly(g: Graph, prepared: Graph, a: Address)
    requires SameHealth(g, prepared) && a in g
    ensures Shown(g, a) <==> !Fails(prepared, a)
  {
    forall n: nat ensures Above(prepared, a, n) == WayUp(g, a, n) && (WayUp(g, a, n).Some? ==> WayUp(g, a, n).value in g) {
      SameWay(g, prepared, a, n);
    }
    if !Shown(g, a) {
      var n: nat :| WayUp(g, a, n).Some? && !InOrder(g, WayUp(g, a, n).value);
      assert FailsAt(prepared, a, n);
    }
    if Fails(prepared, a) {
      var n: nat :| FailsAt(prepared, a, n);
      assert WayUp(g, a, n).Some?;
    }
  }

  /** The result in terms of the stored placements alone. */
  ghost predicate Projects(g: Graph, nodes: Graph)
  {
    && nodes.Keys == g.Keys
    && forall a :: a in g ==> ProjectsNode(g, a, nodes[a]) && (Listed(nodes, a) <==> Shown(g, a))
  }

  ghost predicate ProjectsNode(g: Graph, a: Address, node: Node)
    requires a in g
  {
    && node.current == g[a].current && node.retained == g[a].retained && node.rank == g[a].rank
    && node.parent == KeptParent(g, a)
    && (node.status == Purged <==> g[a].status == Purged)
    && (node.status == Trashed <==> LeadsToTrash(g, a))
    && (node.status == Active <==> Shown(g, a))
    && (Shown(g, a) ==> node.conflict == g[a].conflict)
    && (g[a].status == Active && g[a].current && node.status == Unplaced ==> node.conflict)
  }

  lemma ProjectedNode(g: Graph, lifted: Graph, nodes: Graph, a: Address)
    requires Stored(g) && Lifted(g, lifted) && SameHealth(g, Prepare(lifted)) && a in g
    requires ExactStatuses(Prepare(lifted), nodes) && Climbs(Prepare(lifted), nodes) && Flagged(Prepare(lifted), nodes)
    ensures ProjectsNode(g, a, nodes[a]) && (Listed(nodes, a) <==> Shown(g, a))
  {
    var prepared := Prepare(lifted);
    ShownExactly(g, prepared, a);
    RepairedNode(g, lifted, a);
    TrashSurvives(g, lifted, a);
    if Shown(g, a) {
      assert WayUp(g, a, 0) == Some(a);
    }
  }

  lemma ProjectsExactly(g: Graph, lifted: Graph, nodes: Graph)
    requires Stored(g) && Lifted(g, lifted)
    requires ExactStatuses(Prepare(lifted), nodes) && Climbs(Prepare(lifted), nodes) && Flagged(Prepare(lifted), nodes)
    ensures Projects(g, nodes)
  {
    RepairKeepsHealth(g, lifted);
    forall a | a in g ensures ProjectsNode(g, a, nodes[a]) && (Listed(nodes, a) <==> Shown(g, a)) {
      ProjectedNode(g, lifted, nodes, a);
    }
  }

  /** The whole projection. */
  method Tree(g: Graph) returns (nodes: Graph, ghost lifted: Graph)
    requires Stored(g)
    ensures Projects(g, nodes)
    ensures Lifted(g, lifted) && ExactStatuses(Prepare(lifted), nodes)
    ensures Forest(nodes)
  {
    var raised := Lift(g);
    lifted := raised;
    var prepared := Prepare(raised);
    nodes := Propagate(prepared);
    StatusesAreExact(prepared, nodes);
    ListIsForest(g, lifted, nodes);
    ProjectsExactly(g, lifted, nodes);
  }

  /** Trash spreads over one retained placement at a time, and comes from nowhere else. */
  lemma TrashSteps(g: Graph, nodes: Graph, a: Address)
    requires Projects(g, nodes) && a in g
    ensures nodes[a].status == Trashed <==>
            g[a].status != Purged && (g[a].status == Trashed || exists p :: p in g[a].retained && p in nodes && nodes[p].status == Trashed)
  {
    if g[a].status == Trashed {
      assert TrashWithin(g, a, 0);
    }
    if n: nat :| TrashWithin(g, a, n) {
      if g[a].status != Trashed {
        var p :| p in g[a].retained && TrashWithin(g, p, n - 1);
        assert LeadsToTrash(g, p);
      }
    }
    if p :| p in g[a].retained && p in nodes && nodes[p].status == Trashed {
      var n: nat :| TrashWithin(g, p, n);
      if g[a].status != Purged {
        assert TrashWithin(g, a, n + 1);
      }
    }
  }

  /** A current active group without a parent and away from the trash is listed at the top level. */
  lemma TopLevelIsListed(g: Graph, nodes: Graph, a: Address)
    requires Projects(g, nodes) && InOrder(g, a) && g[a].parent.None?
    ensures Listed(nodes, a) && nodes[a].parent.None?
  {
    forall n: nat | WayUp(g, a, n).Some? ensures WayUp(g, a, n) == Some(a) {
    }
  }

  /** A group below a listed one is listed exactly when it is in order itself. */
  lemma ListedBelow(g: Graph, nodes: Graph, a: Address)
    requires Projects(g, nodes) && a in g && KeptParent(g, a).Some?
    ensures Listed(nodes, a) <==> InOrder(g, a) && Listed(nodes, KeptParent(g, a).value)
  {
    var parent := KeptParent(g, a).value;
    forall n: nat ensures WayUp(g, a, n + 1) == WayUp(g, parent, n) {
    }
    if InOrder(g, a) && Shown(g, parent) {
      forall n: nat | WayUp(g, a, n).Some? ensures InOrder(g, WayUp(g, a, n).value) {
        if n > 0 {
          assert WayUp(g, a, n) == WayUp(g, parent, n - 1);
        }
      }
    }
    if Shown(g, a) {
      assert WayUp(g, a, 0) == Some(a);
      forall n: nat | WayUp(g, parent, n).Some? ensures InOrder(g, WayUp(g, parent, n).value) {
        var m := n + 1;
        assert WayUp(g, a, m) == WayUp(g, parent, n);
      }
    }
  }

  /** What a listed group's parent is: the stored one, unless its edge was lifted or its parent is absent. */
  lemma ListedParent(g: Graph, nodes: Graph, a: Address)
    requires Projects(g, nodes) && Listed(nodes, a)
    ensures CycleRoot(g, a) || (g[a].parent.Some? && g[a].parent.value !in g) ==> nodes[a].parent.None?
    ensures !CycleRoot(g, a) && (g[a].parent.Some? ==> g[a].parent.value in g) ==> nodes[a].parent == g[a].parent
  {
  }

  /** Trash reaches a group through the placements as stored: lifting and orphan repair do not matter. */
  lemma {:induction false} TrashIgnoresRepair(g: Graph, lifted: Graph, a: Address, n: nat)
    requires Stored(g) && Lifted(g, lifted)
    ensures TrashWithin(g, a, n) <==> TrashWithin(Prepare(lifted), a, n)
    decreases n
  {
    if n > 0 && a in g {
      forall p | p in g[a].retained ensures TrashWithin(g, p, n - 1) <==> TrashWithin(Prepare(lifted), p, n - 1) {
        TrashIgnoresRepair(g, lifted, p, n - 1);
      }
    }
  }

  /** A retained placement leads to the trash before the repair exactly when it does after. */
  lemma TrashSurvives(g: Graph, lifted: Graph, a: Address)
    requires Stored(g) && Lifted(g, lifted)
    ensures LeadsToTrash(Prepare(lifted), a) <==> LeadsToTrash(g, a)
  {
    if LeadsToTrash(g, a) {
      var n: nat :| TrashWithin(g, a, n);
      TrashIgnoresRepair(g, lifted, a, n);
    }
    if LeadsToTrash(Prepare(lifted), a) {
      var n: nat :| TrashWithin(Prepare(lifted), a, n);
      TrashIgnoresRepair(g, lifted, a, n);
    }
  }

  /** An unpurged group ends in the trash exactly when some retained placement leads there. */
  lemma TrashedExactly(g: Graph, lifted: Graph, nodes: Graph, a: Address)
    requires Stored(g) && Lifted(g, lifted) && ExactStatuses(Prepare(lifted), nodes) && a in g
    ensures nodes[a].status == Trashed <==> LeadsToTrash(g, a)
  {
    TrashSurvives(g, lifted, a);
  }

  // ----- cycles through closed generations

  lemma {:induction false} ListedAbove(nodes: Graph, a: Address, n: nat)
    requires Forest(nodes) && Listed(nodes, a)
    ensures Above(nodes, a, n) == Chain(nodes, a, n)
    ensures Above(nodes, a, n).Some? ==> Listed(nodes, Above(nodes, a, n).value)
    decreases n
  {
    if n > 0 && nodes[a].parent.Some? {
      ListedAbove(nodes, nodes[a].parent.value, n - 1);
    }
  }

  /** A cycle that the walk cannot lift, because it runs through a closed generation, is never listed. */
  lemma ClosedCyclesDropOut(nodes: Graph, a: Address, n: nat)
    requires Forest(nodes) && n > 0 && Above(nodes, a, n) == Some(a)
    ensures !Listed(nodes, a)
  {
    if Listed(nodes, a) {
      ListedAbove(nodes, a, n);
      assert Returns(nodes, a, n);
    }
  }
}
