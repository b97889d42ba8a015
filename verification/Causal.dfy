/**
 The replicated document as the adapter sees it: a dependency-closed set of changes, each
 writing registers. A put overwrites exactly what its transaction saw; what no put of a view
 has overwritten is visible in that view. Every write runs under a fresh actor, so the actor
 identifies the change, and with the counter the operation.
 */
module CausalDocument {
  import opened Wrappers
  import opened Operations
  import opened Entries

  /** Descriptive fields of a group or of the database. */
  datatype DetailKey = DetailName | DetailDescription | DetailIcon | DetailPlacement

  /**
   Where a value is stored. Objects of one entry are addressed by their path; the details of a
   group or of the database are held under its own identity.
   */
  datatype Register =
    | EntryObject(entry: EntryId)
    | AttributeObject(entry: EntryId, attribute: AttributeId)
    | AttachmentObject(entry: EntryId, attachment: AttachmentId)
    | Home(entry: EntryId)
    | Field(entry: EntryId, field: EntryField)
    | Detail(entry: string, key: DetailKey)

  /** Stored scalars. A presence carries the revision that wrote it, so equal presences differ. */
  datatype Scalar =
    | MapObject
    | Data(value: FieldValue)
    | Mark(alive: bool, revision: RevisionId)
    | HomeRef(group: GroupId)
    | Placement(parent: Option<GroupId>, order: string)

  datatype Put = Put(counter: nat, scalar: Scalar, over: set<Actor>)

  datatype Kind = Create | Save | Clone | Restore | Resolve

  datatype StoredRevision = StoredRevision(
    id: RevisionId, entry: EntryId, savedAt: Timestamp, kind: Kind, base: set<Actor>,
    snapshot: EntryFields, submitted: Option<EntryFields>, changed: set<OpId>)

  /**
   One committed transaction: its dependencies, everything it had seen, its puts, the row it
   added to `revisions`, and the keys it put into `purged_revisions`.
   */
  datatype Change = Change(
    deps: set<Actor>, past: set<Actor>, puts: map<Register, Put>,
    row: Option<StoredRevision>, purged: set<RevisionId>)

  type Changes = map<Actor, Change>

  /**
   `changed_operations` of a row: the field operations of its transaction. A move, which is
   confirmed as a save or a resolution, lists its placement as well; creations, clones and
   restorations put a placement without listing it.
   */
  function ChangedOperations(puts: map<Register, Put>, a: Actor, kind: Kind): set<OpId>
  {
    set r | r in puts && (r.Field? || (r.Home? && (kind == Save || kind == Resolve))) :: OpId(puts[r].counter, a)
  }

  // ----- views

  function Restrict(cs: Changes, s: set<Actor>): Changes
  {
    map a | a in cs && a in s :: cs[a]
  }

  /** The changes at or below some heads. */
  function Down(cs: Changes, heads: set<Actor>): set<Actor>
  {
    set a | a in cs && (a in heads || exists h :: h in heads && h in cs && a in cs[h].past)
  }

  /** `fork_at`. */
  function At(cs: Changes, heads: set<Actor>): Changes
  {
    Restrict(cs, Down(cs, heads))
  }

  /** `get_heads`. */
  function Heads(cs: Changes): set<Actor>
  {
    set a | a in cs && forall b :: b in cs ==> a !in cs[b].past
  }

  /** A change together with everything it had seen. */
  function Upto(cs: Changes, a: Actor): Changes
    requires a in cs
  {
    Restrict(cs, cs[a].past + {a})
  }

  /** Everything a change had seen. */
  function Before(cs: Changes, a: Actor): Changes
    requires a in cs
  {
    Restrict(cs, cs[a].past)
  }

  ghost predicate Agree(cs: Changes, ds: Changes)
  {
    forall a :: a in cs && a in ds ==> cs[a] == ds[a]
  }

  ghost predicate Closed(cs: Changes)
  {
    forall a :: a in cs ==> a !in cs[a].past && cs[a].past <= cs.Keys
  }

  // ----- visibility

  predicate Uncovered(v: Changes, r: Register, a: Actor)
  {
    forall b :: b in v && r in v[b].puts ==> a !in v[b].puts[r].over
  }

  /** `get_all`: the changes whose put at `r` nothing in the view has overwritten. */
  function Visible(v: Changes, r: Register): set<Actor>
  {
    set a | a in v && r in v[a].puts && Uncovered(v, r, a)
  }

  ghost predicate Written(v: Changes, r: Register)
  {
    exists a :: a in v && r in v[a].puts
  }

  /** The operations of one change have distinct counters. */
  ghost predicate Numbered(puts: map<Register, Put>)
  {
    forall r, q :: r in puts && q in puts && r != q ==> puts[r].counter != puts[q].counter
  }

  /** A change is causally ordered when it stands on the closed set below its dependencies. */
  ghost predicate Ordered(v: Changes, a: Actor)
    requires a in v
  {
    var c, p := v[a], v - {a};
    && c.past == p.Keys && c.deps <= p.Keys && Down(p, c.deps) == p.Keys
    && Closed(p) && Numbered(c.puts)
    && forall r :: r in c.puts ==>
         && c.puts[r].over == Visible(p, r)
         && forall b :: b in p && r in p[b].puts ==> p[b].puts[r].counter < c.puts[r].counter
  }

  ghost predicate Causal(cs: Changes)
  {
    Closed(cs) && forall a {:trigger Upto(cs, a)} :: a in cs ==> Ordered(Upto(cs, a), a)
  }

  // ----- what a change stands on does not depend on the rest of the document

  lemma UptoWithin(cs: Changes, ds: Changes, a: Actor)
    requires Closed(cs) && Closed(ds) && Agree(cs, ds) && a in cs && a in ds
    ensures Upto(cs, a) == Upto(ds, a) && Before(cs, a) == Before(ds, a)
  {
  }

  lemma PastIsTransitive(cs: Changes, a: Actor, b: Actor)
    requires Causal(cs) && a in cs && b in cs[a].past
    ensures b in cs && cs[b].past <= cs[a].past
  {
    var v := Upto(cs, a);
    assert b in v - {a} && (v - {a})[b] == cs[b];
  }

  lemma RestrictKeepsCausal(cs: Changes, s: set<Actor>)
    requires Causal(cs) && forall a :: a in s && a in cs ==> cs[a].past <= s
    ensures Causal(Restrict(cs, s))
  {
    var v := Restrict(cs, s);
    forall a | a in v ensures Ordered(Upto(v, a), a) {
      UptoWithin(cs, v, a);
    }
  }

  lemma DownIsClosed(cs: Changes, heads: set<Actor>)
    requires Causal(cs)
    ensures Causal(At(cs, heads)) && At(cs, heads).Keys == Down(cs, heads)
  {
    var s := Down(cs, heads);
    forall a, b | a in s && b in cs[a].past ensures b in s {
      if a !in heads {
        var h :| h in heads && h in cs && a in cs[h].past;
        PastIsTransitive(cs, h, a);
      }
      assert b in cs;
    }
    RestrictKeepsCausal(cs, s);
  }

  lemma DownWithin(cs: Changes, ds: Changes, heads: set<Actor>)
    requires Closed(cs) && Closed(ds) && Agree(cs, ds) && heads <= cs.Keys && heads <= ds.Keys
    ensures Down(cs, heads) == Down(ds, heads) && At(cs, heads) == At(ds, heads)
  {
  }

  lemma BelowOne(cs: Changes, a: Actor)
    requires Closed(cs) && a in cs
    ensures At(cs, {a}) == Upto(cs, a)
  {
    assert Down(cs, {a}) == cs[a].past + {a};
  }

  lemma {:induction false} HeadAbove(cs: Changes, a: Actor) returns (h: Actor)
    requires Causal(cs) && a in cs
    ensures h in Heads(cs) && (a == h || a in cs[h].past)
    decreases cs.Keys - cs[a].past
  {
    if b :| b in cs && a in cs[b].past {
      PastIsTransitive(cs, b, a);
      assert cs[a].past < cs[b].past;
      assert a in cs.Keys - cs[a].past && a !in cs.Keys - cs[b].past;
      h := HeadAbove(cs, b);
      if b != h {
        PastIsTransitive(cs, h, b);
      }
    } else {
      h := a;
    }
  }

  lemma CoveringHeads(cs: Changes, heads: set<Actor>)
    requires heads <= cs.Keys && forall a :: a in cs ==> a in heads || exists h :: h in heads && a in cs[h].past
    ensures At(cs, heads) == cs
  {
    assert Down(cs, heads) == cs.Keys;
  }

  lemma HeadsSeeAll(cs: Changes)
    requires Causal(cs)
    ensures Heads(cs) <= cs.Keys && At(cs, Heads(cs)) == cs
  {
    var heads := Heads(cs);
    forall a | a in cs ensures a in heads || exists h :: h in heads && a in cs[h].past {
      var h := HeadAbove(cs, a);
      assert h in heads;
    }
    CoveringHeads(cs, heads);
  }

  /** No head is below another, and without any one of them the view is smaller. */
  lemma HeadsAreNeeded(cs: Changes, h: Actor)
    requires Causal(cs) && h in Heads(cs)
    ensures h !in At(cs, Heads(cs) - {h}) && cs[h].past < cs.Keys
  {
    UptoWithin(cs, cs, h);
  }

  lemma UnionKeepsCausal(cs: Changes, ds: Changes)
    requires Causal(cs) && Causal(ds) && Agree(cs, ds)
    ensures Causal(cs + ds)
  {
    var u := cs + ds;
    assert Closed(u);
    forall a | a in u ensures Ordered(Upto(u, a), a) {
      if a in ds {
        UptoWithin(u, ds, a);
      } else {
        UptoWithin(u, cs, a);
      }
    }
  }

  lemma ExtendKeepsViews(cs: Changes, a: Actor, c: Change)
    requires Closed(cs) && a !in cs && c.past <= cs.Keys
    ensures Closed(cs[a := c])
    ensures Upto(cs[a := c], a) == Restrict(cs, c.past)[a := c] && Before(cs[a := c], a) == Restrict(cs, c.past)
    ensures forall b :: b in cs ==> Upto(cs[a := c], b) == Upto(cs, b) && Before(cs[a := c], b) == Before(cs, b)
  {
    var e := cs[a := c];
    assert Closed(e);
    forall b | b in cs ensures Upto(e, b) == Upto(cs, b) && Before(e, b) == Before(cs, b) {
      UptoWithin(e, cs, b);
    }
  }

  /** A new change over a closed set of known ones. */
  lemma ExtendKeepsCausal(cs: Changes, a: Actor, c: Change)
    requires Causal(cs) && a !in cs && c.past <= cs.Keys && Ordered(Restrict(cs, c.past)[a := c], a)
    ensures Causal(cs[a := c])
  {
    ExtendKeepsViews(cs, a, c);
  }

  // ----- visibility over time

  lemma OverIsPast(cs: Changes, a: Actor, r: Register)
    requires Causal(cs) && a in cs && r in cs[a].puts
    ensures cs[a].puts[r].over <= cs[a].past
    ensures cs[a].puts[r].over == Visible(Before(cs, a), r)
  {
    assert Upto(cs, a) - {a} == Before(cs, a);
    assert Ordered(Upto(cs, a), a);
  }

  lemma UncoveredAfter(cs: Changes, a: Actor, c: Change, r: Register, x: Actor)
    requires a !in cs
    ensures Uncovered(cs[a := c], r, x) <==> Uncovered(cs, r, x) && (r in c.puts ==> x !in c.puts[r].over)
  {
    var e := cs[a := c];
    if Uncovered(e, r, x) {
      forall b | b in cs && r in cs[b].puts ensures x !in cs[b].puts[r].over {
        assert b in e && e[b] == cs[b];
      }
      assert a in e;
    }
  }

  /** A put adds itself and removes what it overwrites; nothing known can overwrite it. */
  lemma PutEffect(cs: Changes, a: Actor, c: Change, r: Register)
    requires Causal(cs) && a !in cs && (r in c.puts ==> a !in c.puts[r].over)
    ensures Visible(cs[a := c], r) == if r in c.puts then Visible(cs, r) - c.puts[r].over + {a} else Visible(cs, r)
  {
    var left := Visible(cs[a := c], r);
    var right := if r in c.puts then Visible(cs, r) - c.puts[r].over + {a} else Visible(cs, r);
    forall x ensures x in left <==> x in right {
      UncoveredAfter(cs, a, c, r, x);
      if x == a {
        UncoveredByAll(cs, r, a);
      }
    }
  }

  lemma UncoveredByAll(cs: Changes, r: Register, a: Actor)
    requires Causal(cs) && a !in cs
    ensures Uncovered(cs, r, a)
  {
    forall b | b in cs && r in cs[b].puts ensures a !in cs[b].puts[r].over {
      OverIsPast(cs, b, r);
    }
  }

  lemma {:induction false} LaterPutVisible(v: Changes, r: Register, a: Actor) returns (b: Actor)
    requires Causal(v) && a in v && r in v[a].puts
    ensures b in Visible(v, r) && (a == b || a in v[b].past)
    decreases v.Keys - v[a].past
  {
    if Uncovered(v, r, a) {
      b := a;
    } else {
      var c :| c in v && r in v[c].puts && a in v[c].puts[r].over;
      OverIsPast(v, c, r);
      PastIsTransitive(v, c, a);
      assert a in v.Keys - v[a].past && a !in v.Keys - v[c].past;
      b := LaterPutVisible(v, r, c);
      if b != c {
        PastIsTransitive(v, b, c);
      }
    }
  }

  /** A register that was ever written has something visible. */
  lemma WrittenIsVisible(v: Changes, r: Register)
    requires Causal(v)
    ensures Written(v, r) <==> Visible(v, r) != {}
  {
    if Written(v, r) {
      var a :| a in v && r in v[a].puts;
      var b := LaterPutVisible(v, r, a);
    }
  }
}
