/**
 Sealing a transaction: counters above everything seen, a snapshot read from the transaction's
 own view, and the row that stores it.
 */
module Committing {
  import opened Wrappers
  import opened Operations
  import opened Entries
  import opened CausalDocument
  import opened Projection
  import opened Soundness
  import opened Transactions
  import Reading

  /** Every counter of one change is below `next`. */
  ghost predicate AboveChange(c: Change, next: nat)
  {
    forall r :: r in c.puts ==> c.puts[r].counter < next
  }

  /** A counter above every operation of a view. */
  method NextCounter(v: Changes) returns (next: nat)
    ensures Above(v, next)
  {
    next := 1;
    var pending := v.Keys;
    while pending != {}
      invariant pending <= v.Keys
      invariant forall a :: a in v.Keys - pending ==> AboveChange(v[a], next)
    {
      var a :| a in pending;
      var least := next;
      next := CounterAbove(v[a], least);
      assert forall b :: b in v.Keys - pending ==> AboveChange(v[b], next);
      pending := pending - {a};
    }
    forall b, q | b in v && q in v[b].puts ensures v[b].puts[q].counter < next {
      assert AboveChange(v[b], next);
    }
  }

  method CounterAbove(c: Change, least: nat) returns (next: nat)
    ensures next >= least && AboveChange(c, next)
  {
    next := least;
    var pending := c.puts.Keys;
    while pending != {}
      invariant pending <= c.puts.Keys && next >= least
      invariant forall r :: r in c.puts.Keys - pending ==> c.puts[r].counter < next
    {
      var r :| r in pending;
      if c.puts[r].counter >= next {
        next := c.puts[r].counter + 1;
      }
      pending := pending - {r};
    }
  }

  /** What a transaction has collected is recorded by any change with its puts. */
  lemma CollectedIsRecorded(view: Changes, next: nat, c: Change, wanted: map<Register, Scalar>)
    requires Recording(view, next, c.puts, wanted) && Numbered(c.puts)
    ensures Recorded(view, c, wanted)
  {
    forall r | r in c.puts
      ensures r in wanted && c.puts[r].scalar == wanted[r] && c.puts[r].over == Visible(view, r)
      ensures Above(view, c.puts[r].counter)
    {
      assert RecordedAt(view, next, c.puts, wanted, r);
    }
    forall r ensures r in c.puts <==> r in wanted && !Elided(view, r, wanted[r]) {
      assert RecordedAt(view, next, c.puts, wanted, r);
    }
  }

  ghost predicate SamePuts(v: Changes, w: Changes)
  {
    v.Keys == w.Keys && forall b :: b in v ==> v[b].puts == w[b].puts
  }

  lemma SamePutsChoose(v: Changes, w: Changes, r: Register)
    requires SamePuts(v, w)
    ensures Chosen(v, r) == Chosen(w, r) && (Written(v, r) <==> Written(w, r))
  {
    assert Visible(v, r) == Visible(w, r);
    SameVisibleSameChosen(v, w, r);
  }

  lemma SamePutsHold(v: Changes, w: Changes, e: EntryId)
    requires SamePuts(v, w)
    ensures AttributesOf(v, e) == AttributesOf(w, e)
  {
    forall x
      ensures x in AttributesOf(v, e) <==> x in AttributesOf(w, e)
      ensures SelectedAttribute(v, e, x) == SelectedAttribute(w, e, x)
    {
      ObjectIds(v, e, x);
      ObjectIds(w, e, x);
      SamePutsChoose(v, w, AttributeObject(e, x));
      SamePutsChoose(v, w, Field(e, AttributePresence(x)));
      SamePutsChoose(v, w, Field(e, AttributeName(x)));
      SamePutsChoose(v, w, Field(e, AttributeData(x)));
    }
  }

  lemma SamePutsAttach(v: Changes, w: Changes, e: EntryId)
    requires SamePuts(v, w)
    ensures AttachmentsOf(v, e) == AttachmentsOf(w, e)
  {
    forall x
      ensures x in AttachmentsOf(v, e) <==> x in AttachmentsOf(w, e)
      ensures SelectedAttachment(v, e, x) == SelectedAttachment(w, e, x)
    {
      ObjectIds(v, e, x);
      ObjectIds(w, e, x);
      SamePutsChoose(v, w, AttachmentObject(e, x));
      SamePutsChoose(v, w, Field(e, AttachmentPresence(x)));
      SamePutsChoose(v, w, Field(e, AttachmentName(x)));
      SamePutsChoose(v, w, Field(e, AttachmentBlob(x)));
    }
  }

  lemma SameScalar(v: Changes, w: Changes, e: EntryId, f: EntryField)
    requires IsScalar(f) && Selected(v, e, f) == Selected(w, e, f)
    ensures ScalarOf(Project(v, e), f) == ScalarOf(Project(w, e), f)
  {
  }

  /** A projection depends on what the changes put, not on their rows. */
  lemma RowsDoNotProject(p: Changes, a: Actor, c: Change, d: Change, e: EntryId)
    requires a !in p && c.puts == d.puts
    ensures Project(p[a := c], e) == Project(p[a := d], e)
  {
    var v, w := p[a := c], p[a := d];
    assert SamePuts(v, w);
    SamePutsHold(v, w, e);
    SamePutsAttach(v, w, e);
    forall f | IsScalar(f) ensures ScalarOf(Project(v, e), f) == ScalarOf(Project(w, e), f) {
      SamePutsChoose(v, w, Field(e, f));
      SameScalar(v, w, e, f);
    }
    FormsEqual(Project(v, e), Project(w, e));
  }

  /** The change `c` stores the row `row`, whose snapshot is what its own transaction projects. */
  ghost predicate Seals(cs: Changes, a: Actor, c: Change, base: set<Actor>, wanted: map<Register, Scalar>, row: StoredRevision)
  {
    && Committed(cs, a, c, base, wanted)
    && c.row == Some(row) && c.purged == {}
    && row.snapshot == Project(At(cs, base)[a := c], row.entry)
  }

  lemma Sealable(cs: Changes, a: Actor, c: Change, base: set<Actor>, wanted: map<Register, Scalar>, row: StoredRevision)
    requires Valid(cs) && Committed(cs, a, c, base, wanted) && c.row == Some(row) && row.base == base
    requires WantedOk(At(cs, base), row.entry, row.id, row.kind, wanted)
    ensures Valid(At(cs, base)[a := c]) && EntryIn(At(cs, base)[a := c], row.entry)
  {
    var p := At(cs, base);
    CommitKeepsValid(cs, a, c, base, wanted);
    WrittenAfter(p, a, c, EntryObject(row.entry));
    if EntryObject(row.entry) in wanted {
      FreshIsRecorded(p, c, row.entry, row.id, row.kind, wanted, EntryObject(row.entry));
    }
  }

  /** Read the snapshot in the transaction, store the row, and commit. */
  method Seal(tx: Transaction, ghost cs: Changes, a: Actor, base: set<Actor>, past: set<Actor>, draft: StoredRevision)
    returns (c: Change)
    requires tx.Valid() && Valid(cs) && tx.view == At(cs, base) && past == Down(cs, base)
    requires a !in cs && base <= cs.Keys && draft.base == base
    requires WantedOk(tx.view, draft.entry, draft.id, draft.kind, tx.wanted)
    ensures Seals(cs, a, c, base, tx.wanted,
                  draft.(snapshot := Project(At(cs, base)[a := c], draft.entry), changed := ChangedOperations(c.puts, a, draft.kind)))
  {
    var row := draft.(changed := ChangedOperations(tx.puts, a, draft.kind));
    var pending := Change(base, past, tx.puts, Some(row), {});
    CollectedIsRecorded(tx.view, tx.next, pending, tx.wanted);
    Sealable(cs, a, pending, base, tx.wanted, row);
    var snapshot := Reading.ReadEntry(tx.view[a := pending], draft.entry);
    c := pending.(row := Some(row.(snapshot := snapshot.value)));
    CollectedIsRecorded(tx.view, tx.next, c, tx.wanted);
    RowsDoNotProject(tx.view, a, pending, c, draft.entry);
  }
}
