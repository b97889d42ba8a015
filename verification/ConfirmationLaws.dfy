/**
 What edits, resolutions, moves and restorations mean to their caller: what is selected
 afterwards, what stays as it was, and the one row they add.
 */
module ConfirmationLaws {
  import opened Wrappers
  import opened Operations
  import opened Entries
  import opened CausalDocument
  import opened Projection
  import opened Soundness
  import opened Drafts
  import opened Confirmations
  import opened Laws
  import opened Runs
  import opened Resolving

  /** `ds` is `cs` with one change at `base`, whose row is a confirmation of the entry without a form. */
  ghost predicate AddsRow(cs: Changes, ds: Changes, a: Actor, e: EntryId, revision: RevisionId, kind: Kind, base: set<Actor>, now: Timestamp)
  {
    && a !in cs && a in ds && ds == cs[a := ds[a]]
    && ds[a].deps == base && ds[a].past == Down(cs, base) && ds[a].purged == {} && ds[a].row.Some?
    && ds[a].row.value.id == revision && ds[a].row.value.entry == e && ds[a].row.value.kind == kind
    && ds[a].row.value.base == base && ds[a].row.value.savedAt == now && ds[a].row.value.submitted == None
    && ds[a].row.value.snapshot == Project(Upto(ds, a), e)
  }

  /** The field shows the value; a presence carries the revision that set it. */
  ghost predicate Selects(v: Changes, e: EntryId, f: EntryField, value: FieldValue, revision: RevisionId)
  {
    Chosen(v, Field(e, f)) == Some(match value {
      case PresenceValue(present) => Mark(present, revision)
      case _ => Data(value)
    })
  }

  /** Where the change writes it replaces what its base showed, and nothing that arrived since. */
  ghost predicate Consumes(cs: Changes, ds: Changes, a: Actor, base: set<Actor>)
  {
    a in ds && forall r :: r in ds[a].puts ==> Visible(ds, r) == Visible(cs, r) - Visible(At(cs, base), r) + {a}
  }

  /** The registers that a confirmation may write. */
  predicate Concerned(q: Confirmation, r: Register)
  {
    && r.entry == q.entry
    && ((r.Field? && r.field in q.values) || (r.Home? && q.home.Some?) || r in q.created)
  }

  lemma ConcernedIsAsked(q: Confirmation, r: Register)
    requires !Concerned(q, r)
    ensures ConfirmWrite(q, r).None?
  {
  }

  lemma ConfirmLeavesTheRest(cs: Changes, ds: Changes, q: Confirmation, now: Timestamp, a: Actor, c: Change)
    requires Valid(cs) && Confirmed(cs, ds, q, now, a, c)
    ensures forall r :: !Concerned(q, r) ==> r !in c.puts && Visible(ds, r) == Visible(cs, r)
    ensures Consumes(cs, ds, a, q.base)
  {
    var wanted :| ConfirmAsks(wanted, q) && Committed(cs, a, c, q.base, wanted);
    forall r | !Concerned(q, r) ensures r !in c.puts && Visible(ds, r) == Visible(cs, r) {
      ConcernedIsAsked(q, r);
      assert Write(wanted, r) == ConfirmWrite(q, r);
      CommitConsumesWhatItSaw(cs, a, c, q.base, wanted, r);
    }
    forall r | r in c.puts ensures Visible(ds, r) == Visible(cs, r) - Visible(At(cs, q.base), r) + {a} {
      CommitConsumesWhatItSaw(cs, a, c, q.base, wanted, r);
    }
  }

  /** In the view of its own change every value of a confirmation is selected. */
  lemma ConfirmSelects(cs: Changes, ds: Changes, q: Confirmation, now: Timestamp, a: Actor, c: Change)
    requires Valid(cs) && Confirmed(cs, ds, q, now, a, c)
    ensures forall f :: f in q.values ==> Selects(Upto(ds, a), q.entry, f, q.values[f], q.revision)
    ensures q.home.Some? ==> Chosen(Upto(ds, a), Home(q.entry)) == Some(HomeRef(q.home.value))
  {
    var wanted :| ConfirmAsks(wanted, q) && Committed(cs, a, c, q.base, wanted);
    CommitIsOrdered(cs, a, c, q.base, wanted);
    ExtendKeepsViews(cs, a, c);
    AskedIsSelected(At(cs, q.base), a, c, q, wanted);
  }

  lemma AskedIsSelected(p: Changes, a: Actor, c: Change, q: Confirmation, wanted: map<Register, Scalar>)
    requires Causal(p) && a !in p && Recorded(p, c, wanted) && ConfirmAsks(wanted, q)
    ensures forall f :: f in q.values ==> Selects(p[a := c], q.entry, f, q.values[f], q.revision)
    ensures q.home.Some? ==> Chosen(p[a := c], Home(q.entry)) == Some(HomeRef(q.home.value))
  {
    forall f | f in q.values ensures Selects(p[a := c], q.entry, f, q.values[f], q.revision) {
      assert Write(wanted, Field(q.entry, f)) == ConfirmWrite(q, Field(q.entry, f));
      CommitChooses(p, a, c, wanted, Field(q.entry, f));
    }
    assert Write(wanted, Home(q.entry)) == ConfirmWrite(q, Home(q.entry));
    CommitChooses(p, a, c, wanted, Home(q.entry));
  }

  lemma ConfirmAddsRow(cs: Changes, ds: Changes, q: Confirmation, now: Timestamp, a: Actor, c: Change)
    requires Confirmed(cs, ds, q, now, a, c)
    ensures AddsRow(cs, ds, a, q.entry, q.revision, q.kind, q.base, now) && ds[a] == c
  {
  }

  /** A confirmation at everything there is decides the whole document. */
  lemma ConfirmedAtHeads(cs: Changes, ds: Changes, q: Confirmation, now: Timestamp, a: Actor, c: Change)
    requires Valid(cs) && Confirmed(cs, ds, q, now, a, c) && q.base == Heads(cs)
    ensures Upto(ds, a) == ds
  {
    HeadsSeeAll(cs);
    assert Down(cs, q.base) == cs.Keys by {
      assert At(cs, q.base).Keys == cs.Keys;
    }
    ExtendKeepsViews(cs, a, c);
    assert Restrict(cs, c.past) == cs;
  }

  /** One row of history for the entry, and nothing for any other. */
  lemma AddedRowIsHistory(cs: Changes, ds: Changes, a: Actor, e: EntryId, revision: RevisionId, kind: Kind, base: set<Actor>, now: Timestamp)
    requires AddsRow(cs, ds, a, e, revision, kind, base, now)
    ensures VisibleHistory(ds, e) == VisibleHistory(cs, e) + ({revision} - PurgedIds(cs))
    ensures forall x :: x != e ==> VisibleHistory(ds, x) == VisibleHistory(cs, x)
  {
    forall x ensures VisibleHistory(ds, x) == VisibleHistory(cs, x) + (OwnRow(ds[a], x) - PurgedIds(cs)) {
      HistoryAfter(cs, a, ds[a], x);
    }
  }

  /** A typed scalar is selected exactly when it is what the register chooses. */
  lemma SelectedScalar(v: Changes, e: EntryId, f: EntryField, value: FieldValue, revision: RevisionId)
    requires Valid(v) && EntryIn(v, e) && IsScalar(f) && ValidField(f, value)
    ensures Selected(v, e, f) == value <==> Selects(v, e, f, value, revision)
  {
    EntryHasScalars(v, e, f);
    ChosenFits(v, Field(e, f));
  }

  // ----- edits

  /** A register of an updated field that does not select its update yet. */
  ghost predicate Outdated(cs: Changes, e: EntryId, updates: map<EntryField, FieldValue>, revision: RevisionId, r: Register)
  {
    r.Field? && r.entry == e && r.field in updates && !Selects(cs, e, r.field, updates[r.field], revision)
  }

  /** Every update is selected, only outdated registers changed, and there is a row exactly if there were any. */
  ghost predicate Edited(cs: Changes, ds: Changes, e: EntryId, updates: map<EntryField, FieldValue>, revision: RevisionId, now: Timestamp, a: Actor)
  {
    && (forall f :: f in updates ==> Selects(ds, e, f, updates[f], revision))
    && (forall r :: !Outdated(cs, e, updates, revision, r) ==> Visible(ds, r) == Visible(cs, r))
    && if exists f :: f in updates && !Selects(cs, e, f, updates[f], revision)
       then AddsRow(cs, ds, a, e, revision, Save, Heads(cs), now) && Consumes(cs, ds, a, Heads(cs))
       else ds == cs
  }

  ghost predicate Updates(updates: map<EntryField, FieldValue>)
  {
    forall f :: f in updates ==> IsScalar(f) && ValidField(f, updates[f])
  }

  lemma ChangingIsOutdated(v: Changes, e: EntryId, updates: map<EntryField, FieldValue>, revision: RevisionId)
    requires Valid(v) && EntryIn(v, e) && Updates(updates)
    ensures forall f :: f in updates ==> (f in Changing(v, e, updates) <==> !Selects(v, e, f, updates[f], revision))
  {
    forall f | f in updates ensures f in Changing(v, e, updates) <==> !Selects(v, e, f, updates[f], revision) {
      SelectedScalar(v, e, f, updates[f], revision);
    }
  }

  lemma NothingToEdit(cs: Changes, e: EntryId, updates: map<EntryField, FieldValue>, revision: RevisionId, now: Timestamp, a: Actor)
    requires Valid(cs) && EntryIn(cs, e) && Updates(updates) && Changing(cs, e, updates) == map[]
    ensures Edited(cs, cs, e, updates, revision, now, a)
  {
    ChangingIsOutdated(cs, e, updates, revision);
  }

  /** An update that is already selected stays selected when its register is left alone. */
  lemma LeftAloneStaysSelected(cs: Changes, ds: Changes, e: EntryId, f: EntryField, value: FieldValue, revision: RevisionId)
    requires Visible(ds, Field(e, f)) == Visible(cs, Field(e, f)) && (forall b :: b in cs ==> b in ds && ds[b] == cs[b])
    requires Selects(cs, e, f, value, revision)
    ensures Selects(ds, e, f, value, revision)
  {
    SameVisibleSameChosen(ds, cs, Field(e, f));
  }

  /** The updates that are not selected yet, and nothing else, have been written. */
  ghost predicate WritesOutdated(cs: Changes, ds: Changes, e: EntryId, updates: map<EntryField, FieldValue>, values: map<EntryField, FieldValue>, revision: RevisionId)
  {
    && (forall f :: f in values ==> f in updates && values[f] == updates[f])
    && (forall f :: f in updates ==> (f in values <==> !Selects(cs, e, f, updates[f], revision)))
    && (forall f :: f in values ==> Selects(ds, e, f, values[f], revision))
    && (forall r: Register :: !(r.Field? && r.entry == e && r.field in values) ==> Visible(ds, r) == Visible(cs, r))
  }

  lemma OutdatedSuffices(cs: Changes, ds: Changes, e: EntryId, updates: map<EntryField, FieldValue>, values: map<EntryField, FieldValue>, revision: RevisionId)
    requires WritesOutdated(cs, ds, e, updates, values, revision) && forall b :: b in cs ==> b in ds && ds[b] == cs[b]
    ensures forall f :: f in updates ==> Selects(ds, e, f, updates[f], revision)
    ensures forall r :: !Outdated(cs, e, updates, revision, r) ==> Visible(ds, r) == Visible(cs, r)
  {
    forall f | f in updates ensures Selects(ds, e, f, updates[f], revision) {
      if f !in values {
        LeftAloneStaysSelected(cs, ds, e, f, updates[f], revision);
      }
    }
  }

  lemma OutdatedIsEdited(cs: Changes, ds: Changes, e: EntryId, updates: map<EntryField, FieldValue>, values: map<EntryField, FieldValue>,
                         revision: RevisionId, now: Timestamp, a: Actor)
    requires WritesOutdated(cs, ds, e, updates, values, revision) && values != map[]
    requires AddsRow(cs, ds, a, e, revision, Save, Heads(cs), now) && Consumes(cs, ds, a, Heads(cs))
    ensures Edited(cs, ds, e, updates, revision, now, a)
  {
    OutdatedSuffices(cs, ds, e, updates, values, revision);
    var f :| f in values;
    assert f in updates && !Selects(cs, e, f, updates[f], revision);
  }

  lemma EditWritesOutdated(cs: Changes, ds: Changes, q: Confirmation, updates: map<EntryField, FieldValue>, now: Timestamp, a: Actor, c: Change)
    requires Valid(cs) && Confirmed(cs, ds, q, now, a, c) && EntryIn(cs, q.entry)
    requires q.base == Heads(cs) && q.home == None && q.created == {}
    requires Updates(updates) && q.values == Changing(cs, q.entry, updates)
    ensures WritesOutdated(cs, ds, q.entry, updates, q.values, q.revision)
  {
    ChangingIsOutdated(cs, q.entry, updates, q.revision);
    ConfirmLeavesTheRest(cs, ds, q, now, a, c);
    ConfirmSelects(cs, ds, q, now, a, c);
    ConfirmedAtHeads(cs, ds, q, now, a, c);
    forall r: Register | !(r.Field? && r.entry == q.entry && r.field in q.values) ensures Visible(ds, r) == Visible(cs, r) {
      assert !Concerned(q, r);
    }
  }

  lemma EditMeans(cs: Changes, ds: Changes, q: Confirmation, updates: map<EntryField, FieldValue>, now: Timestamp, a: Actor, c: Change)
    requires Valid(cs) && Confirmed(cs, ds, q, now, a, c) && EntryIn(cs, q.entry)
    requires q.kind == Save && q.base == Heads(cs) && q.home == None && q.created == {}
    requires Updates(updates) && q.values == Changing(cs, q.entry, updates) && q.values != map[]
    ensures Edited(cs, ds, q.entry, updates, q.revision, now, a)
  {
    EditWritesOutdated(cs, ds, q, updates, now, a, c);
    ConfirmLeavesTheRest(cs, ds, q, now, a, c);
    ConfirmAddsRow(cs, ds, q, now, a, c);
    OutdatedIsEdited(cs, ds, q.entry, updates, q.values, q.revision, now, a);
  }

  // ----- resolutions

  /** The register of a field that the list resolves. */
  predicate Lists(fields: seq<Resolution>, e: EntryId, r: Register)
  {
    r.Field? && r.entry == e && exists i :: 0 <= i < |fields| && fields[i].field == r.field
  }

  /** The field has one visible value, and it is this one. */
  ghost predicate ShowsOnly(p: Changes, e: EntryId, f: EntryField, value: FieldValue)
  {
    !value.PresenceValue? && exists b :: Visible(p, Field(e, f)) == {b} && p[b].puts[Field(e, f)].scalar == Data(value)
  }

  /** Every resolved value is selected in the view of the resolution, and no other register changed. */
  ghost predicate Resolved(cs: Changes, ds: Changes, e: EntryId, heads: set<Actor>, fields: seq<Resolution>, revision: RevisionId, now: Timestamp, a: Actor)
  {
    && AddsRow(cs, ds, a, e, revision, Resolve, heads, now) && Consumes(cs, ds, a, heads)
    && (forall i :: 0 <= i < |fields| ==> Selects(Upto(ds, a), e, fields[i].field, fields[i].value, revision))
    && (forall i :: 0 <= i < |fields| && ShowsOnly(At(cs, heads), e, fields[i].field, fields[i].value) ==>
          Visible(ds, Field(e, fields[i].field)) == Visible(cs, Field(e, fields[i].field)))
    && forall r :: !Lists(fields, e, r) ==> Visible(ds, r) == Visible(cs, r)
  }

  /** Resolving a field to the only value its base shows leaves the register as it is. */
  lemma SameValueIsQuiet(cs: Changes, ds: Changes, q: Confirmation, now: Timestamp, a: Actor, c: Change, f: EntryField)
    requires Valid(cs) && Confirmed(cs, ds, q, now, a, c) && f in q.values && ShowsOnly(At(cs, q.base), q.entry, f, q.values[f])
    ensures Visible(ds, Field(q.entry, f)) == Visible(cs, Field(q.entry, f))
  {
    ResolutionKeepsUnseen(cs, ds, q, now, a, c, f);
  }

  lemma ResolutionAddsRow(cs: Changes, ds: Changes, q: Confirmation, now: Timestamp, a: Actor, c: Change)
    requires Valid(cs) && Confirmed(cs, ds, q, now, a, c)
    ensures AddsRow(cs, ds, a, q.entry, q.revision, q.kind, q.base, now) && Consumes(cs, ds, a, q.base)
  {
    ConfirmAddsRow(cs, ds, q, now, a, c);
    ConfirmLeavesTheRest(cs, ds, q, now, a, c);
  }

  lemma UnlistedStays(cs: Changes, ds: Changes, q: Confirmation, fields: seq<Resolution>, now: Timestamp, a: Actor, c: Change)
    requires Valid(cs) && Confirmed(cs, ds, q, now, a, c) && q.home == None && q.created == {} && q.values == Values(fields)
    ensures forall r :: !Lists(fields, q.entry, r) ==> Visible(ds, r) == Visible(cs, r)
  {
    ValuesOfList(fields);
    ConfirmLeavesTheRest(cs, ds, q, now, a, c);
    forall r | !Lists(fields, q.entry, r) ensures Visible(ds, r) == Visible(cs, r) {
      assert !Concerned(q, r);
    }
  }

  lemma ResolutionMeans(cs: Changes, ds: Changes, q: Confirmation, fields: seq<Resolution>, now: Timestamp, a: Actor, c: Change)
    requires Valid(cs) && Confirmed(cs, ds, q, now, a, c)
    requires q.kind == Resolve && q.home == None && q.created == {} && EachOnce(fields) && q.values == Values(fields)
    ensures Resolved(cs, ds, q.entry, q.base, fields, q.revision, now, a)
  {
    ValuesOfList(fields);
    UnlistedStays(cs, ds, q, fields, now, a, c);
    ConfirmSelects(cs, ds, q, now, a, c);
    ResolutionAddsRow(cs, ds, q, now, a, c);
    forall i | 0 <= i < |fields| && ShowsOnly(At(cs, q.base), q.entry, fields[i].field, fields[i].value)
      ensures Visible(ds, Field(q.entry, fields[i].field)) == Visible(cs, Field(q.entry, fields[i].field))
    {
      SameValueIsQuiet(cs, ds, q, now, a, c, fields[i].field);
    }
  }

  // ----- moves

  /** The group is chosen in the view of the move, and no other register changed. */
  ghost predicate Moved(cs: Changes, ds: Changes, e: EntryId, group: GroupId, base: set<Actor>, kind: Kind, revision: RevisionId, now: Timestamp, a: Actor)
  {
    && AddsRow(cs, ds, a, e, revision, kind, base, now) && Consumes(cs, ds, a, base)
    && Chosen(Upto(ds, a), Home(e)) == Some(HomeRef(group))
    && forall r :: r != Home(e) ==> Visible(ds, r) == Visible(cs, r)
  }

  lemma MoveMeans(cs: Changes, ds: Changes, q: Confirmation, group: GroupId, now: Timestamp, a: Actor, c: Change)
    requires Valid(cs) && Confirmed(cs, ds, q, now, a, c)
    requires q.values == map[] && q.home == Some(group) && q.created == {}
    ensures Moved(cs, ds, q.entry, group, q.base, q.kind, q.revision, now, a)
  {
    ConfirmLeavesTheRest(cs, ds, q, now, a, c);
    ConfirmSelects(cs, ds, q, now, a, c);
    ConfirmAddsRow(cs, ds, q, now, a, c);
    forall r | r != Home(q.entry) ensures Visible(ds, r) == Visible(cs, r) {
      assert !Concerned(q, r);
    }
  }
}
