/**
 What saving a draft means to its caller: which request is answered how, in terms the caller can
 check, and what the one change of a save leaves behind.
 */
module SavingLaws {
  import opened Wrappers
  import opened Operations
  import opened Entries
  import opened CausalDocument
  import opened Projection
  import opened Soundness
  import opened Structure
  import opened Drafts
  import opened Transactions
  import opened Laws
  import opened Runs
  import opened Saving

  // ----- which request is answered how

  /** A draft of this database with a listed group, a valid form and known heads. */
  predicate Presented(cs: Changes, database: string, d: EntryDraft, life: Lifecycle)
  {
    d.database == database && life.listed && ValidForm(d.fields) && d.base <= cs.Keys
  }

  /** An edit needs its entry to be active, a creation needs its parent to be open. */
  predicate LifetimeOpen(d: EntryDraft, life: Lifecycle)
  {
    if d.original.Some? then life.entry.Ok? else life.parent.Ok?
  }

  function ClosedBecause(d: EntryDraft, life: Lifecycle): Error
    requires !LifetimeOpen(d, life)
  {
    if d.original.Some? then life.entry.error else life.parent.error
  }

  /** The document holds this very confirmation: the same revision of the same entry, form and base. */
  ghost predicate AlreadyConfirmed(cs: Changes, d: EntryDraft)
  {
    exists b :: b in cs && cs[b].row.Some? && cs[b].row.value.id == d.revision
                && cs[b].row.value.entry == d.entry && cs[b].row.value.submitted == Some(d.fields) && cs[b].row.value.base == d.base
  }

  /** An object that the draft would create: not one of the form it started from. */
  predicate Brings(d: EntryDraft, r: Register)
  {
    match r
    case EntryObject(e) => e == d.entry && d.original.None?
    case AttributeObject(e, x) => e == d.entry && x in d.fields.attributes && (d.original.Some? ==> x !in d.original.value.attributes)
    case AttachmentObject(e, x) => e == d.entry && x in d.fields.attachments && (d.original.Some? ==> x !in d.original.value.attachments)
    case _ => false
  }

  /** An object of another entry under an identity of the form; attributes only if they are new to it. */
  predicate OwnedByAnother(d: EntryDraft, r: Register)
  {
    match r
    case AttributeObject(e, x) => e != d.entry && x in d.fields.attributes && (d.original.Some? ==> x !in d.original.value.attributes)
    case AttachmentObject(e, x) => e != d.entry && x in d.fields.attachments
    case _ => false
  }

  /** Some change has already created what the draft would create, or gave its identity to another entry. */
  ghost predicate InUse(cs: Changes, d: EntryDraft)
  {
    exists b, r :: b in cs && r in cs[b].puts && (Brings(d, r) || OwnedByAnother(d, r))
  }

  /** The requests that write. */
  ghost predicate Writes(cs: Changes, database: string, d: EntryDraft, life: Lifecycle)
  {
    && Presented(cs, database, d, life) && !RowIn(cs, d.revision)
    && LifetimeOpen(d, life) && d.original != Some(d.fields) && !InUse(cs, d)
  }

  lemma HolderMeansRow(cs: Changes, revision: RevisionId)
    ensures Holders(cs, revision) == {} <==> !RowIn(cs, revision)
  {
    if a :| a in Holders(cs, revision) {
      assert cs[a].row.value.id == revision;
    }
    if RowIn(cs, revision) {
      var a :| a in cs && cs[a].row.Some? && cs[a].row.value.id == revision;
      assert a in Holders(cs, revision);
    }
  }

  lemma ConfirmedMeans(cs: Changes, d: EntryDraft, b: Actor)
    requires Holders(cs, d.revision) == {b} && b in cs && cs[b].row.Some?
    ensures AlreadyConfirmed(cs, d) <==> Confirms(cs[b].row.value, d)
  {
    if AlreadyConfirmed(cs, d) {
      var x :| x in cs && cs[x].row.Some? && cs[x].row.value.id == d.revision
               && cs[x].row.value.entry == d.entry && cs[x].row.value.submitted == Some(d.fields) && cs[x].row.value.base == d.base;
      assert x in Holders(cs, d.revision);
    }
    assert b in Holders(cs, d.revision);
  }

  lemma TakenMeans(cs: Changes, d: EntryDraft)
    ensures InUse(cs, d) <==> !Owned(cs, d) || Clashes(cs, d)
  {
    forall x ensures OldAttribute(d, x).None? <==> (d.original.Some? ==> x !in d.original.value.attributes) {
    }
    forall x ensures OldAttachment(d, x).None? <==> (d.original.Some? ==> x !in d.original.value.attachments) {
    }
    if InUse(cs, d) {
      var b, r :| b in cs && r in cs[b].puts && (Brings(d, r) || OwnedByAnother(d, r));
      UseIsTaken(cs, d, b, r);
    }
    if !Owned(cs, d) {
      NotOwnedIsUse(cs, d);
    }
    if Clashes(cs, d) {
      ClashIsUse(cs, d);
    }
  }

  lemma UseIsTaken(cs: Changes, d: EntryDraft, b: Actor, r: Register)
    requires b in cs && r in cs[b].puts && (Brings(d, r) || OwnedByAnother(d, r))
    ensures !Owned(cs, d) || Clashes(cs, d)
  {
    match r
    case AttributeObject(e, x) =>
      if e == d.entry {
        assert TakenAttribute(cs, d, x);
      } else {
        assert x in AttributesElsewhere(cs, d.entry) && x in d.fields.attributes.Keys - OldAttributes(d);
      }
    case AttachmentObject(e, x) =>
      if e == d.entry {
        assert TakenAttachment(cs, d, x);
      } else {
        assert x in AttachmentsElsewhere(cs, d.entry) && x in d.fields.attachments.Keys;
      }
    case _ =>
  }

  lemma NotOwnedIsUse(cs: Changes, d: EntryDraft)
    requires !Owned(cs, d)
    ensures InUse(cs, d)
  {
    if x :| x in d.fields.attachments.Keys && x in AttachmentsElsewhere(cs, d.entry) {
      var b, r :| b in cs && r in cs[b].puts && r.AttachmentObject? && r.entry != d.entry && r.attachment == x;
      assert OwnedByAnother(d, r);
    } else {
      var x :| x in d.fields.attributes.Keys - OldAttributes(d) && x in AttributesElsewhere(cs, d.entry);
      var b, r :| b in cs && r in cs[b].puts && r.AttributeObject? && r.entry != d.entry && r.attribute == x;
      assert OwnedByAnother(d, r);
    }
  }

  lemma ClashIsUse(cs: Changes, d: EntryDraft)
    requires Clashes(cs, d)
    ensures InUse(cs, d)
  {
    if x :| TakenAttribute(cs, d, x) {
      var b :| b in cs && AttributeObject(d.entry, x) in cs[b].puts;
      assert Brings(d, AttributeObject(d.entry, x));
    } else if x :| TakenAttachment(cs, d, x) {
      var b :| b in cs && AttachmentObject(d.entry, x) in cs[b].puts;
      assert Brings(d, AttachmentObject(d.entry, x));
    } else {
      var b :| b in cs && EntryObject(d.entry) in cs[b].puts;
      assert Brings(d, EntryObject(d.entry));
    }
  }

  /** The row of a revision is found, and there is no other. */
  lemma RowIsFound(cs: Changes, revision: RevisionId) returns (b: Actor)
    requires UniqueRows(cs) && RowIn(cs, revision)
    ensures b in cs && cs[b].row.Some? && StoredRow(cs, revision) == Ok(cs[b].row) && Holders(cs, revision) == {b}
  {
    b :| b in cs && cs[b].row.Some? && cs[b].row.value.id == revision;
    StoredOnce(cs, b, revision);
  }

  /** What the checks before the transaction decide. */
  lemma AdmissionMeans(cs: Changes, database: string, d: EntryDraft, life: Lifecycle)
    requires UniqueRows(cs)
    ensures d.database != database ==> Admit(cs, database, d, life) == Err(InvalidContext)
    ensures d.database == database && !life.listed ==> Admit(cs, database, d, life) == Err(NotFound)
    ensures d.database == database && life.listed && !ValidForm(d.fields) ==> Admit(cs, database, d, life) == Err(Validation)
    ensures d.database == database && life.listed && ValidForm(d.fields) && !(d.base <= cs.Keys) ==>
              Admit(cs, database, d, life) == Err(InvalidContext)
    ensures Presented(cs, database, d, life) && RowIn(cs, d.revision) ==>
              Admit(cs, database, d, life) == if AlreadyConfirmed(cs, d) then Ok(Replayed) else Err(DuplicateId)
    ensures Presented(cs, database, d, life) && !RowIn(cs, d.revision) && !LifetimeOpen(d, life) ==>
              Admit(cs, database, d, life) == Err(ClosedBecause(d, life))
    ensures Presented(cs, database, d, life) && !RowIn(cs, d.revision) && LifetimeOpen(d, life) && d.original == Some(d.fields) ==>
              Admit(cs, database, d, life) == Ok(Unchanged)
    ensures Presented(cs, database, d, life) && !RowIn(cs, d.revision) && LifetimeOpen(d, life) && d.original != Some(d.fields) ==>
              Admit(cs, database, d, life) == if Owned(cs, d) then Ok(Proceed) else Err(DuplicateId)
  {
    HolderMeansRow(cs, d.revision);
    if RowIn(cs, d.revision) {
      var b := RowIsFound(cs, d.revision);
      ConfirmedMeans(cs, d, b);
    }
  }

  /** Wherever the change of a save has arrived, the draft is already confirmed there. */
  lemma SavedIsConfirmed(cs: Changes, ds: Changes, es: Changes, d: EntryDraft, now: Timestamp, clone: bool, a: Actor)
    requires SavedForm(cs, ds, d, now, clone, a) && a in es && es[a] == ds[a]
    ensures RowIn(es, d.revision) && AlreadyConfirmed(es, d)
  {
    assert SavedChange(cs, ds[a], d, now, clone);
  }

  // ----- what a save leaves behind

  /** The part of the form that a field stands for is the same before and after. */
  predicate SamePart(before: EntryFields, after: EntryFields, f: EntryField)
  {
    match f
    case Title => before.title == after.title
    case Username => before.username == after.username
    case Password => before.password == after.password
    case Url => before.url == after.url
    case Notes => before.notes == after.notes
    case Tags => before.tags == after.tags
    case ExpiresAt => before.expiresAt == after.expiresAt
    case Icon => before.icon == after.icon
    case Foreground => before.foreground == after.foreground
    case Background => before.background == after.background
    case AttributeName(x) => x in after.attributes ==> x in before.attributes && before.attributes[x].name == after.attributes[x].name
    case AttributeData(x) => x in after.attributes ==> x in before.attributes && before.attributes[x].value == after.attributes[x].value
    case AttributePresence(x) =>
      (x in before.attributes <==> x in after.attributes) && (x in after.attributes ==> before.attributes[x] == after.attributes[x])
    case AttachmentName(x) => x in after.attachments ==> x in before.attachments && before.attachments[x].name == after.attachments[x].name
    case AttachmentBlob(x) => x in after.attachments ==> x in before.attachments && before.attachments[x].blob == after.attachments[x].blob
    case AttachmentPresence(x) =>
      (x in before.attachments <==> x in after.attachments) && (x in after.attachments ==> before.attachments[x] == after.attachments[x])
  }

  /** A register that a save of the draft has no reason to write. */
  predicate Unconcerned(d: EntryDraft, r: Register)
  {
    || r.entry != d.entry
    || (d.original.Some? &&
        match r
        case EntryObject(_) => true
        case Home(_) => true
        case AttributeObject(_, x) => x in d.original.value.attributes || x !in d.fields.attributes
        case AttachmentObject(_, x) => x in d.original.value.attachments || x !in d.fields.attachments
        case Field(_, f) => SamePart(d.original.value, d.fields, f)
        case Detail(_, _) => true)
  }

  /** The one change of a save: what it stands on, its row, and what it leaves alone. */
  ghost predicate SavedChange(cs: Changes, c: Change, d: EntryDraft, now: Timestamp, clone: bool)
  {
    && c.deps == d.base && c.past == Down(cs, d.base) && c.purged == {} && c.row.Some?
    && c.row.value.id == d.revision && c.row.value.entry == d.entry && c.row.value.savedAt == now && c.row.value.base == d.base
    && c.row.value.kind == (if clone then Clone else if d.original.None? then Create else Save)
    && c.row.value.submitted == Some(d.fields) && c.row.value.snapshot == d.fields
    && forall r :: Unconcerned(d, r) ==> r !in c.puts
  }

  /** `cs` with that change, whose own view shows the form and, for a creation, the chosen group. */
  ghost predicate SavedForm(cs: Changes, ds: Changes, d: EntryDraft, now: Timestamp, clone: bool, a: Actor)
  {
    && a in ds && ds == cs[a := ds[a]] && SavedChange(cs, ds[a], d, now, clone)
    && ShowsForm(Upto(ds, a), d.entry, d.fields)
    && (d.original.None? ==> Chosen(Upto(ds, a), Home(d.entry)) == Some(HomeRef(d.group)))
    && (forall r :: Unconcerned(d, r) ==> Visible(ds, r) == Visible(cs, r))
    && (forall r :: r in ds[a].puts ==> Visible(ds, r) == Visible(cs, r) - Visible(At(cs, d.base), r) + {a})
    && VisibleHistory(ds, d.entry) == VisibleHistory(cs, d.entry) + ({d.revision} - PurgedIds(cs))
    && forall e :: e != d.entry ==> VisibleHistory(ds, e) == VisibleHistory(cs, e)
  }

  lemma UnconcernedScalar(d: EntryDraft, f: EntryField)
    requires d.original.Some? && IsScalar(f) && SamePart(d.original.value, d.fields, f)
    ensures FieldWrite(d, f).None?
  {
  }

  lemma UnconcernedPart(d: EntryDraft, f: EntryField)
    requires d.original.Some? && !IsScalar(f) && SamePart(d.original.value, d.fields, f)
    ensures FieldWrite(d, f).None?
  {
  }

  /** A draft asks for nothing that its form leaves as it was. */
  lemma UnconcernedIsUnasked(d: EntryDraft, r: Register)
    requires Unconcerned(d, r)
    ensures DraftWrite(d, r).None?
  {
    if r.entry == d.entry && r.Field? {
      if IsScalar(r.field) {
        UnconcernedScalar(d, r.field);
      } else {
        UnconcernedPart(d, r.field);
      }
    }
  }

  lemma UnconcernedIsUntouched(cs: Changes, d: EntryDraft, a: Actor, c: Change, wanted: map<Register, Scalar>)
    requires Valid(cs) && Asks(wanted, d) && Committed(cs, a, c, d.base, wanted)
    ensures forall r :: Unconcerned(d, r) ==> r !in c.puts && Visible(cs[a := c], r) == Visible(cs, r)
  {
    forall r | Unconcerned(d, r) ensures r !in c.puts && Visible(cs[a := c], r) == Visible(cs, r) {
      UnconcernedIsUnasked(d, r);
      assert Write(wanted, r) == DraftWrite(d, r);
      CommitConsumesWhatItSaw(cs, a, c, d.base, wanted, r);
    }
  }

  lemma CreatedAtHome(cs: Changes, d: EntryDraft, a: Actor, c: Change, wanted: map<Register, Scalar>)
    requires Valid(cs) && Asks(wanted, d) && Committed(cs, a, c, d.base, wanted) && d.original.None?
    ensures Chosen(At(cs, d.base)[a := c], Home(d.entry)) == Some(HomeRef(d.group))
  {
    assert Write(wanted, Home(d.entry)) == DraftWrite(d, Home(d.entry));
    CommitIsOrdered(cs, a, c, d.base, wanted);
    CommitChooses(At(cs, d.base), a, c, wanted, Home(d.entry));
  }

  lemma SavedShows(cs: Changes, ds: Changes, d: EntryDraft, now: Timestamp, kind: Kind, a: Actor, c: Change)
    requires Sound(cs) && DraftOk(cs, d) && Saved(cs, ds, d, now, kind, a, c)
    ensures Valid(ds) && ShowsForm(Upto(ds, a), d.entry, d.fields)
  {
    SaveKeepsSound(cs, ds, d, now, kind, a, c);
    ViewsAreValid(ds, a);
    PutSaw(ds, a);
    ProjectionMeans(Upto(ds, a), d.entry, d.fields);
  }

  lemma PutSaw(ds: Changes, a: Actor)
    requires Valid(ds) && a in ds && ds[a].row.Some?
    ensures EntryIn(Upto(ds, a), ds[a].row.value.entry)
  {
    ViewsAreValid(ds, a);
  }

  lemma SavedRowIs(cs: Changes, ds: Changes, d: EntryDraft, now: Timestamp, kind: Kind, clone: bool, a: Actor, c: Change)
    requires Sound(cs) && DraftOk(cs, d) && Saved(cs, ds, d, now, kind, a, c) && kind == KindOf(d, clone)
    ensures c.deps == d.base && c.past == Down(cs, d.base) && c.purged == {}
    ensures c.row.Some? && c.row.value.id == d.revision && c.row.value.entry == d.entry && c.row.value.savedAt == now
    ensures c.row.value.base == d.base && c.row.value.kind == (if clone then Clone else if d.original.None? then Create else Save)
    ensures c.row.value.submitted == Some(d.fields) && c.row.value.snapshot == d.fields
  {
    SaveKeepsSound(cs, ds, d, now, kind, a, c);
  }

  lemma SaveLeavesTheRest(cs: Changes, ds: Changes, d: EntryDraft, now: Timestamp, kind: Kind, a: Actor, c: Change)
    requires Valid(cs) && Saved(cs, ds, d, now, kind, a, c)
    ensures forall r :: Unconcerned(d, r) ==> r !in c.puts && Visible(ds, r) == Visible(cs, r)
    ensures forall r :: r in c.puts ==> Visible(ds, r) == Visible(cs, r) - Visible(At(cs, d.base), r) + {a}
  {
    var wanted :| Asks(wanted, d) && Committed(cs, a, c, d.base, wanted);
    UnconcernedIsUntouched(cs, d, a, c, wanted);
    forall r | r in c.puts ensures Visible(ds, r) == Visible(cs, r) - Visible(At(cs, d.base), r) + {a} {
      CommitConsumesWhatItSaw(cs, a, c, d.base, wanted, r);
    }
  }

  lemma SaveGivesHome(cs: Changes, ds: Changes, d: EntryDraft, now: Timestamp, kind: Kind, a: Actor, c: Change)
    requires Valid(cs) && Saved(cs, ds, d, now, kind, a, c) && d.original.None?
    ensures Chosen(Upto(ds, a), Home(d.entry)) == Some(HomeRef(d.group))
  {
    var wanted :| Asks(wanted, d) && Committed(cs, a, c, d.base, wanted);
    CreatedAtHome(cs, d, a, c, wanted);
    CommitIsOrdered(cs, a, c, d.base, wanted);
    ExtendKeepsViews(cs, a, c);
  }

  lemma SavedHistory(cs: Changes, a: Actor, c: Change, entry: EntryId, revision: RevisionId)
    requires a !in cs && c.purged == {} && c.row.Some? && c.row.value.entry == entry && c.row.value.id == revision
    ensures VisibleHistory(cs[a := c], entry) == VisibleHistory(cs, entry) + ({revision} - PurgedIds(cs))
    ensures forall e :: e != entry ==> VisibleHistory(cs[a := c], e) == VisibleHistory(cs, e)
  {
    forall e ensures VisibleHistory(cs[a := c], e) == VisibleHistory(cs, e) + (OwnRow(c, e) - PurgedIds(cs)) {
      HistoryAfter(cs, a, c, e);
    }
  }

  lemma SavedIsOneChange(cs: Changes, ds: Changes, d: EntryDraft, now: Timestamp, kind: Kind, a: Actor, c: Change)
    requires Saved(cs, ds, d, now, kind, a, c)
    ensures a !in cs && ds == cs[a := c] && ds[a] == c
  {
  }

  /** What a save leaves behind. */
  lemma SaveMeans(cs: Changes, ds: Changes, d: EntryDraft, now: Timestamp, clone: bool, a: Actor, c: Change)
    requires Sound(cs) && DraftOk(cs, d) && Saved(cs, ds, d, now, KindOf(d, clone), a, c)
    ensures SavedForm(cs, ds, d, now, clone, a)
  {
    SavedIsOneChange(cs, ds, d, now, KindOf(d, clone), a, c);
    SaveLeavesTheRest(cs, ds, d, now, KindOf(d, clone), a, c);
    SavedRowIs(cs, ds, d, now, KindOf(d, clone), clone, a, c);
    SavedShows(cs, ds, d, now, KindOf(d, clone), a, c);
    if d.original.None? {
      SaveGivesHome(cs, ds, d, now, KindOf(d, clone), a, c);
    }
    SavedHistory(cs, a, c, d.entry, d.revision);
  }
}
