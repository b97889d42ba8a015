/**
 Saving a draft, from taypeer-document/src/lib.rs: the checks before the transaction, and the
 transaction itself.
 */
module Saving {
  import opened Wrappers
  import opened Operations
  import opened Entries
  import opened CausalDocument
  import opened Projection
  import opened Soundness
  import opened Structure
  import opened Drafts
  import opened Transactions
  import opened Committing
  import opened Validating
  import opened Runs

  /** What the lifecycle of groups and entries says about one request. */
  datatype Lifecycle = Lifecycle(listed: bool, entry: Result<(), Error>, parent: Result<(), Error>)

  datatype Verdict = Replayed | Unchanged | Proceed

  /** `unique_optional`: the one row of a revision. */
  function StoredRow(cs: Changes, revision: RevisionId): Result<Option<StoredRevision>, Error>
  {
    var holders := Holders(cs, revision);
    if holders == {} then Ok(None)
    else if exists a :: a in holders && holders == {a} then
      var a :| a in holders && holders == {a};
      Ok(cs[a].row)
    else Err(Conflict)
  }

  predicate Confirms(row: StoredRevision, d: EntryDraft)
  {
    row.entry == d.entry && row.submitted == Some(d.fields) && row.base == d.base
  }

  /** Everything `confirm_entry_command` checks before it opens a transaction, in its order. */
  function Admit(cs: Changes, database: string, d: EntryDraft, life: Lifecycle): Result<Verdict, Error>
  {
    if d.database != database then Err(InvalidContext)
    else if !life.listed then Err(NotFound)
    else if !ValidForm(d.fields) then Err(Validation)
    else if !(d.base <= cs.Keys) then Err(InvalidContext)
    else match StoredRow(cs, d.revision) {
      case Err(error) => Err(error)
      case Ok(Some(row)) => if Confirms(row, d) then Ok(Replayed) else Err(DuplicateId)
      case Ok(None) =>
        if d.original.Some? && life.entry.Err? then Err(life.entry.error)
        else if d.original.None? && life.parent.Err? then Err(life.parent.error)
        else if d.original == Some(d.fields) then Ok(Unchanged)
        else if Owned(cs, d) then Ok(Proceed)
        else Err(DuplicateId)
    }
  }

  /** A new object whose identity already names one in the document. */
  ghost predicate Clashes(cs: Changes, d: EntryDraft)
  {
    || (d.original.None? && EntryIn(cs, d.entry))
    || exists x :: TakenAttribute(cs, d, x) || TakenAttachment(cs, d, x)
  }

  function KindOf(d: EntryDraft, clone: bool): Kind
  {
    if clone then Clone else if d.original.None? then Create else Save
  }

  lemma NoHolderNoRow(cs: Changes, revision: RevisionId)
    requires Holders(cs, revision) == {}
    ensures !RowIn(cs, revision)
  {
    assert forall a :: a in cs && cs[a].row.Some? && cs[a].row.value.id == revision ==> a in Holders(cs, revision);
  }

  /** No other entry owns an identity the draft would create. */
  predicate Owned(cs: Changes, d: EntryDraft)
  {
    d.fields.attachments.Keys !! AttachmentsElsewhere(cs, d.entry)
    && d.fields.attributes.Keys - OldAttributes(d) !! AttributesElsewhere(cs, d.entry)
  }

  /** A draft that may proceed and clashes with nothing is writable. */
  lemma ProceedIsWritable(cs: Changes, d: EntryDraft)
    requires ValidForm(d.fields) && Holders(cs, d.revision) == {} && Owned(cs, d) && !Clashes(cs, d)
    ensures Writable(cs, d)
  {
    NoHolderNoRow(cs, d.revision);
    forall x | x in d.fields.attributes && OldAttribute(d, x).None? ensures Unclaimed(cs, AttributeObject(d.entry, x)) {
      assert !TakenAttribute(cs, d, x);
      ClaimedElsewhere(cs, d.entry, x);
    }
    forall x | x in d.fields.attachments && OldAttachment(d, x).None? ensures Unclaimed(cs, AttachmentObject(d.entry, x)) {
      assert !TakenAttachment(cs, d, x);
      ClaimedElsewhere(cs, d.entry, x);
    }
  }

  lemma DraftIsRooted(p: Changes, d: EntryDraft)
    requires Valid(p) && (d.original.Some? ==> d.original.value == Project(p, d.entry))
    ensures Rooted(p, d)
  {
    forall x | OldAttribute(d, x).Some? ensures Written(p, AttributeObject(d.entry, x)) {
      OldAttributeIsPresent(p, d, x);
    }
    forall x | OldAttachment(d, x).Some? ensures Written(p, AttachmentObject(d.entry, x)) {
      OldAttachmentIsPresent(p, d, x);
    }
  }

  /** The entry object and its group, then the form: together the whole draft. */
  lemma DraftIsAsked(d: EntryDraft, start: map<Register, Scalar>, wanted: map<Register, Scalar>)
    requires start == if d.original.None? then map[EntryObject(d.entry) := MapObject, Home(d.entry) := HomeRef(d.group)] else map[]
    requires forall r :: Write(wanted, r) == if Outside(d, r) then Write(start, r) else DraftWrite(d, r)
    ensures Asks(wanted, d)
  {
    forall r ensures Write(wanted, r) == DraftWrite(d, r) {
      if Outside(d, r) {
        assert Write(wanted, r) == Write(start, r);
      }
    }
  }

  /** A new entry's object and group; an identity in use anywhere in the document is refused. */
  method PutEntry(tx: Transaction, cs: Changes, d: EntryDraft) returns (ok: Result<(), Error>)
    requires tx.Valid() && tx.wanted == map[] && Causal(cs)
    modifies tx
    ensures tx.Valid()
    ensures ok == if d.original.None? && EntryIn(cs, d.entry) then Err(DuplicateId) else Ok(())
    ensures ok.Ok? ==>
              tx.wanted == if d.original.None? then map[EntryObject(d.entry) := MapObject, Home(d.entry) := HomeRef(d.group)] else map[]
  {
    if d.original.None? {
      WrittenIsVisible(cs, EntryObject(d.entry));
      if Visible(cs, EntryObject(d.entry)) != {} {
        return Err(DuplicateId);
      }
      tx.Put(EntryObject(d.entry), MapObject);
      tx.Put(Home(d.entry), HomeRef(d.group));
    }
    ok := Ok(());
  }

  /**
   The transaction of a save, and the reading back of the entry. What is left to check is whether
   identities are taken: at the base while the form is applied, in the document afterwards.
   */
  method WriteDraft(cs: Changes, d: EntryDraft, now: Timestamp, kind: Kind, a: Actor) returns (result: Result<Change, Error>)
    requires Sound(cs) && Structured(cs) && d.base <= cs.Keys && DraftOk(cs, d) && a !in cs
    requires ValidForm(d.fields) && Holders(cs, d.revision) == {} && Owned(cs, d) && Confirming(d, kind)
    ensures result.Err? <==> Clashes(cs, d)
    ensures result.Err? ==> result.error == DuplicateId
    ensures result.Ok? ==> Saved(cs, cs[a := result.value], d, now, kind, a, result.value)
  {
    var p := At(cs, d.base);
    AtKeepsValid(cs, d.base);
    var start := NextCounter(p);
    var tx := new Transaction(p, start);
    var entry := PutEntry(tx, cs, d);
    if entry.Err? {
      return Err(DuplicateId);
    }
    DraftIsRooted(p, d);
    ghost var before := tx.wanted;
    var applied := ApplyForm(tx, d);
    TakenBelow(cs, d);
    if applied.Err? {
      return Err(DuplicateId);
    }
    DraftIsAsked(d, before, tx.wanted);
    WantedAtBase(cs, d, kind, tx.wanted);
    var c := Seal(tx, cs, a, d.base, Down(cs, d.base), SavedRow(d, now, kind, d.fields, {}));
    result := ReadBack(cs, d, now, kind, a, c, tx.wanted);
  }

  /** `read_entry` on the candidate: an object that was created twice refuses the save. */
  method ReadBack(cs: Changes, d: EntryDraft, ghost now: Timestamp, ghost kind: Kind, a: Actor, c: Change, ghost wanted: map<Register, Scalar>)
    returns (result: Result<Change, Error>)
    requires Valid(cs) && UniqueObjects(cs) && Pending(cs, d, now, kind, a, c, wanted) && Confirming(d, kind)
    requires ValidForm(d.fields) && Holders(cs, d.revision) == {} && Owned(cs, d) && (d.original.None? ==> !EntryIn(cs, d.entry))
    ensures result == if Clashes(cs, d) then Err(DuplicateId) else Ok(c)
    ensures result.Ok? ==> Saved(cs, cs[a := c], d, now, kind, a, c)
  {
    PendingIsValid(cs, d, now, kind, a, c, wanted);
    PendingClashes(cs, d, now, kind, a, c, wanted);
    var checked := CheckObjects(cs[a := c], d.entry);
    if checked.Err? {
      return Err(DuplicateId);
    }
    ProceedIsWritable(cs, d);
    PendingIsSaved(cs, d, now, kind, a, c, wanted);
    result := Ok(c);
  }

  /** What is taken at the base is taken in the document. */
  lemma TakenBelow(cs: Changes, d: EntryDraft)
    ensures forall x :: TakenAttribute(At(cs, d.base), d, x) ==> TakenAttribute(cs, d, x)
    ensures forall x :: TakenAttachment(At(cs, d.base), d, x) ==> TakenAttachment(cs, d, x)
  {
    var p := At(cs, d.base);
    assert forall a :: a in p ==> a in cs && p[a] == cs[a];
  }

  /** A draft that is in order at its base asks for orderly writes there. */
  lemma WantedAtBase(cs: Changes, d: EntryDraft, kind: Kind, wanted: map<Register, Scalar>)
    requires Valid(cs) && DraftOk(cs, d) && ValidForm(d.fields) && Holders(cs, d.revision) == {} && Owned(cs, d)
    requires (d.original.None? ==> !EntryIn(cs, d.entry)) && Asks(wanted, d)
    requires forall x :: !TakenAttribute(At(cs, d.base), d, x) && !TakenAttachment(At(cs, d.base), d, x)
    ensures WantedOk(At(cs, d.base), d.entry, d.revision, kind, wanted)
  {
    var p := At(cs, d.base);
    AtKeepsValid(cs, d.base);
    assert forall a :: a in p ==> a in cs && p[a] == cs[a];
    NoHolderNoRow(cs, d.revision);
    forall x | x in d.fields.attributes && OldAttribute(d, x).None? ensures Unclaimed(p, AttributeObject(d.entry, x)) {
      assert !TakenAttribute(p, d, x);
      ClaimedElsewhere(cs, d.entry, x);
      ClaimedBelow(cs, d.base, AttributeObject(d.entry, x));
    }
    forall x | x in d.fields.attachments && OldAttachment(d, x).None? ensures Unclaimed(p, AttachmentObject(d.entry, x)) {
      assert !TakenAttachment(p, d, x);
      ClaimedElsewhere(cs, d.entry, x);
      ClaimedBelow(cs, d.base, AttachmentObject(d.entry, x));
    }
    FormWantedOk(p, d, kind, wanted);
  }

  function SavedRow(d: EntryDraft, now: Timestamp, kind: Kind, form: EntryFields, changed: set<OpId>): StoredRevision
  {
    StoredRevision(d.revision, d.entry, now, kind, d.base, form, Some(d.fields), changed)
  }

  /** The change of a save, before the entry is read back. */
  ghost predicate Pending(cs: Changes, d: EntryDraft, now: Timestamp, kind: Kind, a: Actor, c: Change, wanted: map<Register, Scalar>)
  {
    && Asks(wanted, d) && WantedOk(At(cs, d.base), d.entry, d.revision, kind, wanted)
    && Seals(cs, a, c, d.base, wanted,
             SavedRow(d, now, kind, Project(At(cs, d.base)[a := c], d.entry), ChangedOperations(c.puts, a, kind)))
  }

  lemma PendingIsValid(cs: Changes, d: EntryDraft, now: Timestamp, kind: Kind, a: Actor, c: Change, wanted: map<Register, Scalar>)
    requires Valid(cs) && Pending(cs, d, now, kind, a, c, wanted)
    ensures Valid(cs[a := c]) && Valid(At(cs, d.base)) && a !in cs && Recorded(At(cs, d.base), c, wanted)
  {
    CommitKeepsValid(cs, a, c, d.base, wanted);
  }

  /** Reading the candidate back meets an object twice exactly when the draft clashes. */
  lemma PendingClashes(cs: Changes, d: EntryDraft, now: Timestamp, kind: Kind, a: Actor, c: Change, wanted: map<Register, Scalar>)
    requires Valid(cs) && UniqueObjects(cs) && Pending(cs, d, now, kind, a, c, wanted) && (d.original.None? ==> !EntryIn(cs, d.entry))
    ensures Clashes(cs, d) <==> exists r :: IsHolder(r) && r.entry == d.entry && Twice(cs[a := c], r)
  {
    PendingIsValid(cs, d, now, kind, a, c, wanted);
    ClashMeansTwice(cs, At(cs, d.base), d, kind, a, c, wanted);
  }

  lemma PendingIsSaved(cs: Changes, d: EntryDraft, now: Timestamp, kind: Kind, a: Actor, c: Change, wanted: map<Register, Scalar>)
    requires Valid(cs) && Pending(cs, d, now, kind, a, c, wanted) && Writable(cs, d) && Confirming(d, kind)
    ensures Saved(cs, cs[a := c], d, now, kind, a, c)
  {
    CommitIsOrdered(cs, a, c, d.base, wanted);
    ExtendKeepsViews(cs, a, c);
  }

  /** The draft creates an object that the document has. */
  ghost predicate Rewrites(cs: Changes, d: EntryDraft, r: Register)
  {
    IsHolder(r) && r.entry == d.entry && DraftWrite(d, r).Some? && Written(cs, r)
  }

  lemma ClashIsRewriting(cs: Changes, d: EntryDraft)
    requires d.original.None? ==> !EntryIn(cs, d.entry)
    ensures Clashes(cs, d) <==> exists r :: Rewrites(cs, d, r)
  {
    if x :| TakenAttribute(cs, d, x) {
      assert Rewrites(cs, d, AttributeObject(d.entry, x));
    }
    if x :| TakenAttachment(cs, d, x) {
      assert Rewrites(cs, d, AttachmentObject(d.entry, x));
    }
    if r :| Rewrites(cs, d, r) {
      if r.AttributeObject? {
        assert TakenAttribute(cs, d, r.attribute);
      } else {
        assert TakenAttachment(cs, d, r.attachment);
      }
    }
  }

  /** A clash that the base did not show creates an object for the second time. */
  lemma RewritingMeansTwice(cs: Changes, p: Changes, d: EntryDraft, kind: Kind, a: Actor, c: Change, wanted: map<Register, Scalar>, r: Register)
    requires UniqueObjects(cs) && Valid(p) && a !in cs && Asks(wanted, d) && Recorded(p, c, wanted)
    requires WantedOk(p, d.entry, d.revision, kind, wanted) && IsHolder(r) && r.entry == d.entry
    ensures Twice(cs[a := c], r) <==> Rewrites(cs, d, r)
  {
    assert Write(wanted, r) == DraftWrite(d, r);
    if r in wanted {
      FreshIsRecorded(p, c, d.entry, d.revision, kind, wanted, r);
    }
    TwiceAfter(cs, a, c, r);
  }

  lemma ClashMeansTwice(cs: Changes, p: Changes, d: EntryDraft, kind: Kind, a: Actor, c: Change, wanted: map<Register, Scalar>)
    requires UniqueObjects(cs) && Valid(p) && a !in cs && Asks(wanted, d) && Recorded(p, c, wanted)
    requires WantedOk(p, d.entry, d.revision, kind, wanted) && (d.original.None? ==> !EntryIn(cs, d.entry))
    ensures Clashes(cs, d) <==> exists r :: IsHolder(r) && r.entry == d.entry && Twice(cs[a := c], r)
  {
    ClashIsRewriting(cs, d);
    forall r | IsHolder(r) && r.entry == d.entry ensures Twice(cs[a := c], r) <==> Rewrites(cs, d, r) {
      RewritingMeansTwice(cs, p, d, kind, a, c, wanted, r);
    }
  }

  lemma StoredOnce(cs: Changes, a: Actor, revision: RevisionId)
    requires UniqueRows(cs) && a in cs && cs[a].row.Some? && cs[a].row.value.id == revision
    ensures StoredRow(cs, revision) == Ok(cs[a].row) && Holders(cs, revision) == {a}
  {
    assert a in Holders(cs, revision);
    forall b | b in Holders(cs, revision) ensures b == a {
      assert !SharedRow(cs, a, b);
    }
  }

  lemma SavedConfirms(cs: Changes, ds: Changes, d: EntryDraft, now: Timestamp, kind: Kind, a: Actor, c: Change)
    requires Saved(cs, ds, d, now, kind, a, c)
    ensures c.row.Some? && c.row.value.id == d.revision && Confirms(c.row.value, d) && ValidForm(d.fields)
    ensures a in ds && ds[a] == c && d.base <= cs.Keys && cs.Keys <= ds.Keys
  {
  }

  lemma StoredReplays(es: Changes, a: Actor, database: string, d: EntryDraft, life: Lifecycle)
    requires UniqueRows(es) && a in es && es[a].row.Some? && es[a].row.value.id == d.revision && Confirms(es[a].row.value, d)
    requires ValidForm(d.fields) && d.base <= es.Keys && d.database == database && life.listed
    ensures Admit(es, database, d, life) == Ok(Replayed)
  {
    StoredOnce(es, a, d.revision);
  }

  /** Replaying a saved draft, later and after any delivery, leaves everything as it is. */
  lemma SavedReplays(cs: Changes, ds: Changes, es: Changes, database: string, d: EntryDraft, life: Lifecycle,
                     now: Timestamp, kind: Kind, a: Actor, c: Change)
    requires Saved(cs, ds, d, now, kind, a, c) && (forall b :: b in ds ==> b in es && es[b] == ds[b]) && Structured(es)
    requires d.database == database && life.listed
    ensures Admit(es, database, d, life) == Ok(Replayed)
  {
    SavedConfirms(cs, ds, d, now, kind, a, c);
    StoredReplays(es, a, database, d, life);
  }
}
