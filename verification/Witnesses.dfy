/**
 Concrete runs of the document's operations that show what does not always hold: merging
 replicas of one database, and retaining every visible blob alternative.
 */
module Witnesses {
  import opened Wrappers
  import opened Operations
  import opened Entries
  import opened CausalDocument
  import opened Projection
  import opened Soundness
  import opened Structure
  import opened Drafts
  import opened Confirmations
  import opened Laws
  import opened Transactions
  import opened Runs
  import opened Saving
  import opened SavingLaws
  import opened Resolving
  import opened EntryDocument
  import opened Blobs

  const GENESIS: Changes := map["g" := Change({}, {}, map[], None, {})]
  const OPEN: Lifecycle := Lifecycle(true, Ok(()), Ok(()))

  function Form(attributes: map<AttributeId, Attribute>, attachments: map<AttachmentId, Attachment>): EntryFields
  {
    EntryFields("title", None, None, None, None, {}, None, DefaultIcon, None, None, attributes, attachments)
  }

  function NewDraft(e: EntryId, revision: RevisionId, fields: EntryFields): EntryDraft
  {
    EntryDraft("db", e, "group", revision, Heads(GENESIS), None, fields)
  }

  lemma GenesisIsWhole()
    ensures Whole(GENESIS)
  {
    InitialIsSound(State(map[0 := GENESIS], {}));
    assert 0 in State(map[0 := GENESIS], {}).replicas;
  }

  lemma GenesisIsEmpty()
    ensures forall r :: !Written(GENESIS, r)
    ensures forall x :: Holders(GENESIS, x) == {}
    ensures forall e :: AttributesElsewhere(GENESIS, e) == {} && AttachmentsElsewhere(GENESIS, e) == {}
  {
  }

  /** A first entry of a new database. */
  method Create(d: EntryDraft, a: Actor) returns (cs: Changes)
    requires d == NewDraft(d.entry, d.revision, d.fields) && ValidForm(d.fields) && a != "g"
    ensures Whole(cs) && exists c :: Saved(GENESIS, cs, d, 1, KindOf(d, false), a, c)
  {
    GenesisIsWhole();
    GenesisIsEmpty();
    var document := new Document("db", GENESIS);
    BeginEstablishes(GENESIS, d);
    assert Admit(GENESIS, "db", d, OPEN) == Ok(Proceed);
    assert !Clashes(GENESIS, d);
    var saved := document.SaveEntry(d, 1, false, OPEN, a);
    cs := document.changes;
  }

  // ----- merging may be refused

  lemma NewAttributeIsPut(cs: Changes, ds: Changes, d: EntryDraft, now: Timestamp, kind: Kind, a: Actor, c: Change, x: AttributeId)
    requires Saved(cs, ds, d, now, kind, a, c) && x in d.fields.attributes && OldAttribute(d, x).None?
    ensures AttributeObject(d.entry, x) in c.puts && ds == cs[a := c] && a !in cs
    ensures c.row.Some? && c.row.value.id == d.revision && !RowIn(cs, d.revision)
  {
    var wanted :| Asks(wanted, d) && Committed(cs, a, c, d.base, wanted);
    AskedObjectIsPut(At(cs, d.base), d, c, wanted, x);
  }

  lemma AskedObjectIsPut(p: Changes, d: EntryDraft, c: Change, wanted: map<Register, Scalar>, x: AttributeId)
    requires Asks(wanted, d) && Recorded(p, c, wanted) && x in d.fields.attributes && OldAttribute(d, x).None?
    ensures AttributeObject(d.entry, x) in c.puts
  {
    assert Write(wanted, AttributeObject(d.entry, x)) == Some(MapObject);
  }

  /**
   Two forks of one document that each create an entry with the same new attribute identity are
   both in order, and their union is not. Their rows do not clash, so the merge reports a duplicate.
   */
  lemma CreationsCollide(cs: Changes, left: Changes, right: Changes, d: EntryDraft, f: EntryDraft, now: Timestamp, later: Timestamp,
                         kind: Kind, other: Kind, a: Actor, b: Actor, c: Change, e: Change, x: AttributeId)
    requires Structured(cs) && Saved(cs, left, d, now, kind, a, c) && Saved(cs, right, f, later, other, b, e)
    requires a != b && d.entry != f.entry && d.revision != f.revision
    requires x in d.fields.attributes && OldAttribute(d, x).None? && x in f.fields.attributes && OldAttribute(f, x).None?
    ensures Structured(left) && Structured(right) && Agree(left, right)
    ensures UniqueRows(left + right) && !OneOwner(left + right)
  {
    SaveKeepsStructured(cs, left, d, now, kind, a, c);
    SaveKeepsStructured(cs, right, f, later, other, b, e);
    NewAttributeIsPut(cs, left, d, now, kind, a, c, x);
    NewAttributeIsPut(cs, right, f, later, other, b, e, x);
    TwoForks(cs, a, b, c, e);
    TwoNewRows(cs, a, b, c, e);
    TwoOwners(cs, a, b, c, e, AttributeObject(d.entry, x), AttributeObject(f.entry, x));
  }

  lemma TwoForks(cs: Changes, a: Actor, b: Actor, c: Change, e: Change)
    requires a !in cs && b !in cs && a != b
    ensures Agree(cs[a := c], cs[b := e]) && cs[a := c] + cs[b := e] == cs[a := c][b := e]
  {
  }

  lemma TwoOwners(cs: Changes, a: Actor, b: Actor, c: Change, e: Change, r: Register, q: Register)
    requires a != b && r in c.puts && q in e.puts && SameIdentity(r, q) && r.entry != q.entry
    ensures !OneOwner(cs[a := c][b := e])
  {
    assert SharedIdentity(cs[a := c][b := e], a, b, r, q);
  }

  lemma TwoNewRows(cs: Changes, a: Actor, b: Actor, c: Change, e: Change)
    requires UniqueRows(cs) && a !in cs && b !in cs && a != b && c.row.Some? && e.row.Some?
    requires !RowIn(cs, c.row.value.id) && !RowIn(cs, e.row.value.id) && c.row.value.id != e.row.value.id
    ensures UniqueRows(cs[a := c][b := e])
  {
    var u := cs[a := c][b := e];
    forall x, y ensures !SharedRow(u, x, y) {
      assert !SharedRow(cs, x, y);
    }
  }

  ghost predicate Created(cs: Changes, d: EntryDraft, a: Actor)
  {
    exists c :: Saved(GENESIS, cs, d, 1, KindOf(d, false), a, c)
  }

  lemma CreatedCollide(left: Changes, right: Changes, d: EntryDraft, f: EntryDraft, a: Actor, b: Actor, x: AttributeId)
    requires Created(left, d, a) && Created(right, f, b) && a != b && d.entry != f.entry && d.revision != f.revision
    requires d.original.None? && f.original.None? && x in d.fields.attributes && x in f.fields.attributes
    ensures Agree(left, right) && UniqueRows(left + right) && !OneOwner(left + right)
  {
    GenesisIsWhole();
    var c :| Saved(GENESIS, left, d, 1, KindOf(d, false), a, c);
    var e :| Saved(GENESIS, right, f, 1, KindOf(f, false), b, e);
    CreationsCollide(GENESIS, left, right, d, f, 1, 1, KindOf(d, false), KindOf(f, false), a, b, c, e, x);
  }

  /** A run with that outcome: both saves succeed, and the merge refuses and leaves its document as it is. */
  method CollidingReplicas() returns (left: Changes, right: Changes, merged: Result<(), Error>, after: Changes)
    ensures Whole(left) && Whole(right) && Agree(left, right) && !Structured(left + right)
    ensures merged == Err(DuplicateId) && after == left
  {
    var shared := map["shared" := Attribute("shared", "name", AttributeValue("value", true))];
    var one := NewDraft("one", "first", Form(shared, map[]));
    var two := NewDraft("two", "second", Form(shared, map[]));
    left := Create(one, "a");
    right := Create(two, "b");
    CreatedCollide(left, right, one, two, "a", "b", "shared");
    var document := new Document("db", left);
    merged := document.Merge("db", right);
    after := document.changes;
  }

  // ----- a visible blob may be lost

  /** What a save at the current heads leaves: the form is selected, and it is the new row's snapshot. */
  lemma SavedAtHeads(cs: Changes, ds: Changes, d: EntryDraft, now: Timestamp, kind: Kind, a: Actor, c: Change)
    requires Whole(cs) && DraftOk(cs, d) && d.base == Heads(cs) && Saved(cs, ds, d, now, kind, a, c)
    ensures Project(ds, d.entry) == d.fields && EntryIn(ds, d.entry)
    ensures c.row.Some? && c.row.value.snapshot == d.fields && c.purged == {}
  {
    SaveKeepsSound(cs, ds, d, now, kind, a, c);
    HeadsSeeAll(cs);
    ExtendKeepsViews(cs, a, c);
    assert Upto(ds, a) == ds;
    RowIsTrue(ds, a);
    assert RowTrue(Upto(ds, a), a);
    PutHasRowOrEntry(ds, a, d.entry);
  }

  lemma PutHasRowOrEntry(ds: Changes, a: Actor, e: EntryId)
    requires Valid(ds) && a in ds && ds[a].row.Some? && ds[a].row.value.entry == e
    ensures EntryIn(ds, e)
  {
    ViewsAreValid(ds, a);
    WrittenWithin(ds, a, EntryObject(e));
  }

  lemma RowAfter(cs: Changes, a: Actor, c: Change, x: RevisionId)
    requires a !in cs && c.row.Some? && c.purged == {}
    ensures RowIn(cs[a := c], x) <==> RowIn(cs, x) || x == c.row.value.id
    ensures PurgedIds(cs[a := c]) == PurgedIds(cs)
  {
    var ds := cs[a := c];
    assert forall b :: b in cs ==> b in ds && ds[b] == cs[b];
    assert a in ds && ds[a] == c;
    HistoryGrows(cs, a, c, c.row.value.entry);
  }

  /** Nothing is purged, nothing in the history of the entry holds the blob that will be lost, and the last revision is free. */
  ghost predicate Ready(cs: Changes, e: EntryId, lost: BlobId, last: RevisionId)
  {
    Whole(cs) && PurgedIds(cs) == {} && lost !in HistoryBlobs(cs, e, cs.Keys) && !RowIn(cs, last)
  }

  lemma ReadyAfter(cs: Changes, a: Actor, c: Change, e: EntryId, lost: BlobId, last: RevisionId)
    requires Ready(cs, e, lost, last) && Whole(cs[a := c]) && a !in cs && c.purged == {} && c.row.Some? && c.row.value.entry == e
    requires c.row.value.id != last && lost !in FormBlobs(c.row.value.snapshot)
    ensures Ready(cs[a := c], e, lost, last)
  {
    HistoryBlobsAfter(cs, a, c, e, lost);
    RowAfter(cs, a, c, last);
  }

  lemma SaveKeepsReady(cs: Changes, ds: Changes, d: EntryDraft, now: Timestamp, kind: Kind, a: Actor, c: Change, lost: BlobId, last: RevisionId)
    requires Ready(cs, d.entry, lost, last) && DraftOk(cs, d) && d.base == Heads(cs) && Saved(cs, ds, d, now, kind, a, c) && Whole(ds)
    requires lost !in FormBlobs(d.fields) && d.revision != last
    ensures Ready(ds, d.entry, lost, last) && EntryIn(ds, d.entry) && Project(ds, d.entry) == d.fields
    ensures ds == cs[a := c] && a !in cs && forall x :: RowIn(ds, x) ==> RowIn(cs, x) || x == d.revision
  {
    SavedAtHeads(cs, ds, d, now, kind, a, c);
    ReadyAfter(cs, a, c, d.entry, lost, last);
    forall x | RowIn(ds, x) ensures RowIn(cs, x) || x == d.revision {
      RowAfter(cs, a, c, x);
    }
  }

  /** A form without attributes and attachments takes no identity. */
  predicate Bare(fields: EntryFields)
  {
    ValidForm(fields) && fields.attributes == map[] && fields.attachments == map[] && !fields.icon.Image?
  }

  lemma BareIsAdmitted(cs: Changes, d: EntryDraft)
    requires d.database == "db" && d.base <= cs.Keys && !RowIn(cs, d.revision) && Bare(d.fields)
    requires d.original.Some? && d.original.value != d.fields
    ensures Writes(cs, "db", d, OPEN)
  {
  }

  lemma TypingKeepsDraft(cs: Changes, d: EntryDraft, fields: EntryFields)
    requires DraftOk(cs, d)
    ensures DraftOk(cs, d.(fields := fields))
  {
  }

  /** A bare form saved at the current heads. */
  method SaveBare(cs: Changes, e: EntryId, fields: EntryFields, revision: RevisionId, a: Actor) returns (ds: Changes, ghost d: EntryDraft)
    requires Whole(cs) && EntryIn(cs, e) && Project(cs, e) != fields && Bare(fields) && !RowIn(cs, revision) && a !in cs
    ensures Whole(ds) && DraftOk(cs, d) && d.base == Heads(cs) && d.entry == e && d.revision == revision && d.fields == fields
    ensures exists c :: Saved(cs, ds, d, 2, KindOf(d, false), a, c)
  {
    var document := new Document("db", cs);
    var begun := document.BeginEditEntry(e, "group", revision, Ok(()));
    var draft := begun.value.(fields := fields);
    TypingKeepsDraft(cs, begun.value, fields);
    BareIsAdmitted(cs, draft);
    var saved := document.SaveEntry(draft, 2, false, OPEN, a);
    ds, d := document.changes, draft;
  }

  lemma BareHoldsNothing(ds: Changes, e: EntryId, x: AttachmentId, fields: EntryFields, lost: BlobId, last: RevisionId)
    requires Ready(ds, e, lost, last) && Project(ds, e) == fields && Bare(fields)
    ensures lost !in Retained(ds, e) && !Present(ds, e, AttachmentPresence(x))
  {
    AttachmentKeys(ds, e, x);
    assert AttachmentsOf(ds, e) == fields.attachments;
    assert FormBlobs(fields) == {};
  }

  /** Deleting the attachments of an entry: nothing holds the blob, and the objects remain. */
  lemma AfterDeletion(cs: Changes, ds: Changes, d: EntryDraft, a: Actor, x: AttachmentId, lost: BlobId, last: RevisionId)
    requires Ready(cs, d.entry, lost, last) && Whole(ds) && DraftOk(cs, d) && d.base == Heads(cs) && Bare(d.fields) && d.revision != last
    requires (exists c :: Saved(cs, ds, d, 2, KindOf(d, false), a, c)) && Written(cs, AttachmentObject(d.entry, x))
    ensures Ready(ds, d.entry, lost, last) && EntryIn(ds, d.entry) && Written(ds, AttachmentObject(d.entry, x))
    ensures lost !in Retained(ds, d.entry) && !Present(ds, d.entry, AttachmentPresence(x))
    ensures ds.Keys == cs.Keys + {a}
  {
    var c :| Saved(cs, ds, d, 2, KindOf(d, false), a, c);
    assert FormBlobs(d.fields) == {};
    SaveKeepsReady(cs, ds, d, 2, KindOf(d, false), a, c, lost, last);
    BareHoldsNothing(ds, d.entry, x, d.fields, lost, last);
    WrittenAfter(cs, a, c, AttachmentObject(d.entry, x));
  }

  /** One field resolved at the current heads. */
  method ResolveOne(ds: Changes, e: EntryId, x: AttachmentId, blob: BlobId, revision: RevisionId, a: Actor) returns (cs: Changes)
    requires Whole(ds) && EntryIn(ds, e) && Written(ds, AttachmentObject(e, x)) && !RowIn(ds, revision) && a !in ds
    ensures Whole(cs)
    ensures exists c :: Confirmed(ds, cs, Confirmation(e, revision, Heads(ds), Resolve, map[AttachmentBlob(x) := BlobValue(blob)], None, {}), 3, a, c)
  {
    HeadsSeeAll(ds);
    HeadsExist(ds, e);
    var document := new Document("db", ds);
    var fields := [Resolution(AttachmentBlob(x), BlobValue(blob))];
    OneValue(AttachmentBlob(x), BlobValue(blob));
    var resolved := document.ResolveFields("db", e, Heads(ds), fields, 3, revision, Ok(()), a);
    cs := document.changes;
  }

  lemma HeadsExist(ds: Changes, e: EntryId)
    requires Causal(ds) && EntryIn(ds, e)
    ensures Heads(ds) != {}
  {
    var a :| a in ds && EntryObject(e) in ds[a].puts;
    var h := HeadAbove(ds, a);
  }

  lemma OneValue(f: EntryField, value: FieldValue)
    ensures Values([Resolution(f, value)]) == map[f := value]
  {
    assert [Resolution(f, value)][..0] == [];
  }

  lemma AfterResolution(ds: Changes, cs: Changes, e: EntryId, x: AttachmentId, lost: BlobId, last: RevisionId, a: Actor)
    requires Ready(ds, e, lost, last) && !Present(ds, e, AttachmentPresence(x)) && lost !in Retained(ds, e)
    requires exists c :: Confirmed(ds, cs, Confirmation(e, last, Heads(ds), Resolve, map[AttachmentBlob(x) := BlobValue(lost)], None, {}), 3, a, c)
    ensures Chosen(cs, Field(e, AttachmentBlob(x))) == Some(Data(BlobValue(lost))) && lost !in Retained(cs, e)
  {
    var q := Confirmation(e, last, Heads(ds), Resolve, map[AttachmentBlob(x) := BlobValue(lost)], None, {});
    var c :| Confirmed(ds, cs, q, 3, a, c);
    ResolvedBlobIsRetained(ds, cs, q, x, lost, 3, a, c);
  }

  lemma GenesisIsReady(e: EntryId, lost: BlobId, last: RevisionId)
    ensures Ready(GENESIS, e, lost, last) && forall x :: !RowIn(GENESIS, x)
  {
    GenesisIsWhole();
  }

  /** What the creation of an entry leaves, over any document without rows. */
  lemma AfterCreation(base: Changes, cs: Changes, d: EntryDraft, kind: Kind, a: Actor, lost: BlobId, last: RevisionId)
    requires Ready(base, d.entry, lost, last) && (forall x :: !RowIn(base, x)) && Whole(cs)
    requires d.original.None? && d.base == Heads(base) && exists c :: Saved(base, cs, d, 1, kind, a, c)
    requires lost !in FormBlobs(d.fields) && d.revision != last
    ensures Ready(cs, d.entry, lost, last) && EntryIn(cs, d.entry) && Project(cs, d.entry) == d.fields
    ensures forall x :: RowIn(cs, x) ==> x == d.revision
    ensures forall b :: b in cs ==> b in base || b == a
  {
    var c :| Saved(base, cs, d, 1, kind, a, c);
    BeginEstablishes(base, d);
    SaveKeepsReady(base, cs, d, 1, kind, a, c, lost, last);
  }

  lemma ProjectedIsWritten(cs: Changes, e: EntryId, x: AttachmentId, fields: EntryFields)
    requires Project(cs, e) == fields && x in fields.attachments
    ensures Written(cs, AttachmentObject(e, x))
  {
    assert x in AttachmentsOf(cs, e);
    ObjectIds(cs, e, x);
  }

  /** Create an entry with an attachment, delete the attachment, and resolve its blob. */
  method Strand(draft: EntryDraft, emptied: EntryFields, x: AttachmentId, lost: BlobId, deletion: RevisionId, last: RevisionId, a: Actor, b: Actor, c: Actor)
    returns (cs: Changes)
    requires draft == NewDraft(draft.entry, draft.revision, draft.fields) && ValidForm(draft.fields) && x in draft.fields.attachments
    requires lost !in FormBlobs(draft.fields) && Bare(emptied) && draft.fields != emptied
    requires draft.revision != deletion && draft.revision != last && deletion != last
    requires a !in GENESIS && b !in GENESIS && c !in GENESIS && a != b && a != c && b != c && a != "g"
    ensures Whole(cs) && Chosen(cs, Field(draft.entry, AttachmentBlob(x))) == Some(Data(BlobValue(lost)))
    ensures lost !in Retained(cs, draft.entry)
  {
    var created := Create(draft, a);
    GenesisIsReady(draft.entry, lost, last);
    AfterCreation(GENESIS, created, draft, KindOf(draft, false), a, lost, last);
    ProjectedIsWritten(created, draft.entry, x, draft.fields);
    var deleted, deleting := SaveBare(created, draft.entry, emptied, deletion, b);
    AfterDeletion(created, deleted, deleting, b, x, lost, last);
    cs := ResolveOne(deleted, draft.entry, x, lost, last, c);
    AfterResolution(deleted, cs, draft.entry, x, lost, last, c);
  }

  /** A sound document with a selected blob alternative that is not retained. */
  method StrandedBlob() returns (cs: Changes)
    ensures Whole(cs) && Chosen(cs, Field("one", AttachmentBlob("file"))) == Some(Data(BlobValue("lost")))
    ensures "lost" !in Retained(cs, "one")
  {
    var filed := Form(map[], map["file" := Attachment("file", "name", "kept")]);
    var emptied := Form(map[], map[]);
    assert "file" in filed.attachments && "file" !in emptied.attachments;
    cs := Strand(NewDraft("one", "creation", filed), emptied, "file", "lost", "deletion", "resolution", "a", "b", "c");
  }
}
