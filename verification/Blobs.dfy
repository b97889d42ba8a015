/**
 Which blobs a document still needs, from taypeer-document/src/binary.rs: the selected form of
 every entry and the snapshot of every confirmation that is not purged.
 */
module Blobs {
  import opened Wrappers
  import opened Operations
  import opened Entries
  import opened CausalDocument
  import opened Selection
  import opened Projection
  import opened Soundness
  import opened Drafts
  import opened Confirmations
  import opened Laws
  import opened Validating
  import Reading

  /** The attachment blobs of a form. */
  function AttachmentBlobs(fields: EntryFields): set<BlobId>
  {
    set x | x in fields.attachments :: fields.attachments[x].blob
  }

  /** The attachment blobs of one row, if it is about the entry and not purged. */
  function RowAttachments(cs: Changes, e: EntryId, a: Actor): set<BlobId>
    requires a in cs
  {
    if cs[a].row.Some? && cs[a].row.value.entry == e && cs[a].row.value.id !in PurgedIds(cs)
    then AttachmentBlobs(cs[a].row.value.snapshot) else {}
  }

  function HistoryAttachments(cs: Changes, e: EntryId, seen: set<Actor>): set<BlobId>
  {
    set a, x | a in seen && a in cs && x in RowAttachments(cs, e, a) :: x
  }

  /** The attachment blobs of one entry: of the selected projection and of every unpurged row. */
  ghost function Attached(cs: Changes, e: EntryId): set<BlobId>
  {
    AttachmentBlobs(Project(cs, e)) + HistoryAttachments(cs, e, cs.Keys)
  }

  class BlobReferences {
    var attachments: set<BlobId>
    var retained: set<BlobId>

    constructor ()
      ensures attachments == {} && retained == {}
    {
      attachments, retained := {}, {};
    }

    /** One snapshot: every blob it names is retained, and its attachments count towards the quota. */
    method Snapshot(fields: EntryFields)
      modifies this
      ensures retained == old(retained) + FormBlobs(fields)
      ensures attachments == old(attachments) + AttachmentBlobs(fields)
    {
      if fields.icon.Image? {
        retained := retained + {fields.icon.blob};
      }
      var pending := fields.attachments.Keys;
      while pending != {}
        invariant pending <= fields.attachments.Keys
        invariant retained == old(retained) + IconBlobs(fields.icon)
                              + set x | x in fields.attachments && x !in pending :: fields.attachments[x].blob
        invariant attachments == old(attachments) + set x | x in fields.attachments && x !in pending :: fields.attachments[x].blob
      {
        var x :| x in pending;
        retained := retained + {fields.attachments[x].blob};
        attachments := attachments + {fields.attachments[x].blob};
        pending := pending - {x};
      }
    }

    /** One row, if it is about the entry and not purged. */
    method Row(cs: Changes, e: EntryId, a: Actor)
      requires a in cs
      modifies this
      ensures retained == old(retained) + RowBlobs(cs, e, a)
      ensures attachments == old(attachments) + RowAttachments(cs, e, a)
    {
      if cs[a].row.Some? && cs[a].row.value.entry == e && cs[a].row.value.id !in PurgedIds(cs) {
        Snapshot(cs[a].row.value.snapshot);
      }
    }

    /** One entry: its selected form, and each of its rows that is not purged. */
    method Entry(cs: Changes, e: EntryId)
      requires Valid(cs) && EntryIn(cs, e)
      modifies this
      ensures retained == old(retained) + Retained(cs, e)
      ensures attachments == old(attachments) + Attached(cs, e)
    {
      ghost var first, second := retained, attachments;
      var fields := Reading.ReadEntry(cs, e);
      Snapshot(fields.value);
      Rows(cs, e);
      Associates(first, FormBlobs(Project(cs, e)), HistoryBlobs(cs, e, cs.Keys));
      Associates(second, AttachmentBlobs(Project(cs, e)), HistoryAttachments(cs, e, cs.Keys));
    }

    /** Both sets once the entries in `seen` have been added. */
    ghost predicate Collected(cs: Changes, seen: set<EntryId>, start: set<BlobId>, others: set<BlobId>)
      reads this
    {
      retained == start + AllRetained(cs, seen) && attachments == others + AllAttached(cs, seen)
    }

    method NextEntry(cs: Changes, e: EntryId, ghost seen: set<EntryId>, ghost start: set<BlobId>, ghost others: set<BlobId>)
      requires Valid(cs) && e in EntriesOf(cs) && Collected(cs, seen, start, others)
      modifies this
      ensures Collected(cs, seen + {e}, start, others)
    {
      EntriesExist(cs, e);
      AllRetainedGrow(cs, seen, e, start);
      AllAttachedGrow(cs, seen, e, others);
      Entry(cs, e);
    }

    /** Every row of the entry. */
    method Rows(cs: Changes, e: EntryId)
      modifies this
      ensures retained == old(retained) + HistoryBlobs(cs, e, cs.Keys)
      ensures attachments == old(attachments) + HistoryAttachments(cs, e, cs.Keys)
    {
      var pending := cs.Keys;
      ghost var seen: set<Actor> := {};
      NoRows(cs, e, retained);
      NoRows(cs, e, attachments);
      while pending != {}
        invariant pending <= cs.Keys && seen == cs.Keys - pending && retained == old(retained) + HistoryBlobs(cs, e, seen)
        invariant attachments == old(attachments) + HistoryAttachments(cs, e, seen)
      {
        var a :| a in pending;
        HistoryBlobsGrow(cs, e, seen, a, old(retained));
        HistoryAttachmentsGrow(cs, e, seen, a, old(attachments));
        Row(cs, e, a);
        pending := pending - {a};
        seen := seen + {a};
      }
      assert seen == cs.Keys;
    }

    /** `blob_references` over the entries whose lifetime is not purged. */
    method Document(cs: Changes, purged: set<EntryId>)
      requires Valid(cs)
      modifies this
      ensures retained == old(retained) + AllRetained(cs, EntriesOf(cs) - purged)
      ensures attachments == old(attachments) + AllAttached(cs, EntriesOf(cs) - purged)
    {
      var entries := EntriesOf(cs) - purged;
      Entries(cs, entries);
    }

    method Entries(cs: Changes, entries: set<EntryId>)
      requires Valid(cs) && entries <= EntriesOf(cs)
      modifies this
      ensures Collected(cs, entries, old(retained), old(attachments))
    {
      var pending := entries;
      NothingCollected(cs, entries - pending);
      while pending != {}
        invariant pending <= entries && Collected(cs, entries - pending, old(retained), old(attachments))
      {
        var e :| e in pending;
        NextEntry(cs, e, entries - pending, old(retained), old(attachments));
        OneLess(entries, pending, e);
        pending := pending - {e};
      }
      assert entries - pending == entries;
    }

    lemma NothingCollected(cs: Changes, none: set<EntryId>)
      requires none == {}
      ensures Collected(cs, none, retained, attachments)
    {
      NothingRetained(cs, retained);
      NothingRetained(cs, attachments);
    }
  }

  lemma OneLess(entries: set<EntryId>, pending: set<EntryId>, e: EntryId)
    requires e in pending && pending <= entries
    ensures entries - pending + {e} == entries - (pending - {e})
  {
  }

  lemma NoRows(cs: Changes, e: EntryId, start: set<BlobId>)
    ensures start == start + HistoryBlobs(cs, e, {}) && start == start + HistoryAttachments(cs, e, {})
  {
  }

  lemma HistoryBlobsGrow(cs: Changes, e: EntryId, seen: set<Actor>, a: Actor, start: set<BlobId>)
    requires a in cs
    ensures start + HistoryBlobs(cs, e, seen) + RowBlobs(cs, e, a) == start + HistoryBlobs(cs, e, seen + {a})
  {
    assert HistoryBlobs(cs, e, seen + {a}) == HistoryBlobs(cs, e, seen) + RowBlobs(cs, e, a);
  }

  lemma HistoryAttachmentsGrow(cs: Changes, e: EntryId, seen: set<Actor>, a: Actor, start: set<BlobId>)
    requires a in cs
    ensures start + HistoryAttachments(cs, e, seen) + RowAttachments(cs, e, a) == start + HistoryAttachments(cs, e, seen + {a})
  {
    assert HistoryAttachments(cs, e, seen + {a}) == HistoryAttachments(cs, e, seen) + RowAttachments(cs, e, a);
  }

  ghost function UnionOf(entries: set<EntryId>, held: EntryId -> set<BlobId>): set<BlobId>
  {
    set e, x | e in entries && x in held(e) :: x
  }

  lemma UnionGrows(entries: set<EntryId>, held: EntryId -> set<BlobId>, e: EntryId)
    ensures UnionOf(entries + {e}, held) == UnionOf(entries, held) + held(e)
  {
  }

  /** Everything the given entries retain. */
  ghost function AllRetained(cs: Changes, entries: set<EntryId>): set<BlobId>
  {
    UnionOf(entries, e => Retained(cs, e))
  }

  /** Every attachment blob of the given entries. */
  ghost function AllAttached(cs: Changes, entries: set<EntryId>): set<BlobId>
  {
    UnionOf(entries, e => Attached(cs, e))
  }

  ghost predicate Attaches(form: EntryFields, blob: BlobId)
  {
    exists x :: x in form.attachments && form.attachments[x].blob == blob
  }

  /** An attachment names the blob, of the projection or of the form of a confirmation that is not purged. */
  ghost predicate MentionsAttached(cs: Changes, e: EntryId, blob: BlobId)
  {
    Attaches(Project(cs, e), blob) || exists a :: Remembers(cs, e, a) && Attaches(cs[a].row.value.snapshot, blob)
  }

  /** What counts towards the quota of one entry: no images. */
  lemma AttachedMeans(cs: Changes, e: EntryId, blob: BlobId)
    ensures blob in Attached(cs, e) <==> MentionsAttached(cs, e, blob)
  {
    if blob in HistoryAttachments(cs, e, cs.Keys) {
      var a :| a in cs && blob in RowAttachments(cs, e, a);
      assert Remembers(cs, e, a);
    }
    if a :| Remembers(cs, e, a) && Attaches(cs[a].row.value.snapshot, blob) {
      assert cs[a].row.value.id !in PurgedIds(cs);
      assert blob in RowAttachments(cs, e, a);
    }
  }

  lemma UnionMeans(entries: set<EntryId>, held: EntryId -> set<BlobId>, mentions: EntryId -> bool, blob: BlobId)
    requires forall e :: blob in held(e) <==> mentions(e)
    ensures blob in UnionOf(entries, held) <==> exists e :: e in entries && mentions(e)
  {
  }

  /** A blob of a document is retained exactly when one of the entries mentions it. */
  lemma DocumentRetains(cs: Changes, entries: set<EntryId>, blob: BlobId)
    ensures blob in AllRetained(cs, entries) <==> exists e :: e in entries && Mentions(cs, e, blob)
  {
    var held, mentions := e => Retained(cs, e), e => Mentions(cs, e, blob);
    forall e ensures blob in held(e) <==> mentions(e) {
      RetainedMeans(cs, e, blob);
    }
    UnionMeans(entries, held, mentions, blob);
    assert forall e :: mentions(e) == Mentions(cs, e, blob);
  }

  /** A blob counts towards the quota exactly when an attachment of one of the entries names it. */
  lemma DocumentAttaches(cs: Changes, entries: set<EntryId>, blob: BlobId)
    ensures blob in AllAttached(cs, entries) <==> exists e :: e in entries && MentionsAttached(cs, e, blob)
  {
    var held, mentions := e => Attached(cs, e), e => MentionsAttached(cs, e, blob);
    forall e ensures blob in held(e) <==> mentions(e) {
      AttachedMeans(cs, e, blob);
    }
    UnionMeans(entries, held, mentions, blob);
    assert forall e :: mentions(e) == MentionsAttached(cs, e, blob);
  }

  lemma NothingRetained(cs: Changes, start: set<BlobId>)
    ensures start == start + AllRetained(cs, {}) && start == start + AllAttached(cs, {})
  {
  }

  lemma AllAttachedGrow(cs: Changes, entries: set<EntryId>, e: EntryId, start: set<BlobId>)
    ensures start + AllAttached(cs, entries) + Attached(cs, e) == start + AllAttached(cs, entries + {e})
  {
    var held := x => Attached(cs, x);
    UnionGrows(entries, held, e);
    Associates(start, AllAttached(cs, entries), Attached(cs, e));
  }

  lemma AllRetainedGrow(cs: Changes, entries: set<EntryId>, e: EntryId, start: set<BlobId>)
    ensures start + AllRetained(cs, entries) + Retained(cs, e) == start + AllRetained(cs, entries + {e})
  {
    var held := x => Retained(cs, x);
    UnionGrows(entries, held, e);
    Associates(start, AllRetained(cs, entries), Retained(cs, e));
  }

  lemma Associates(x: set<BlobId>, y: set<BlobId>, z: set<BlobId>)
    ensures x + y + z == x + (y + z)
  {
  }

  // ----- alternatives that a resolution wrote

  /** Nothing but the attachment itself holds the blob: no selected value, no other row, nothing else of its own row. */
  ghost predicate HeldOnlyBy(cs: Changes, e: EntryId, x: AttachmentId, b: Actor, blob: BlobId)
    requires b in cs && cs[b].row.Some?
  {
    var snapshot := cs[b].row.value.snapshot;
    && blob !in FormBlobs(Project(cs, e))
    && (forall a :: a in cs && a != b ==> blob !in RowBlobs(cs, e, a))
    && blob !in IconBlobs(snapshot.icon)
    && (forall y :: y in snapshot.attachments && y != x ==> snapshot.attachments[y].blob != blob)
  }

  lemma RetainedByRow(cs: Changes, e: EntryId, b: Actor, blob: BlobId)
    requires b in cs && blob !in FormBlobs(Project(cs, e)) && forall a :: a in cs && a != b ==> blob !in RowBlobs(cs, e, a)
    ensures blob in Retained(cs, e) <==> blob in RowBlobs(cs, e, b)
  {
    if blob in RowBlobs(cs, e, b) {
      assert blob in HistoryBlobs(cs, e, cs.Keys);
    }
  }

  lemma AbsentFromSnapshot(cs: Changes, e: EntryId, x: AttachmentId, b: Actor)
    requires Sound(cs) && b in cs && cs[b].row.Some? && cs[b].row.value.entry == e
    ensures x in cs[b].row.value.snapshot.attachments <==> Present(Upto(cs, b), e, AttachmentPresence(x))
  {
    ViewIsValid(cs, b);
    RowIsTrue(cs, b);
    AttachmentKeys(Upto(cs, b), e, x);
  }

  /**
   Retention, exactly: a visible blob alternative with an unpurged row, held by nothing else, is
   retained exactly when its attachment was present in the transaction that wrote it. For drafts,
   edits and restorations it always was; a resolution may write it while it is absent.
   */
  lemma AlternativeIsRetained(cs: Changes, e: EntryId, x: AttachmentId, b: Actor)
    requires Sound(cs) && b in Visible(cs, Field(e, AttachmentBlob(x)))
    requires cs[b].row.Some? ==> cs[b].row.value.id !in PurgedIds(cs)
    requires cs[b].row.Some? ==> HeldOnlyBy(cs, e, x, b, BlobOf(Decoded(cs[b].puts[Field(e, AttachmentBlob(x))].scalar)))
    ensures BlobOf(Decoded(cs[b].puts[Field(e, AttachmentBlob(x))].scalar)) in Retained(cs, e)
            <==> Present(Upto(cs, b), e, AttachmentPresence(x))
  {
    var blob := BlobOf(Decoded(cs[b].puts[Field(e, AttachmentBlob(x))].scalar));
    PutHasRow(cs, b, Field(e, AttachmentBlob(x)));
    RetainedByRow(cs, e, b, blob);
    SnapshotHolds(cs, e, x, b, blob);
  }

  lemma SnapshotHolds(cs: Changes, e: EntryId, x: AttachmentId, b: Actor, blob: BlobId)
    requires Sound(cs) && b in cs && Field(e, AttachmentBlob(x)) in cs[b].puts && cs[b].row.Some? && cs[b].row.value.entry == e
    requires blob == BlobOf(Decoded(cs[b].puts[Field(e, AttachmentBlob(x))].scalar)) && cs[b].row.value.id !in PurgedIds(cs)
    requires blob !in IconBlobs(cs[b].row.value.snapshot.icon)
    requires forall y :: y in cs[b].row.value.snapshot.attachments && y != x ==> cs[b].row.value.snapshot.attachments[y].blob != blob
    ensures blob in RowBlobs(cs, e, b) <==> Present(Upto(cs, b), e, AttachmentPresence(x))
  {
    AbsentFromSnapshot(cs, e, x, b);
    if Present(Upto(cs, b), e, AttachmentPresence(x)) {
      SnapshotHoldsBlob(cs, e, x, b);
    }
  }

  // ----- resolutions

  /** The confirmation that resolves the blob of one attachment at the current heads. */
  ghost predicate ResolvesBlob(cs: Changes, q: Confirmation, x: AttachmentId, blob: BlobId)
  {
    && q.kind == Resolve && q.base == Heads(cs) && q.created == {} && q.home == None
    && q.values == map[AttachmentBlob(x) := BlobValue(blob)]
  }

  /** The choice for that blob changes, and no other. */
  ghost predicate ChoosesBlob(cs: Changes, ds: Changes, e: EntryId, x: AttachmentId, blob: BlobId)
  {
    forall r :: Chosen(ds, r) == if r == Field(e, AttachmentBlob(x)) then Some(Data(BlobValue(blob))) else Chosen(cs, r)
  }

  lemma BlobIsChosen(cs: Changes, q: Confirmation, x: AttachmentId, blob: BlobId, a: Actor, c: Change, wanted: map<Register, Scalar>)
    requires Causal(cs) && a !in cs && ResolvesBlob(cs, q, x, blob) && ConfirmAsks(wanted, q) && Recorded(cs, c, wanted)
    ensures ChoosesBlob(cs, cs[a := c], q.entry, x, blob)
  {
    var ds := cs[a := c];
    forall r
      ensures Chosen(ds, r) == if r == Field(q.entry, AttachmentBlob(x)) then Some(Data(BlobValue(blob))) else Chosen(cs, r)
    {
      BlobIsWritten(q, x, blob, wanted, r);
      CommitChooses(cs, a, c, wanted, r);
    }
  }

  lemma BlobIsWritten(q: Confirmation, x: AttachmentId, blob: BlobId, wanted: map<Register, Scalar>, r: Register)
    requires ConfirmAsks(wanted, q) && q.created == {} && q.home == None && q.values == map[AttachmentBlob(x) := BlobValue(blob)]
    ensures r in wanted <==> r == Field(q.entry, AttachmentBlob(x))
    ensures r in wanted ==> wanted[r] == Data(BlobValue(blob))
  {
    assert Write(wanted, r) == ConfirmWrite(q, r);
  }

  lemma ShownAttachment(v: Changes, e: EntryId, y: AttachmentId)
    requires Valid(v)
    ensures y in AttachmentsOf(v, e) <==> Alive(Chosen(v, Field(e, AttachmentPresence(y))))
    ensures y in AttachmentsOf(v, e) ==> Chosen(v, Field(e, AttachmentBlob(y))) == Some(Data(BlobValue(AttachmentsOf(v, e)[y].blob)))
  {
    ProjectAttachment(v, e, y);
  }

  lemma AttachmentAfter(cs: Changes, ds: Changes, e: EntryId, x: AttachmentId, blob: BlobId, y: AttachmentId)
    requires Valid(cs) && Valid(ds) && ChoosesBlob(cs, ds, e, x, blob)
    ensures y in AttachmentsOf(ds, e) <==> y in AttachmentsOf(cs, e)
    ensures y in AttachmentsOf(cs, e) ==> AttachmentsOf(ds, e)[y].blob == if y == x then blob else AttachmentsOf(cs, e)[y].blob
  {
    ShownAttachment(cs, e, y);
    ShownAttachment(ds, e, y);
    assert Chosen(ds, Field(e, AttachmentPresence(y))) == Chosen(cs, Field(e, AttachmentPresence(y)));
    assert y != x ==> Chosen(ds, Field(e, AttachmentBlob(y))) == Chosen(cs, Field(e, AttachmentBlob(y)));
  }

  /** A form with the attachment's blob replaced refers to the new blob and at most the old ones. */
  lemma BlobsAfter(cs: Changes, ds: Changes, e: EntryId, x: AttachmentId, blob: BlobId)
    requires Valid(cs) && Valid(ds) && ChoosesBlob(cs, ds, e, x, blob)
    ensures FormBlobs(Project(ds, e)) <= FormBlobs(Project(cs, e)) + {blob}
    ensures Present(cs, e, AttachmentPresence(x)) ==> blob in FormBlobs(Project(ds, e))
    ensures blob in FormBlobs(Project(ds, e)) ==> Present(cs, e, AttachmentPresence(x)) || blob in FormBlobs(Project(cs, e))
  {
    assert Chosen(ds, Field(e, Icon)) == Chosen(cs, Field(e, Icon));
    AttachmentKeys(cs, e, x);
    forall y
      ensures y in AttachmentsOf(ds, e) <==> y in AttachmentsOf(cs, e)
      ensures y in AttachmentsOf(cs, e) ==> AttachmentsOf(ds, e)[y].blob == if y == x then blob else AttachmentsOf(cs, e)[y].blob
    {
      AttachmentAfter(cs, ds, e, x, blob, y);
    }
    FormBlobsAfter(Project(cs, e), Project(ds, e), x, blob);
  }

  lemma FormBlobsAfter(before: EntryFields, after: EntryFields, x: AttachmentId, blob: BlobId)
    requires after.icon == before.icon
    requires forall y :: y in after.attachments <==> y in before.attachments
    requires forall y :: y in before.attachments ==> after.attachments[y].blob == if y == x then blob else before.attachments[y].blob
    ensures FormBlobs(after) <= FormBlobs(before) + {blob}
    ensures x in before.attachments ==> blob in FormBlobs(after)
    ensures blob in FormBlobs(after) ==> x in before.attachments || blob in FormBlobs(before)
  {
    if x in before.attachments {
      assert x in after.attachments && after.attachments[x].blob == blob;
    }
  }

  /** The history after a confirmation refers to what it did and to the new snapshot. */
  lemma HistoryBlobsAfter(cs: Changes, a: Actor, c: Change, e: EntryId, x: BlobId)
    requires a !in cs && c.purged == {} && c.row.Some? && c.row.value.entry == e && c.row.value.id !in PurgedIds(cs)
    ensures x in HistoryBlobs(cs[a := c], e, cs[a := c].Keys) <==>
            x in HistoryBlobs(cs, e, cs.Keys) || x in FormBlobs(c.row.value.snapshot)
  {
    var ds := cs[a := c];
    HistoryGrows(cs, a, c, e);
    assert PurgedIds(ds) == PurgedIds(cs);
    assert RowBlobs(ds, e, a) == FormBlobs(c.row.value.snapshot);
    forall b | b in cs ensures RowBlobs(ds, e, b) == RowBlobs(cs, e, b) {
    }
    if x in HistoryBlobs(ds, e, ds.Keys) {
      var b :| b in ds && x in RowBlobs(ds, e, b);
      assert b != a ==> x in RowBlobs(cs, e, b);
    }
    if x in HistoryBlobs(cs, e, cs.Keys) {
      var b :| b in cs && x in RowBlobs(cs, e, b);
      assert x in RowBlobs(ds, e, b);
    }
  }

  /**
   When a resolved blob is retained: the alternative becomes visible in any case, but a blob that
   nothing else holds is retained exactly when the attachment is present.
   */
  lemma ResolvedBlobIsRetained(cs: Changes, ds: Changes, q: Confirmation, x: AttachmentId, blob: BlobId, now: Timestamp, a: Actor, c: Change)
    requires Valid(cs) && Faithful(cs) && ResolvesBlob(cs, q, x, blob) && Confirmed(cs, ds, q, now, a, c)
    requires q.revision !in PurgedIds(cs) && blob !in Retained(cs, q.entry)
    ensures Chosen(ds, Field(q.entry, AttachmentBlob(x))) == Some(Data(BlobValue(blob)))
    ensures blob in Retained(ds, q.entry) <==> Present(cs, q.entry, AttachmentPresence(x))
  {
    ConfirmKeepsSound(cs, ds, q, now, a, c);
    ConfirmedChooses(cs, ds, q, x, blob, now, a, c);
    RetainedWhenPresent(cs, a, c, q.entry, x, blob);
  }

  lemma RetainedWhenPresent(cs: Changes, a: Actor, c: Change, e: EntryId, x: AttachmentId, blob: BlobId)
    requires Valid(cs) && Valid(cs[a := c]) && ChoosesBlob(cs, cs[a := c], e, x, blob)
    requires a !in cs && c.purged == {} && c.row.Some? && c.row.value.entry == e && c.row.value.id !in PurgedIds(cs)
    requires c.row.value.snapshot == Project(cs[a := c], e) && blob !in Retained(cs, e)
    ensures blob in Retained(cs[a := c], e) <==> Present(cs, e, AttachmentPresence(x))
  {
    BlobsAfter(cs, cs[a := c], e, x, blob);
    NewlyRetained(cs, a, c, e, blob);
  }

  /** What nothing held before is retained after a confirmation exactly when its snapshot holds it. */
  lemma NewlyRetained(cs: Changes, a: Actor, c: Change, e: EntryId, blob: BlobId)
    requires a !in cs && c.purged == {} && c.row.Some? && c.row.value.entry == e && c.row.value.id !in PurgedIds(cs)
    requires c.row.value.snapshot == Project(cs[a := c], e) && blob !in Retained(cs, e)
    ensures blob in Retained(cs[a := c], e) <==> blob in FormBlobs(Project(cs[a := c], e))
    ensures blob !in FormBlobs(Project(cs, e))
  {
    HistoryBlobsAfter(cs, a, c, e, blob);
  }

  lemma ConfirmedChooses(cs: Changes, ds: Changes, q: Confirmation, x: AttachmentId, blob: BlobId, now: Timestamp, a: Actor, c: Change)
    requires Valid(cs) && ResolvesBlob(cs, q, x, blob) && Confirmed(cs, ds, q, now, a, c)
    ensures ChoosesBlob(cs, ds, q.entry, x, blob)
    ensures c.row.Some? && c.row.value.snapshot == Project(ds, q.entry)
  {
    HeadsSeeAll(cs);
    var wanted :| ConfirmAsks(wanted, q) && Committed(cs, a, c, q.base, wanted);
    BlobIsChosen(cs, q, x, blob, a, c, wanted);
    ExtendKeepsViews(cs, a, c);
    assert Restrict(cs, c.past) == cs;
  }
}
