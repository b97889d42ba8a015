/**
 Drafts and the writes they ask for, from taypeer-document/src/lib.rs and fields.rs. A draft
 keeps the form it started from together with the base at which that form was the selected
 projection; saving writes only the difference, at that base.
 */
module Drafts {
  import opened Wrappers
  import opened Operations
  import opened Entries
  import opened CausalDocument
  import opened Selection
  import opened Projection
  import opened Soundness
  import opened Structure

  datatype EntryDraft = EntryDraft(
    database: string, entry: EntryId, group: GroupId, revision: RevisionId, base: set<Actor>,
    original: Option<EntryFields>, fields: EntryFields)

  /** The draft invariant: `original` is the selected projection at `base`. */
  ghost predicate DraftOk(cs: Changes, d: EntryDraft)
  {
    d.base <= cs.Keys && (d.original.Some? ==>
      EntryIn(At(cs, d.base), d.entry) && d.original.value == Project(At(cs, d.base), d.entry))
  }

  // ----- the difference a form asks to write

  function Lookup<T>(m: map<string, T>, x: string): Option<T>
  {
    if x in m then Some(m[x]) else None
  }

  lemma SameLookups<T>(m: map<string, T>, n: map<string, T>)
    requires forall x :: Lookup(m, x) == Lookup(n, x)
    ensures m == n
  {
    forall x
      ensures x in m <==> x in n
      ensures x in m ==> m[x] == n[x]
    {
      assert Lookup(m, x) == Lookup(n, x);
    }
  }

  function OldAttribute(d: EntryDraft, x: AttributeId): Option<Attribute>
  {
    if d.original.Some? then Lookup(d.original.value.attributes, x) else None
  }

  function OldAttachment(d: EntryDraft, x: AttachmentId): Option<Attachment>
  {
    if d.original.Some? then Lookup(d.original.value.attachments, x) else None
  }

  /** `apply_form` and `apply_attachments`, field by field. */
  function FieldWrite(d: EntryDraft, f: EntryField): Option<Scalar>
  {
    match f
    case AttributeName(x) =>
      var before, after := OldAttribute(d, x), Lookup(d.fields.attributes, x);
      if after.Some? && before != after && (before.None? || before.value.name != after.value.name)
      then Some(Data(TextValue(Some(after.value.name)))) else None
    case AttributeData(x) =>
      var before, after := OldAttribute(d, x), Lookup(d.fields.attributes, x);
      if after.Some? && before != after && (before.None? || before.value.value != after.value.value)
      then Some(Data(DataValue(after.value.value))) else None
    case AttributePresence(x) =>
      var before, after := OldAttribute(d, x), Lookup(d.fields.attributes, x);
      if before == after then None else Some(Mark(after.Some?, d.revision))
    case AttachmentName(x) =>
      var before, after := OldAttachment(d, x), Lookup(d.fields.attachments, x);
      if after.Some? && before != after && (before.None? || before.value.name != after.value.name)
      then Some(Data(TextValue(Some(after.value.name)))) else None
    case AttachmentBlob(x) =>
      var before, after := OldAttachment(d, x), Lookup(d.fields.attachments, x);
      if after.Some? && before != after && (before.None? || before.value.blob != after.value.blob)
      then Some(Data(BlobValue(after.value.blob))) else None
    case AttachmentPresence(x) =>
      var before, after := OldAttachment(d, x), Lookup(d.fields.attachments, x);
      if before == after then None else Some(Mark(after.Some?, d.revision))
    case _ =>
      if d.original.Some? && ScalarOf(d.original.value, f) == ScalarOf(d.fields, f) then None
      else Some(Data(ScalarOf(d.fields, f)))
  }

  function DraftWrite(d: EntryDraft, r: Register): Option<Scalar>
  {
    if r.entry != d.entry then None
    else match r
    case EntryObject(_) => if d.original.None? then Some(MapObject) else None
    case Home(_) => if d.original.None? then Some(HomeRef(d.group)) else None
    case AttributeObject(_, x) => if x in d.fields.attributes && OldAttribute(d, x).None? then Some(MapObject) else None
    case AttachmentObject(_, x) => if x in d.fields.attachments && OldAttachment(d, x).None? then Some(MapObject) else None
    case Field(_, f) => FieldWrite(d, f)
    case Detail(_, _) => None
  }

  /** `wanted` is exactly what the draft asks to write. */
  ghost predicate Asks(wanted: map<Register, Scalar>, d: EntryDraft)
  {
    forall r :: Write(wanted, r) == DraftWrite(d, r)
  }

  function Write(m: map<Register, Scalar>, r: Register): Option<Scalar>
  {
    if r in m then Some(m[r]) else None
  }

  /**
   What saving checks before it writes: at its base, in the document it writes into, and by
   reading the entry back.
   */
  ghost predicate Writable(p: Changes, d: EntryDraft)
  {
    && ValidForm(d.fields)
    && (d.original.None? ==> !EntryIn(p, d.entry))
    && (forall x :: x in d.fields.attributes && OldAttribute(d, x).None? ==> Unclaimed(p, AttributeObject(d.entry, x)))
    && (forall x :: x in d.fields.attachments && OldAttachment(d, x).None? ==> Unclaimed(p, AttachmentObject(d.entry, x)))
    && !RowIn(p, d.revision)
  }

  lemma ClaimedBelow(cs: Changes, base: set<Actor>, r: Register)
    requires !Claimed(cs, r)
    ensures !Claimed(At(cs, base), r)
  {
    var p := At(cs, base);
    forall a, q | a in p && q in p[a].puts && SameIdentity(r, q) ensures q.entry == r.entry {
      assert a in cs && q in cs[a].puts;
    }
  }

  /** What is unclaimed in a document is unclaimed at every base of it. */
  lemma UnclaimedBelow(cs: Changes, base: set<Actor>, r: Register)
    requires Unclaimed(cs, r)
    ensures Unclaimed(At(cs, base), r)
  {
    var p := At(cs, base);
    assert forall a :: a in p ==> a in cs && p[a] == cs[a];
    assert !Written(p, r);
    ClaimedBelow(cs, base, r);
  }

  lemma WritableBelow(cs: Changes, d: EntryDraft)
    requires Writable(cs, d)
    ensures Writable(At(cs, d.base), d)
  {
    var p := At(cs, d.base);
    forall r | Unclaimed(cs, r) ensures Unclaimed(p, r) {
      UnclaimedBelow(cs, d.base, r);
    }
    assert forall a :: a in p ==> a in cs && p[a] == cs[a];
  }

  // ----- priority

  /** A value selected although a deletion is visible is that deletion. */
  lemma PresentMeansNoDeletion(v: Changes, e: EntryId, f: EntryField)
    requires Valid(v) && IsPresence(f) && Present(v, e, f)
    ensures !DeletionVisible(v, Field(e, f))
  {
    var r := Field(e, f);
    if b :| b in Visible(v, r) && v[b].puts[r].scalar.Mark? && !v[b].puts[r].scalar.alive {
      BestExists(v, r);
      var a :| IsBest(v, r, a);
      ChosenIsBest(v, r, a);
      FavouredWins(v, r, a, b);
    }
  }

  /** If any visible source is favoured, so is the best one. */
  lemma FavouredWins(v: Changes, r: Register, a: Actor, b: Actor)
    requires IsBest(v, r, a) && b in Visible(v, r) && Favoured(PriorityOf(r), Decoded(v[b].puts[r].scalar))
    ensures Favoured(PriorityOf(r), Decoded(v[a].puts[r].scalar))
  {
    assert SourceOf(v, r, b) in Sources(v, r);
  }

  // ----- a form's writes are in order

  lemma OldAttributeIsPresent(p: Changes, d: EntryDraft, x: AttributeId)
    requires Valid(p) && (d.original.Some? ==> d.original.value == Project(p, d.entry)) && OldAttribute(d, x).Some?
    ensures Present(p, d.entry, AttributePresence(x)) && Written(p, AttributeObject(d.entry, x))
  {
    assert d.original.value.attributes == AttributesOf(p, d.entry);
    AttributeKeys(p, d.entry, x);
    ObjectIds(p, d.entry, x);
  }

  lemma OldAttachmentIsPresent(p: Changes, d: EntryDraft, x: AttachmentId)
    requires Valid(p) && (d.original.Some? ==> d.original.value == Project(p, d.entry)) && OldAttachment(d, x).Some?
    ensures Present(p, d.entry, AttachmentPresence(x)) && Written(p, AttachmentObject(d.entry, x))
  {
    assert d.original.value.attachments == AttachmentsOf(p, d.entry);
    AttachmentKeys(p, d.entry, x);
    ObjectIds(p, d.entry, x);
  }

  lemma FieldWriteFits(d: EntryDraft, f: EntryField)
    requires ValidForm(d.fields) && FieldWrite(d, f).Some?
    ensures Fits(Field(d.entry, f), FieldWrite(d, f).value)
    ensures FieldWrite(d, f).value.Mark? ==> FieldWrite(d, f).value.revision == d.revision
  {
  }

  lemma DraftWriteFits(d: EntryDraft, r: Register)
    requires ValidForm(d.fields) && DraftWrite(d, r).Some?
    ensures r.entry == d.entry && !r.Detail? && Fits(r, DraftWrite(d, r).value)
    ensures DraftWrite(d, r).value.Mark? ==> DraftWrite(d, r).value.revision == d.revision
  {
    if r.Field? {
      FieldWriteFits(d, r.field);
    }
  }

  /** A new object comes with all of its parts. */
  lemma NewHolderWritesParts(d: EntryDraft, r: Register, part: Register)
    requires IsHolder(r) && Inside(r, part) && DraftWrite(d, r).Some?
    ensures DraftWrite(d, part).Some?
  {
  }

  /** A part is written into an object that exists at the base or is new. */
  lemma PartWriteHasHolder(p: Changes, d: EntryDraft, f: EntryField)
    requires Valid(p) && (d.original.Some? ==> d.original.value == Project(p, d.entry))
    requires !IsScalar(f) && FieldWrite(d, f).Some?
    ensures Written(p, HolderOf(d.entry, f)) || DraftWrite(d, HolderOf(d.entry, f)).Some?
  {
    if OfAttribute(f) {
      AttributeWriteHasHolder(p, d, f);
    } else {
      AttachmentWriteHasHolder(p, d, f);
    }
  }

  lemma AttributeWriteHasHolder(p: Changes, d: EntryDraft, f: EntryField)
    requires Valid(p) && (d.original.Some? ==> d.original.value == Project(p, d.entry))
    requires OfAttribute(f) && FieldWrite(d, f).Some?
    ensures Written(p, HolderOf(d.entry, f)) || DraftWrite(d, HolderOf(d.entry, f)).Some?
  {
    if OldAttribute(d, f.attribute).Some? {
      OldAttributeIsPresent(p, d, f.attribute);
    }
  }

  lemma AttachmentWriteHasHolder(p: Changes, d: EntryDraft, f: EntryField)
    requires Valid(p) && (d.original.Some? ==> d.original.value == Project(p, d.entry))
    requires OfAttachment(f) && FieldWrite(d, f).Some?
    ensures Written(p, HolderOf(d.entry, f)) || DraftWrite(d, HolderOf(d.entry, f)).Some?
  {
    if OldAttachment(d, f.attachment).Some? {
      OldAttachmentIsPresent(p, d, f.attachment);
    }
  }

  /** Every edit of a part witnesses presence. */
  lemma PartWriteMarksPresence(d: EntryDraft, f: EntryField)
    requires !IsScalar(f) && !IsPresence(f) && FieldWrite(d, f).Some?
    ensures FieldWrite(d, PresenceOf(f)) == Some(Mark(true, d.revision))
  {
  }

  /** A draft never writes the presence of something deleted at its base. */
  lemma PresenceWriteSeesNoDeletion(p: Changes, d: EntryDraft, f: EntryField)
    requires Valid(p) && Writable(p, d) && (d.original.Some? ==> d.original.value == Project(p, d.entry))
    requires IsPresence(f) && FieldWrite(d, f).Some?
    ensures !DeletionVisible(p, Field(d.entry, f))
  {
    var known := if f.AttributePresence? then OldAttribute(d, f.attribute).Some? else OldAttachment(d, f.attachment).Some?;
    if known {
      if f.AttributePresence? {
        OldAttributeIsPresent(p, d, f.attribute);
      } else {
        OldAttachmentIsPresent(p, d, f.attachment);
      }
      PresentMeansNoDeletion(p, d.entry, f);
    } else if Written(p, Field(d.entry, f)) {
      PartHasHolder(p, d.entry, f);
    }
  }

  lemma AsksPointwise(d: EntryDraft, wanted: map<Register, Scalar>)
    requires Asks(wanted, d)
    ensures forall r :: r in wanted <==> DraftWrite(d, r).Some?
    ensures forall r :: r in wanted ==> DraftWrite(d, r) == Some(wanted[r])
  {
    forall r
      ensures r in wanted <==> DraftWrite(d, r).Some?
      ensures r in wanted ==> DraftWrite(d, r) == Some(wanted[r])
    {
      assert Write(wanted, r) == DraftWrite(d, r);
    }
  }

  lemma FormWantedFits(d: EntryDraft, wanted: map<Register, Scalar>)
    requires ValidForm(d.fields) && Asks(wanted, d)
    ensures forall r :: r in wanted ==>
              r.entry == d.entry && !r.Detail? && Fits(r, wanted[r]) && (wanted[r].Mark? ==> wanted[r].revision == d.revision)
    ensures forall r, part :: r in wanted && IsHolder(r) && Inside(r, part) ==> part in wanted
  {
    AsksPointwise(d, wanted);
    forall r | r in wanted
      ensures r.entry == d.entry && !r.Detail? && Fits(r, wanted[r]) && (wanted[r].Mark? ==> wanted[r].revision == d.revision)
    {
      DraftWriteFits(d, r);
    }
    forall r, part | r in wanted && IsHolder(r) && Inside(r, part) ensures part in wanted {
      NewHolderWritesParts(d, r, part);
    }
  }

  lemma FormWantedParts(p: Changes, d: EntryDraft, wanted: map<Register, Scalar>, f: EntryField)
    requires Valid(p) && Writable(p, d) && Asks(wanted, d)
    requires d.original.Some? ==> d.original.value == Project(p, d.entry)
    requires Field(d.entry, f) in wanted && !IsScalar(f)
    ensures Written(p, HolderOf(d.entry, f)) || HolderOf(d.entry, f) in wanted
    ensures !IsPresence(f) ==>
              Field(d.entry, PresenceOf(f)) in wanted && wanted[Field(d.entry, PresenceOf(f))] == Mark(true, d.revision)
    ensures IsPresence(f) ==> !DeletionVisible(p, Field(d.entry, f))
  {
    AsksPointwise(d, wanted);
    assert FieldWrite(d, f) == DraftWrite(d, Field(d.entry, f));
    PartWriteHasHolder(p, d, f);
    if IsPresence(f) {
      PresenceWriteSeesNoDeletion(p, d, f);
    } else {
      PartWriteMarksPresence(d, f);
      assert DraftWrite(d, Field(d.entry, PresenceOf(f))) == FieldWrite(d, PresenceOf(f));
    }
  }

  lemma FormWantedObjects(p: Changes, d: EntryDraft, wanted: map<Register, Scalar>)
    requires Writable(p, d) && Asks(wanted, d) && (d.original.Some? ==> EntryIn(p, d.entry))
    ensures WantedObjects(p, d.entry, d.revision, wanted)
  {
    AsksPointwise(d, wanted);
    FormWantedFits(d, wanted);
    forall f | IsScalar(f) && d.original.None? ensures Field(d.entry, f) in wanted {
      assert DraftWrite(d, Field(d.entry, f)).Some?;
    }
  }

  /** A checked draft asks only for writes that keep the document valid. */
  lemma FormWantedOk(p: Changes, d: EntryDraft, kind: Kind, wanted: map<Register, Scalar>)
    requires Valid(p) && Writable(p, d) && Asks(wanted, d)
    requires d.original.Some? ==> EntryIn(p, d.entry) && d.original.value == Project(p, d.entry)
    ensures WantedOk(p, d.entry, d.revision, kind, wanted)
  {
    FormWantedObjects(p, d, wanted);
    forall f | Field(d.entry, f) in wanted && !IsScalar(f)
      ensures Written(p, HolderOf(d.entry, f)) || HolderOf(d.entry, f) in wanted
      ensures !IsPresence(f) ==>
                Field(d.entry, PresenceOf(f)) in wanted && wanted[Field(d.entry, PresenceOf(f))] == Mark(true, d.revision)
      ensures IsPresence(f) ==> !DeletionVisible(p, Field(d.entry, f))
    {
      FormWantedParts(p, d, wanted, f);
    }
  }

  // ----- what a set of writes makes of the projection

  /** What is chosen once `wanted` has been written over `p`. */
  ghost function After(p: Changes, wanted: map<Register, Scalar>, r: Register): Option<Scalar>
  {
    if r in wanted then Some(wanted[r]) else Chosen(p, r)
  }

  ghost predicate Alive(s: Option<Scalar>)
  {
    s.Some? && Decoded(s.value) == PresenceValue(true)
  }

  ghost predicate AimsAtAttribute(p: Changes, e: EntryId, wanted: map<Register, Scalar>, target: EntryFields, x: AttributeId)
  {
    && (x in target.attributes <==> Alive(After(p, wanted, Field(e, AttributePresence(x)))))
    && (x in target.attributes ==>
          && After(p, wanted, Field(e, AttributeName(x))) == Some(Data(TextValue(Some(target.attributes[x].name))))
          && After(p, wanted, Field(e, AttributeData(x))) == Some(Data(DataValue(target.attributes[x].value))))
  }

  ghost predicate AimsAtAttachment(p: Changes, e: EntryId, wanted: map<Register, Scalar>, target: EntryFields, x: AttachmentId)
  {
    && (x in target.attachments <==> Alive(After(p, wanted, Field(e, AttachmentPresence(x)))))
    && (x in target.attachments ==>
          && After(p, wanted, Field(e, AttachmentName(x))) == Some(Data(TextValue(Some(target.attachments[x].name))))
          && After(p, wanted, Field(e, AttachmentBlob(x))) == Some(Data(BlobValue(target.attachments[x].blob))))
  }

  /** Every register of the entry will be chosen as `target` has it. */
  ghost predicate AimsAt(p: Changes, e: EntryId, wanted: map<Register, Scalar>, target: EntryFields)
  {
    && (forall f :: IsScalar(f) ==> After(p, wanted, Field(e, f)) == Some(Data(ScalarOf(target, f))))
    && (forall x :: AimsAtAttribute(p, e, wanted, target, x))
    && (forall x :: AimsAtAttachment(p, e, wanted, target, x))
  }

  ghost predicate Chooses(p: Changes, v: Changes, wanted: map<Register, Scalar>)
  {
    forall r :: Chosen(v, r) == After(p, wanted, r)
  }

  lemma AttributeReached(p: Changes, v: Changes, e: EntryId, wanted: map<Register, Scalar>, target: EntryFields, x: AttributeId)
    requires Valid(v) && Chooses(p, v, wanted) && AimsAtAttribute(p, e, wanted, target, x)
    requires x in target.attributes ==> target.attributes[x].id == x
    ensures Lookup(AttributesOf(v, e), x) == Lookup(target.attributes, x)
  {
    ProjectAttribute(v, e, x);
    assert Chosen(v, Field(e, AttributePresence(x))) == After(p, wanted, Field(e, AttributePresence(x)));
    if x in target.attributes {
      assert Chosen(v, Field(e, AttributeName(x))) == After(p, wanted, Field(e, AttributeName(x)));
      assert Chosen(v, Field(e, AttributeData(x))) == After(p, wanted, Field(e, AttributeData(x)));
    }
  }

  lemma AttributesReached(p: Changes, v: Changes, e: EntryId, wanted: map<Register, Scalar>, target: EntryFields)
    requires Valid(v) && Chooses(p, v, wanted) && AimsAt(p, e, wanted, target) && ValidForm(target)
    ensures AttributesOf(v, e) == target.attributes
  {
    var reached := AttributesOf(v, e);
    forall x ensures Lookup(reached, x) == Lookup(target.attributes, x) {
      AttributeReached(p, v, e, wanted, target, x);
    }
    SameLookups(reached, target.attributes);
  }

  lemma AttachmentReached(p: Changes, v: Changes, e: EntryId, wanted: map<Register, Scalar>, target: EntryFields, x: AttachmentId)
    requires Valid(v) && Chooses(p, v, wanted) && AimsAtAttachment(p, e, wanted, target, x)
    requires x in target.attachments ==> target.attachments[x].id == x
    ensures Lookup(AttachmentsOf(v, e), x) == Lookup(target.attachments, x)
  {
    ProjectAttachment(v, e, x);
    assert Chosen(v, Field(e, AttachmentPresence(x))) == After(p, wanted, Field(e, AttachmentPresence(x)));
    if x in target.attachments {
      assert Chosen(v, Field(e, AttachmentName(x))) == After(p, wanted, Field(e, AttachmentName(x)));
      assert Chosen(v, Field(e, AttachmentBlob(x))) == After(p, wanted, Field(e, AttachmentBlob(x)));
    }
  }

  lemma AttachmentsReached(p: Changes, v: Changes, e: EntryId, wanted: map<Register, Scalar>, target: EntryFields)
    requires Valid(v) && Chooses(p, v, wanted) && AimsAt(p, e, wanted, target) && ValidForm(target)
    ensures AttachmentsOf(v, e) == target.attachments
  {
    var reached := AttachmentsOf(v, e);
    forall x ensures Lookup(reached, x) == Lookup(target.attachments, x) {
      AttachmentReached(p, v, e, wanted, target, x);
    }
    SameLookups(reached, target.attachments);
  }

  lemma TargetReached(p: Changes, v: Changes, e: EntryId, wanted: map<Register, Scalar>, target: EntryFields)
    requires Valid(v) && EntryIn(v, e) && Chooses(p, v, wanted) && AimsAt(p, e, wanted, target) && ValidForm(target)
    ensures Project(v, e) == target
  {
    AttributesReached(p, v, e, wanted, target);
    AttachmentsReached(p, v, e, wanted, target);
    forall f | IsScalar(f) ensures ScalarOf(Project(v, e), f) == ScalarOf(target, f) {
      ProjectScalar(v, e, f);
      assert Chosen(v, Field(e, f)) == After(p, wanted, Field(e, f));
    }
    FormsEqual(Project(v, e), target);
  }

  // ----- the round trip of a form

  /** Nothing of an entry that is still to be created is present at the base. */
  lemma NothingPresentYet(p: Changes, e: EntryId, f: EntryField)
    requires Valid(p) && !EntryIn(p, e)
    ensures !Alive(Chosen(p, Field(e, f)))
  {
    NothingWithoutEntry(p, Field(e, f));
    ChosenFits(p, Field(e, f));
  }

  lemma AfterField(p: Changes, d: EntryDraft, wanted: map<Register, Scalar>, f: EntryField)
    requires Asks(wanted, d)
    ensures After(p, wanted, Field(d.entry, f)) == OrElse(FieldWrite(d, f), Chosen(p, Field(d.entry, f)))
  {
    assert Write(wanted, Field(d.entry, f)) == DraftWrite(d, Field(d.entry, f));
  }

  /** The original form says what is chosen at the base. */
  ghost predicate Originates(p: Changes, d: EntryDraft)
  {
    if d.original.Some? then EntryIn(p, d.entry) && d.original.value == Project(p, d.entry) else !EntryIn(p, d.entry)
  }

  lemma OldAttributeIsChosen(p: Changes, d: EntryDraft, x: AttributeId)
    requires Valid(p) && Originates(p, d)
    ensures Alive(Chosen(p, Field(d.entry, AttributePresence(x)))) <==> OldAttribute(d, x).Some?
    ensures OldAttribute(d, x).Some? ==>
              && Chosen(p, Field(d.entry, AttributeName(x))) == Some(Data(TextValue(Some(OldAttribute(d, x).value.name))))
              && Chosen(p, Field(d.entry, AttributeData(x))) == Some(Data(DataValue(OldAttribute(d, x).value.value)))
              && OldAttribute(d, x).value.id == x
  {
    if d.original.None? {
      NothingPresentYet(p, d.entry, AttributePresence(x));
    } else {
      assert d.original.value.attributes == AttributesOf(p, d.entry);
      ProjectAttribute(p, d.entry, x);
    }
  }

  lemma OldAttachmentIsChosen(p: Changes, d: EntryDraft, x: AttachmentId)
    requires Valid(p) && Originates(p, d)
    ensures Alive(Chosen(p, Field(d.entry, AttachmentPresence(x)))) <==> OldAttachment(d, x).Some?
    ensures OldAttachment(d, x).Some? ==>
              && Chosen(p, Field(d.entry, AttachmentName(x))) == Some(Data(TextValue(Some(OldAttachment(d, x).value.name))))
              && Chosen(p, Field(d.entry, AttachmentBlob(x))) == Some(Data(BlobValue(OldAttachment(d, x).value.blob)))
              && OldAttachment(d, x).value.id == x
  {
    if d.original.None? {
      NothingPresentYet(p, d.entry, AttachmentPresence(x));
    } else {
      assert d.original.value.attachments == AttachmentsOf(p, d.entry);
      ProjectAttachment(p, d.entry, x);
    }
  }

  function OrElse(write: Option<Scalar>, before: Option<Scalar>): Option<Scalar>
  {
    if write.Some? then write else before
  }

  lemma AttributeOutcome(d: EntryDraft, x: AttributeId, presence: Option<Scalar>, name: Option<Scalar>, data: Option<Scalar>)
    requires Alive(presence) <==> OldAttribute(d, x).Some?
    requires OldAttribute(d, x).Some? ==>
               && name == Some(Data(TextValue(Some(OldAttribute(d, x).value.name))))
               && data == Some(Data(DataValue(OldAttribute(d, x).value.value)))
    ensures x in d.fields.attributes <==> Alive(OrElse(FieldWrite(d, AttributePresence(x)), presence))
    ensures x in d.fields.attributes ==>
              && OrElse(FieldWrite(d, AttributeName(x)), name) == Some(Data(TextValue(Some(d.fields.attributes[x].name))))
              && OrElse(FieldWrite(d, AttributeData(x)), data) == Some(Data(DataValue(d.fields.attributes[x].value)))
  {
  }

  lemma AttachmentOutcome(d: EntryDraft, x: AttachmentId, presence: Option<Scalar>, name: Option<Scalar>, blob: Option<Scalar>)
    requires Alive(presence) <==> OldAttachment(d, x).Some?
    requires OldAttachment(d, x).Some? ==>
               && name == Some(Data(TextValue(Some(OldAttachment(d, x).value.name))))
               && blob == Some(Data(BlobValue(OldAttachment(d, x).value.blob)))
    ensures x in d.fields.attachments <==> Alive(OrElse(FieldWrite(d, AttachmentPresence(x)), presence))
    ensures x in d.fields.attachments ==>
              && OrElse(FieldWrite(d, AttachmentName(x)), name) == Some(Data(TextValue(Some(d.fields.attachments[x].name))))
              && OrElse(FieldWrite(d, AttachmentBlob(x)), blob) == Some(Data(BlobValue(d.fields.attachments[x].blob)))
  {
  }

  lemma FormAimsAtAttribute(p: Changes, d: EntryDraft, wanted: map<Register, Scalar>, x: AttributeId)
    requires Valid(p) && Asks(wanted, d) && Originates(p, d)
    ensures AimsAtAttribute(p, d.entry, wanted, d.fields, x)
  {
    AfterField(p, d, wanted, AttributePresence(x));
    AfterField(p, d, wanted, AttributeName(x));
    AfterField(p, d, wanted, AttributeData(x));
    OldAttributeIsChosen(p, d, x);
    AttributeOutcome(d, x, Chosen(p, Field(d.entry, AttributePresence(x))),
      Chosen(p, Field(d.entry, AttributeName(x))), Chosen(p, Field(d.entry, AttributeData(x))));
  }

  lemma FormAimsAtAttachment(p: Changes, d: EntryDraft, wanted: map<Register, Scalar>, x: AttachmentId)
    requires Valid(p) && Asks(wanted, d) && Originates(p, d)
    ensures AimsAtAttachment(p, d.entry, wanted, d.fields, x)
  {
    AfterField(p, d, wanted, AttachmentPresence(x));
    AfterField(p, d, wanted, AttachmentName(x));
    AfterField(p, d, wanted, AttachmentBlob(x));
    OldAttachmentIsChosen(p, d, x);
    AttachmentOutcome(d, x, Chosen(p, Field(d.entry, AttachmentPresence(x))),
      Chosen(p, Field(d.entry, AttachmentName(x))), Chosen(p, Field(d.entry, AttachmentBlob(x))));
  }

  lemma FormAims(p: Changes, d: EntryDraft, wanted: map<Register, Scalar>)
    requires Valid(p) && Asks(wanted, d) && Originates(p, d)
    ensures AimsAt(p, d.entry, wanted, d.fields)
  {
    forall f | IsScalar(f) ensures After(p, wanted, Field(d.entry, f)) == Some(Data(ScalarOf(d.fields, f))) {
      AfterField(p, d, wanted, f);
      if d.original.Some? {
        ProjectScalar(p, d.entry, f);
      }
    }
    forall x ensures AimsAtAttribute(p, d.entry, wanted, d.fields, x) {
      FormAimsAtAttribute(p, d, wanted, x);
    }
    forall x ensures AimsAtAttachment(p, d.entry, wanted, d.fields, x) {
      FormAimsAtAttachment(p, d, wanted, x);
    }
  }

  // ----- saving a draft

  /** The kind under which a draft is confirmed. */
  predicate Confirming(d: EntryDraft, kind: Kind)
  {
    if d.original.None? then kind == Create || kind == Clone else kind == Save
  }

  /**
   `cs` becomes `ds` by saving `d`: one change of the fresh actor `a`, at the draft's base,
   with the form's difference and one row about it.
   */
  ghost predicate Saved(cs: Changes, ds: Changes, d: EntryDraft, now: Timestamp, kind: Kind, a: Actor, c: Change)
  {
    && ds == cs[a := c]
    && Confirming(d, kind)
    && (exists wanted :: Asks(wanted, d) && Committed(cs, a, c, d.base, wanted))
    && Writable(cs, d)
    && c.row == Some(StoredRevision(d.revision, d.entry, now, kind, d.base, Project(Upto(ds, a), d.entry), Some(d.fields),
                                    ChangedOperations(c.puts, a, kind)))
    && c.purged == {}
  }

  /** Saving keeps every invariant, and the projection of its own transaction is the form. */
  lemma SaveKeepsSound(cs: Changes, ds: Changes, d: EntryDraft, now: Timestamp, kind: Kind, a: Actor, c: Change)
    requires Valid(cs) && Faithful(cs) && DraftOk(cs, d) && Saved(cs, ds, d, now, kind, a, c)
    ensures Valid(ds) && Faithful(ds)
    ensures Project(Upto(ds, a), d.entry) == d.fields
  {
    var p := At(cs, d.base);
    AtKeepsValid(cs, d.base);
    WritableBelow(cs, d);
    var wanted :| Asks(wanted, d) && Committed(cs, a, c, d.base, wanted);
    FormWantedOk(p, d, kind, wanted);
    CommitKeepsValid(cs, a, c, d.base, wanted);
    FormRoundTrip(p, a, c, d, wanted);
    CommitIsOrdered(cs, a, c, d.base, wanted);
    ExtendKeepsFaithful(cs, a, c);
  }

  lemma DraftBringsNew(cs: Changes, d: EntryDraft, c: Change, wanted: map<Register, Scalar>)
    requires Writable(cs, d) && Asks(wanted, d) && (forall r :: r in c.puts ==> r in wanted)
    requires c.row.Some? && c.row.value.id == d.revision
    ensures BringsNew(cs, c)
  {
    AsksPointwise(d, wanted);
    assert forall r :: r in c.puts ==> DraftWrite(d, r).Some?;
    assert forall r :: DraftWrite(d, r).Some? ==> r.entry == d.entry;
    forall r | r in c.puts && IsObject(r) ensures Unclaimed(cs, r) {
      assert r.EntryObject? ==> !Claimed(cs, r);
    }
  }

  /** A save brings no row, object or identity that the document has. */
  lemma SaveKeepsStructured(cs: Changes, ds: Changes, d: EntryDraft, now: Timestamp, kind: Kind, a: Actor, c: Change)
    requires Structured(cs) && Saved(cs, ds, d, now, kind, a, c)
    ensures Structured(ds)
  {
    var wanted :| Asks(wanted, d) && Committed(cs, a, c, d.base, wanted);
    DraftBringsNew(cs, d, c, wanted);
    ExtendKeepsStructured(cs, a, c);
  }

  /** What a transaction view projects after the form was applied is the form itself. */
  lemma FormRoundTrip(p: Changes, a: Actor, c: Change, d: EntryDraft, wanted: map<Register, Scalar>)
    requires Valid(p) && a !in p && Valid(p[a := c]) && Recorded(p, c, wanted)
    requires Originates(p, d) && Asks(wanted, d) && ValidForm(d.fields)
    ensures EntryIn(p[a := c], d.entry) && Project(p[a := c], d.entry) == d.fields
  {
    var v := p[a := c];
    forall r ensures Chosen(v, r) == After(p, wanted, r) {
      CommitChooses(p, a, c, wanted, r);
    }
    FormAims(p, d, wanted);
    ChosenFits(v, EntryObject(d.entry));
    ChosenFits(p, EntryObject(d.entry));
    assert Write(wanted, EntryObject(d.entry)) == DraftWrite(d, EntryObject(d.entry));
    assert EntryIn(v, d.entry) by {
      assert Chosen(v, EntryObject(d.entry)) == After(p, wanted, EntryObject(d.entry));
    }
    TargetReached(p, v, d.entry, wanted, d.fields);
  }
}
