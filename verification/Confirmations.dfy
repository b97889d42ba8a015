/**
 Confirmations that are not drafts: scalar edits, explicit resolutions at reviewed heads, and
 restorations of an old form, from taypeer-document/src/lib.rs and operations.rs.
 */
module Confirmations {
  import opened Wrappers
  import opened Operations
  import opened Entries
  import opened CausalDocument
  import opened Selection
  import opened Projection
  import opened Soundness
  import opened Structure
  import opened Drafts

  /** Chosen field values for one entry, written at `base`; a restoration also names a group and new objects. */
  datatype Confirmation = Confirmation(
    entry: EntryId, revision: RevisionId, base: set<Actor>, kind: Kind,
    values: map<EntryField, FieldValue>, home: Option<GroupId>, created: set<Register>)

  function ToScalar(value: FieldValue, revision: RevisionId): Scalar
  {
    if value.PresenceValue? then Mark(value.present, revision) else Data(value)
  }

  function ConfirmWrite(q: Confirmation, r: Register): Option<Scalar>
  {
    if r.entry != q.entry then None
    else match r
    case EntryObject(_) => None
    case Home(_) => if q.home.Some? then Some(HomeRef(q.home.value)) else None
    case Detail(_, _) => None
    case Field(_, f) => if f in q.values then Some(ToScalar(q.values[f], q.revision)) else None
    case _ => if r in q.created then Some(MapObject) else None
  }

  ghost predicate ConfirmAsks(wanted: map<Register, Scalar>, q: Confirmation)
  {
    forall r :: Write(wanted, r) == ConfirmWrite(q, r)
  }

  /** What is checked before a confirmation is written over its base `p`. */
  ghost predicate Confirmable(p: Changes, q: Confirmation)
  {
    && EntryIn(p, q.entry) && !RowIn(p, q.revision)
    && (forall f :: f in q.values ==> ValidField(f, q.values[f]))
    && (forall f :: f in q.values && !IsScalar(f) ==> Written(p, HolderOf(q.entry, f)) || HolderOf(q.entry, f) in q.created)
    && (forall r :: r in q.created ==>
          IsHolder(r) && r.entry == q.entry && !Written(p, r) && forall f :: !IsScalar(f) && HolderOf(q.entry, f) == r ==> f in q.values)
    && match q.kind {
         case Save => forall f :: f in q.values ==> IsScalar(f)
         case Restore => forall f :: f in q.values && !IsScalar(f) && !IsPresence(f) ==>
           PresenceOf(f) in q.values && q.values[PresenceOf(f)] == PresenceValue(true)
         case Resolve => true
         case _ => false
       }
  }

  /** The revision and the new objects are new to the whole document. */
  ghost predicate Original(cs: Changes, q: Confirmation)
  {
    !RowIn(cs, q.revision) && forall r :: r in q.created ==> Unclaimed(cs, r)
  }

  ghost predicate Confirmed(cs: Changes, ds: Changes, q: Confirmation, now: Timestamp, a: Actor, c: Change)
  {
    && ds == cs[a := c]
    && (exists wanted :: ConfirmAsks(wanted, q) && Committed(cs, a, c, q.base, wanted))
    && Confirmable(At(cs, q.base), q) && Original(cs, q)
    && c.row == Some(StoredRevision(q.revision, q.entry, now, q.kind, q.base, Project(Upto(ds, a), q.entry), None,
                                    ChangedOperations(c.puts, a, q.kind)))
    && c.purged == {}
  }

  lemma ConfirmPointwise(wanted: map<Register, Scalar>, q: Confirmation)
    requires ConfirmAsks(wanted, q)
    ensures forall r :: r in wanted <==> ConfirmWrite(q, r).Some?
    ensures forall r :: r in wanted ==> ConfirmWrite(q, r) == Some(wanted[r])
  {
    forall r
      ensures r in wanted <==> ConfirmWrite(q, r).Some?
      ensures r in wanted ==> ConfirmWrite(q, r) == Some(wanted[r])
    {
      assert Write(wanted, r) == ConfirmWrite(q, r);
    }
  }

  lemma ConfirmWriteFits(q: Confirmation, r: Register)
    requires forall f :: f in q.values ==> ValidField(f, q.values[f])
    requires ConfirmWrite(q, r).Some?
    ensures r.entry == q.entry && !r.Detail? && Fits(r, ConfirmWrite(q, r).value)
    ensures ConfirmWrite(q, r).value.Mark? ==> ConfirmWrite(q, r).value.revision == q.revision
  {
    if r.Field? {
      assert ValidField(r.field, q.values[r.field]);
    }
  }

  lemma ConfirmWantedObjects(p: Changes, q: Confirmation, wanted: map<Register, Scalar>)
    requires Confirmable(p, q) && ConfirmAsks(wanted, q)
    ensures WantedObjects(p, q.entry, q.revision, wanted)
  {
    ConfirmPointwise(wanted, q);
    forall r | r in wanted
      ensures r.entry == q.entry && !r.Detail? && Fits(r, wanted[r]) && (wanted[r].Mark? ==> wanted[r].revision == q.revision)
    {
      ConfirmWriteFits(q, r);
    }
    forall r, part | r in wanted && IsHolder(r) && Inside(r, part) ensures !Written(p, r) && part in wanted {
      assert part.field in q.values;
      assert ConfirmWrite(q, part).Some?;
    }
    forall r | r in wanted && IsHolder(r) ensures !Written(p, r) {
      assert r in q.created;
    }
  }

  lemma ConfirmWantedParts(p: Changes, q: Confirmation, wanted: map<Register, Scalar>)
    requires Confirmable(p, q) && ConfirmAsks(wanted, q)
    ensures WantedParts(p, q.entry, q.revision, q.kind, wanted)
  {
    ConfirmPointwise(wanted, q);
    forall f | Field(q.entry, f) in wanted && !IsScalar(f)
      ensures Written(p, HolderOf(q.entry, f)) || HolderOf(q.entry, f) in wanted
      ensures !IsPresence(f) && q.kind != Resolve ==>
                Field(q.entry, PresenceOf(f)) in wanted && wanted[Field(q.entry, PresenceOf(f))] == Mark(true, q.revision)
      ensures !Ordinary(q.kind)
    {
      assert f in q.values;
      if HolderOf(q.entry, f) in q.created {
        assert ConfirmWrite(q, HolderOf(q.entry, f)).Some?;
      }
      if !IsPresence(f) && q.kind == Restore {
        assert ConfirmWrite(q, Field(q.entry, PresenceOf(f))) == Some(Mark(true, q.revision));
      }
    }
  }

  lemma ConfirmKeepsSound(cs: Changes, ds: Changes, q: Confirmation, now: Timestamp, a: Actor, c: Change)
    requires Valid(cs) && Faithful(cs) && Confirmed(cs, ds, q, now, a, c)
    ensures Valid(ds) && Faithful(ds)
  {
    var p := At(cs, q.base);
    AtKeepsValid(cs, q.base);
    var wanted :| ConfirmAsks(wanted, q) && Committed(cs, a, c, q.base, wanted);
    ConfirmWantedObjects(p, q, wanted);
    ConfirmWantedParts(p, q, wanted);
    CommitKeepsValid(cs, a, c, q.base, wanted);
    CommitIsOrdered(cs, a, c, q.base, wanted);
    ExtendKeepsFaithful(cs, a, c);
  }

  lemma ConfirmBringsNew(cs: Changes, q: Confirmation, c: Change, wanted: map<Register, Scalar>)
    requires Original(cs, q) && ConfirmAsks(wanted, q) && (forall r :: r in c.puts ==> r in wanted)
    requires c.row.Some? && c.row.value.id == q.revision
    ensures BringsNew(cs, c)
  {
    ConfirmPointwise(wanted, q);
    assert forall r :: r in c.puts ==> ConfirmWrite(q, r).Some?;
    assert forall r :: ConfirmWrite(q, r).Some? ==> r.entry == q.entry;
    forall r | r in c.puts && IsObject(r) ensures Unclaimed(cs, r) {
      assert r in q.created;
    }
  }

  /** No confirmation brings a row, object or identity that the document has. */
  lemma ConfirmKeepsStructured(cs: Changes, ds: Changes, q: Confirmation, now: Timestamp, a: Actor, c: Change)
    requires Structured(cs) && Confirmed(cs, ds, q, now, a, c)
    ensures Structured(ds)
  {
    var wanted :| ConfirmAsks(wanted, q) && Committed(cs, a, c, q.base, wanted);
    ConfirmBringsNew(cs, q, c, wanted);
    ExtendKeepsStructured(cs, a, c);
  }

  // ----- resolution

  /** A resolution replaces what was visible at its base; later and unseen variants stay. */
  lemma ResolutionKeepsUnseen(cs: Changes, ds: Changes, q: Confirmation, now: Timestamp, a: Actor, c: Change, f: EntryField)
    requires Valid(cs) && Confirmed(cs, ds, q, now, a, c) && f in q.values
    ensures var r, p := Field(q.entry, f), At(cs, q.base);
            Visible(ds, r) == if Elided(p, r, ToScalar(q.values[f], q.revision)) then Visible(cs, r) else Visible(cs, r) - Visible(p, r) + {a}
  {
    var wanted :| ConfirmAsks(wanted, q) && Committed(cs, a, c, q.base, wanted);
    CommitResolves(cs, q, a, c, wanted, f);
  }

  lemma CommitResolves(cs: Changes, q: Confirmation, a: Actor, c: Change, wanted: map<Register, Scalar>, f: EntryField)
    requires Valid(cs) && ConfirmAsks(wanted, q) && Committed(cs, a, c, q.base, wanted) && f in q.values
    ensures var r, p := Field(q.entry, f), At(cs, q.base);
            Visible(cs[a := c], r) ==
            if Elided(p, r, ToScalar(q.values[f], q.revision)) then Visible(cs, r) else Visible(cs, r) - Visible(p, r) + {a}
  {
    assert Write(wanted, Field(q.entry, f)) == ConfirmWrite(q, Field(q.entry, f));
    CommitConsumesWhatItSaw(cs, a, c, q.base, wanted, Field(q.entry, f));
  }

  // ----- restoration

  /** `all_resolutions`: every field of the old form, and removal of everything it does not have. */
  function ResolutionOf(fields: EntryFields, v: Changes, e: EntryId, f: EntryField): Option<FieldValue>
  {
    match f
    case AttributePresence(x) =>
      if x in AttributeIds(v, e) || x in fields.attributes then Some(PresenceValue(x in fields.attributes)) else None
    case AttributeName(x) =>
      if x in fields.attributes then Some(TextValue(Some(fields.attributes[x].name))) else None
    case AttributeData(x) =>
      if x in fields.attributes then Some(DataValue(fields.attributes[x].value)) else None
    case AttachmentPresence(x) =>
      if x in AttachmentIds(v, e) || x in fields.attachments then Some(PresenceValue(x in fields.attachments)) else None
    case AttachmentName(x) =>
      if x in fields.attachments then Some(TextValue(Some(fields.attachments[x].name))) else None
    case AttachmentBlob(x) =>
      if x in fields.attachments then Some(BlobValue(fields.attachments[x].blob)) else None
    case _ => Some(ScalarOf(fields, f))
  }

  function MissingObjects(fields: EntryFields, v: Changes, e: EntryId): set<Register>
  {
    (set x | x in fields.attributes && x !in AttributeIds(v, e) :: AttributeObject(e, x))
    + (set x | x in fields.attachments && x !in AttachmentIds(v, e) :: AttachmentObject(e, x))
  }

  /** The confirmation that restores `fields` over everything visible. */
  ghost predicate Restores(cs: Changes, q: Confirmation, fields: EntryFields)
  {
    && q.kind == Restore && q.base == Heads(cs) && q.home.Some?
    && q.created == MissingObjects(fields, cs, q.entry)
    && forall f :: Value(q.values, f) == ResolutionOf(fields, cs, q.entry, f)
  }

  function Value(m: map<EntryField, FieldValue>, f: EntryField): Option<FieldValue>
  {
    if f in m then Some(m[f]) else None
  }

  /** The list a restoration writes always passes the checks of its own confirmation. */
  lemma RestorationIsConfirmable(cs: Changes, q: Confirmation, fields: EntryFields)
    requires Valid(cs) && Restores(cs, q, fields) && ValidForm(fields) && EntryIn(cs, q.entry) && !RowIn(cs, q.revision)
    ensures Confirmable(cs, q)
  {
    var e := q.entry;
    forall f | f in q.values
      ensures ValidField(f, q.values[f])
      ensures !IsScalar(f) ==> Written(cs, HolderOf(e, f)) || HolderOf(e, f) in q.created
      ensures !IsScalar(f) && !IsPresence(f) ==> PresenceOf(f) in q.values && q.values[PresenceOf(f)] == PresenceValue(true)
    {
      assert Value(q.values, f) == ResolutionOf(fields, cs, e, f);
      if !IsScalar(f) {
        assert Value(q.values, PresenceOf(f)) == ResolutionOf(fields, cs, e, PresenceOf(f));
        ObjectIds(cs, e, if OfAttribute(f) then f.attribute else f.attachment);
      }
    }
    forall r | r in q.created
      ensures IsHolder(r) && r.entry == e && !Written(cs, r)
      ensures forall f :: !IsScalar(f) && HolderOf(e, f) == r ==> f in q.values
    {
      ObjectIds(cs, e, if r.AttributeObject? then r.attribute else r.attachment);
      forall f | !IsScalar(f) && HolderOf(e, f) == r ensures f in q.values {
        assert Value(q.values, f) == ResolutionOf(fields, cs, e, f);
      }
    }
  }

  lemma AfterConfirm(p: Changes, q: Confirmation, wanted: map<Register, Scalar>, f: EntryField)
    requires ConfirmAsks(wanted, q)
    ensures After(p, wanted, Field(q.entry, f)) ==
            if f in q.values then Some(ToScalar(q.values[f], q.revision)) else Chosen(p, Field(q.entry, f))
  {
    assert Write(wanted, Field(q.entry, f)) == ConfirmWrite(q, Field(q.entry, f));
  }

  lemma RestorationAims(cs: Changes, q: Confirmation, fields: EntryFields, wanted: map<Register, Scalar>)
    requires Valid(cs) && Restores(cs, q, fields) && ConfirmAsks(wanted, q)
    ensures AimsAt(cs, q.entry, wanted, fields)
  {
    var e := q.entry;
    forall f | IsScalar(f) ensures After(cs, wanted, Field(e, f)) == Some(Data(ScalarOf(fields, f))) {
      AfterConfirm(cs, q, wanted, f);
      assert Value(q.values, f) == ResolutionOf(fields, cs, e, f);
    }
    forall x ensures AimsAtAttribute(cs, e, wanted, fields, x) {
      RestorationAimsAtAttribute(cs, q, fields, wanted, x);
    }
    forall x ensures AimsAtAttachment(cs, e, wanted, fields, x) {
      RestorationAimsAtAttachment(cs, q, fields, wanted, x);
    }
  }

  /** What has no object has nothing chosen. */
  lemma NoHolderNothingChosen(v: Changes, e: EntryId, f: EntryField)
    requires Valid(v) && !IsScalar(f) && !Written(v, HolderOf(e, f))
    ensures Chosen(v, Field(e, f)) == None
  {
    if Written(v, Field(e, f)) {
      PartHasHolder(v, e, f);
    }
    ChosenFits(v, Field(e, f));
  }

  lemma RestorationAimsAtAttribute(cs: Changes, q: Confirmation, fields: EntryFields, wanted: map<Register, Scalar>, x: AttributeId)
    requires Valid(cs) && Restores(cs, q, fields) && ConfirmAsks(wanted, q)
    ensures AimsAtAttribute(cs, q.entry, wanted, fields, x)
  {
    var e := q.entry;
    AfterConfirm(cs, q, wanted, AttributePresence(x));
    AfterConfirm(cs, q, wanted, AttributeName(x));
    AfterConfirm(cs, q, wanted, AttributeData(x));
    assert Value(q.values, AttributePresence(x)) == ResolutionOf(fields, cs, e, AttributePresence(x));
    assert Value(q.values, AttributeName(x)) == ResolutionOf(fields, cs, e, AttributeName(x));
    assert Value(q.values, AttributeData(x)) == ResolutionOf(fields, cs, e, AttributeData(x));
    ObjectIds(cs, e, x);
    if x !in AttributeIds(cs, e) {
      NoHolderNothingChosen(cs, e, AttributePresence(x));
    }
  }

  lemma RestorationAimsAtAttachment(cs: Changes, q: Confirmation, fields: EntryFields, wanted: map<Register, Scalar>, x: AttachmentId)
    requires Valid(cs) && Restores(cs, q, fields) && ConfirmAsks(wanted, q)
    ensures AimsAtAttachment(cs, q.entry, wanted, fields, x)
  {
    var e := q.entry;
    AfterConfirm(cs, q, wanted, AttachmentPresence(x));
    AfterConfirm(cs, q, wanted, AttachmentName(x));
    AfterConfirm(cs, q, wanted, AttachmentBlob(x));
    assert Value(q.values, AttachmentPresence(x)) == ResolutionOf(fields, cs, e, AttachmentPresence(x));
    assert Value(q.values, AttachmentName(x)) == ResolutionOf(fields, cs, e, AttachmentName(x));
    assert Value(q.values, AttachmentBlob(x)) == ResolutionOf(fields, cs, e, AttachmentBlob(x));
    ObjectIds(cs, e, x);
    if x !in AttachmentIds(cs, e) {
      NoHolderNothingChosen(cs, e, AttachmentPresence(x));
    }
  }

  /**
   Restoring is exact: the restored document projects to the saved fields, including what was
   added or removed since, stands in the named group, and has a single variant in every written field.
   */
  lemma RestorationIsExact(cs: Changes, ds: Changes, q: Confirmation, fields: EntryFields, now: Timestamp, a: Actor, c: Change)
    requires Valid(cs) && Faithful(cs) && ValidForm(fields)
    requires Restores(cs, q, fields) && Confirmed(cs, ds, q, now, a, c)
    ensures Project(ds, q.entry) == fields
    ensures Chosen(ds, Home(q.entry)) == Some(HomeRef(q.home.value))
    ensures forall f :: f in q.values ==> exists b :: Visible(ds, Field(q.entry, f)) == {b}
  {
    HeadsSeeAll(cs);
    ConfirmKeepsSound(cs, ds, q, now, a, c);
    var wanted :| ConfirmAsks(wanted, q) && Committed(cs, a, c, q.base, wanted);
    ConfirmChooses(cs, q, a, c, wanted);
    RestorationAims(cs, q, fields, wanted);
    WrittenAfter(cs, a, c, EntryObject(q.entry));
    TargetReached(cs, ds, q.entry, wanted, fields);
  }

  /** What is chosen, and visible alone, after a confirmation at everything there is. */
  lemma ConfirmChooses(cs: Changes, q: Confirmation, a: Actor, c: Change, wanted: map<Register, Scalar>)
    requires Causal(cs) && a !in cs && ConfirmAsks(wanted, q) && Recorded(cs, c, wanted)
    ensures Chooses(cs, cs[a := c], wanted)
    ensures q.home.Some? ==> Chosen(cs[a := c], Home(q.entry)) == Some(HomeRef(q.home.value))
    ensures forall f :: f in q.values ==> exists b :: Visible(cs[a := c], Field(q.entry, f)) == {b}
  {
    forall r
      ensures Chosen(cs[a := c], r) == After(cs, wanted, r)
      ensures r in wanted ==> exists b :: Visible(cs[a := c], r) == {b}
    {
      CommitChooses(cs, a, c, wanted, r);
    }
    assert Write(wanted, Home(q.entry)) == ConfirmWrite(q, Home(q.entry));
    ConfirmPointwise(wanted, q);
    forall f | f in q.values ensures exists b :: Visible(cs[a := c], Field(q.entry, f)) == {b} {
      assert ConfirmWrite(q, Field(q.entry, f)).Some?;
      assert Field(q.entry, f) in wanted;
    }
  }
}
