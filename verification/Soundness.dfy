/**
 What every change in a document satisfies, and how one transaction adds a change. The
 invariant speaks only about a change and what it had seen, so it survives delivery of
 anything else, merging, and reading at an old base.
 */
module Soundness {
  import opened Wrappers
  import opened Operations
  import opened Entries
  import opened CausalDocument
  import opened Selection
  import opened Projection

  // ----- the invariant

  /** Scalars have the type of their register. */
  predicate Fits(r: Register, s: Scalar)
  {
    match r
    case Home(_) => s.HomeRef?
    case Field(_, f) => if IsPresence(f) then s.Mark? else s.Data? && ValidField(f, s.value)
    case Detail(_, DetailName) => s.Data? && s.value.TextValue? && s.value.text.Some? && s.value.text.value != ""
    case Detail(_, DetailDescription) => s.Data? && s.value.TextValue?
    case Detail(_, DetailIcon) => s.Data? && s.value.IconValue?
    case Detail(_, DetailPlacement) => s.Placement?
    case _ => s.MapObject?
  }

  /** Kinds of confirmation that come from a draft or a scalar edit. */
  predicate Ordinary(kind: Kind)
  {
    kind == Create || kind == Save || kind == Clone
  }

  ghost predicate EntryIn(v: Changes, e: EntryId)
  {
    Written(v, EntryObject(e))
  }

  ghost predicate RowIn(v: Changes, revision: RevisionId)
  {
    exists a :: a in v && v[a].row.Some? && v[a].row.value.id == revision
  }

  /** The presence that accompanies a part of an attribute or attachment. */
  function PresenceOf(f: EntryField): EntryField
    requires !IsScalar(f)
  {
    match f
    case AttributeName(x) => AttributePresence(x)
    case AttributeData(x) => AttributePresence(x)
    case AttributePresence(x) => f
    case AttachmentName(x) => AttachmentPresence(x)
    case AttachmentBlob(x) => AttachmentPresence(x)
    case AttachmentPresence(x) => f
  }

  /** The object that holds a part of an attribute or attachment. */
  function HolderOf(e: EntryId, f: EntryField): Register
    requires !IsScalar(f)
  {
    if OfAttribute(f) then AttributeObject(e, f.attribute) else AttachmentObject(e, f.attachment)
  }

  predicate IsHolder(r: Register)
  {
    r.AttributeObject? || r.AttachmentObject?
  }

  /** The three registers inside an attribute or attachment object. */
  predicate Inside(r: Register, part: Register)
    requires IsHolder(r)
  {
    part.Field? && !IsScalar(part.field) && HolderOf(part.entry, part.field) == r
  }

  /** What a change of an entry puts, given what it had seen. */
  ghost predicate SoundPuts(p: Changes, v: Changes, c: Change, row: StoredRevision)
  {
    var e := row.entry;
    && (forall r :: r in c.puts ==>
          && r.entry == e && !r.Detail? && Fits(r, c.puts[r].scalar)
          && (c.puts[r].scalar.Mark? ==> c.puts[r].scalar.revision == row.id))
    && EntryIn(v, e)
    && (EntryObject(e) in c.puts ==>
          !EntryIn(p, e) && Home(e) in c.puts && forall f :: IsScalar(f) ==> Field(e, f) in c.puts)
    && (forall r :: r in c.puts && IsHolder(r) ==> !Written(p, r) && forall part :: Inside(r, part) ==> part in c.puts)
    && (forall f :: Field(e, f) in c.puts && !IsScalar(f) ==> Written(v, HolderOf(e, f)))
    && (row.kind != Resolve ==> forall f :: Field(e, f) in c.puts && !IsScalar(f) && !IsPresence(f) ==>
          Field(e, PresenceOf(f)) in c.puts && c.puts[Field(e, PresenceOf(f))].scalar.Mark?
          && c.puts[Field(e, PresenceOf(f))].scalar.alive)
  }

  /** No confirmation of an ordinary kind overwrites a deletion. */
  ghost predicate NoRevival(p: Changes, c: Change, row: StoredRevision)
  {
    Ordinary(row.kind) ==>
      forall f, b :: IsPresence(f) && Field(row.entry, f) in c.puts && b in c.puts[Field(row.entry, f)].over && b in p
        && Field(row.entry, f) in p[b].puts && p[b].puts[Field(row.entry, f)].scalar.Mark?
        ==> p[b].puts[Field(row.entry, f)].scalar.alive
  }

  ghost predicate SoundAt(v: Changes, a: Actor)
    requires a in v
  {
    var c, p := v[a], v - {a};
    && (c.row.None? ==> forall r :: r in c.puts ==> r.Detail? && Fits(r, c.puts[r].scalar))
    && (c.row.Some? ==>
          var row := c.row.value;
          SoundPuts(p, v, c, row) && NoRevival(p, c, row) && !RowIn(p, row.id) && row.base == c.deps)
  }

  ghost predicate Valid(cs: Changes)
  {
    Causal(cs) && forall a {:trigger Upto(cs, a)} :: a in cs ==> SoundAt(Upto(cs, a), a)
  }

  /**
   A row stores the projection of its own transaction, which is the form that was submitted,
   and the operations it changed.
   */
  ghost predicate RowTrue(v: Changes, a: Actor)
    requires a in v
  {
    v[a].row.Some? ==>
      var row := v[a].row.value;
      && row.snapshot == Project(v, row.entry)
      && (row.submitted.Some? ==> row.submitted.value == row.snapshot)
      && row.changed == ChangedOperations(v[a].puts, a, row.kind)
  }

  ghost predicate Faithful(cs: Changes)
  {
    forall a {:trigger Upto(cs, a)} :: a in cs ==> RowTrue(Upto(cs, a), a)
  }

  ghost predicate Sound(cs: Changes)
  {
    Valid(cs) && Faithful(cs)
  }

  // ----- the invariant survives views, merges and extension

  lemma RestrictKeepsValid(cs: Changes, s: set<Actor>)
    requires Valid(cs) && forall a :: a in s && a in cs ==> cs[a].past <= s
    ensures Valid(Restrict(cs, s))
  {
    RestrictKeepsCausal(cs, s);
    forall a | a in Restrict(cs, s) ensures SoundAt(Upto(Restrict(cs, s), a), a) {
      UptoWithin(cs, Restrict(cs, s), a);
    }
  }

  lemma AtKeepsValid(cs: Changes, heads: set<Actor>)
    requires Valid(cs)
    ensures Valid(At(cs, heads))
  {
    DownIsClosed(cs, heads);
    forall a | a in At(cs, heads) ensures SoundAt(Upto(At(cs, heads), a), a) {
      UptoWithin(cs, At(cs, heads), a);
    }
  }

  lemma ViewsAreValid(cs: Changes, a: Actor)
    requires Valid(cs) && a in cs
    ensures Valid(Upto(cs, a)) && Valid(Before(cs, a)) && Upto(cs, a) - {a} == Before(cs, a)
    ensures Ordered(Upto(cs, a), a) && SoundAt(Upto(cs, a), a)
  {
    forall b | b in cs[a].past ensures cs[b].past <= cs[a].past {
      PastIsTransitive(cs, a, b);
    }
    RestrictKeepsValid(cs, cs[a].past + {a});
    RestrictKeepsValid(cs, cs[a].past);
  }

  lemma UnionKeepsValid(cs: Changes, ds: Changes)
    requires Valid(cs) && Valid(ds) && Agree(cs, ds)
    ensures Valid(cs + ds)
  {
    UnionKeepsCausal(cs, ds);
    forall a | a in cs + ds ensures SoundAt(Upto(cs + ds, a), a) {
      if a in ds {
        UptoWithin(cs + ds, ds, a);
      } else {
        UptoWithin(cs + ds, cs, a);
      }
    }
  }

  lemma AtKeepsFaithful(cs: Changes, heads: set<Actor>)
    requires Valid(cs) && Faithful(cs)
    ensures Faithful(At(cs, heads))
  {
    DownIsClosed(cs, heads);
    forall a | a in At(cs, heads) ensures RowTrue(Upto(At(cs, heads), a), a) {
      UptoWithin(cs, At(cs, heads), a);
    }
  }

  lemma UnionKeepsFaithful(cs: Changes, ds: Changes)
    requires Valid(cs) && Valid(ds) && Faithful(cs) && Faithful(ds) && Agree(cs, ds)
    ensures Faithful(cs + ds)
  {
    UnionKeepsCausal(cs, ds);
    forall a | a in cs + ds ensures RowTrue(Upto(cs + ds, a), a) {
      if a in ds {
        UptoWithin(cs + ds, ds, a);
      } else {
        UptoWithin(cs + ds, cs, a);
      }
    }
  }

  lemma ExtendKeepsFaithful(cs: Changes, a: Actor, c: Change)
    requires Valid(cs) && Faithful(cs) && a !in cs && c.past <= cs.Keys
    requires RowTrue(Restrict(cs, c.past)[a := c], a)
    ensures Faithful(cs[a := c])
  {
    ExtendKeepsViews(cs, a, c);
    var e := cs[a := c];
    forall b | b in e ensures RowTrue(Upto(e, b), b) {
      if b in cs {
        assert Upto(e, b) == Upto(cs, b);
      }
    }
  }

  lemma ExtendKeepsValid(cs: Changes, a: Actor, c: Change)
    requires Valid(cs) && a !in cs && c.past <= cs.Keys
    requires Ordered(Restrict(cs, c.past)[a := c], a) && SoundAt(Restrict(cs, c.past)[a := c], a)
    ensures Valid(cs[a := c])
    ensures Upto(cs[a := c], a) == Restrict(cs, c.past)[a := c] && Before(cs[a := c], a) == Restrict(cs, c.past)
  {
    ExtendKeepsCausal(cs, a, c);
    ExtendKeepsViews(cs, a, c);
  }

  // ----- what holds in every valid view

  lemma WrittenWithin(v: Changes, a: Actor, r: Register)
    requires a in v && Written(Upto(v, a), r)
    ensures Written(v, r)
  {
  }

  /** The change behind a put has a row about the same entry. */
  lemma PutHasRow(v: Changes, a: Actor, r: Register)
    requires Valid(v) && a in v && r in v[a].puts && !r.Detail?
    ensures v[a].row.Some? && v[a].row.value.entry == r.entry && Fits(r, v[a].puts[r].scalar)
    ensures v[a].puts[r].scalar.Mark? ==> v[a].puts[r].scalar.revision == v[a].row.value.id
    ensures EntryIn(v, r.entry)
  {
    ViewsAreValid(v, a);
    WrittenWithin(v, a, EntryObject(r.entry));
  }

  lemma PutPart(v: Changes, a: Actor, e: EntryId, f: EntryField)
    requires Valid(v) && a in v && Field(e, f) in v[a].puts && !IsScalar(f)
    ensures Written(Upto(v, a), HolderOf(e, f))
  {
    ViewsAreValid(v, a);
  }

  lemma PutHolder(v: Changes, a: Actor, r: Register, part: Register)
    requires Valid(v) && a in v && r in v[a].puts && IsHolder(r) && Inside(r, part)
    ensures part in v[a].puts
  {
    ViewsAreValid(v, a);
  }

  lemma PutEntry(v: Changes, a: Actor, e: EntryId)
    requires Valid(v) && a in v && EntryObject(e) in v[a].puts
    ensures Home(e) in v[a].puts && forall f :: IsScalar(f) ==> Field(e, f) in v[a].puts
  {
    ViewsAreValid(v, a);
  }

  lemma PartHasHolder(v: Changes, e: EntryId, f: EntryField)
    requires Valid(v) && !IsScalar(f) && Written(v, Field(e, f))
    ensures Written(v, HolderOf(e, f)) && EntryIn(v, e)
  {
    var a :| a in v && Field(e, f) in v[a].puts;
    PutHasRow(v, a, Field(e, f));
    PutPart(v, a, e, f);
    WrittenWithin(v, a, HolderOf(e, f));
  }

  lemma HolderHasParts(v: Changes, r: Register, part: Register)
    requires Valid(v) && IsHolder(r) && Written(v, r) && Inside(r, part)
    ensures Written(v, part) && EntryIn(v, r.entry)
  {
    var a :| a in v && r in v[a].puts;
    PutHasRow(v, a, r);
    PutHolder(v, a, r, part);
  }

  lemma EntryHasScalars(v: Changes, e: EntryId, f: EntryField)
    requires Valid(v) && EntryIn(v, e) && IsScalar(f)
    ensures Written(v, Field(e, f)) && Written(v, Home(e))
  {
    var a :| a in v && EntryObject(e) in v[a].puts;
    PutEntry(v, a, e);
  }

  lemma PutFits(v: Changes, a: Actor, r: Register)
    requires Valid(v) && a in v && r in v[a].puts
    ensures Fits(r, v[a].puts[r].scalar)
  {
    ViewsAreValid(v, a);
  }

  /** What is chosen has the type of its register. */
  lemma ChosenFits(v: Changes, r: Register)
    requires Valid(v)
    ensures Chosen(v, r).Some? <==> Written(v, r)
    ensures Chosen(v, r).Some? ==> Fits(r, Chosen(v, r).value)
  {
    WrittenIsVisible(v, r);
    if Visible(v, r) != {} {
      PutFits(v, BestOf(v, r), r);
    }
  }

  predicate IsText(f: EntryField)
  {
    f.Title? || f.Username? || f.Password? || f.Url? || f.Notes?
  }

  predicate IsColor(f: EntryField)
  {
    f.Foreground? || f.Background?
  }

  lemma FormText(v: Changes, e: EntryId, f: EntryField, attributes: map<AttributeId, Attribute>, attachments: map<AttachmentId, Attachment>)
    requires IsText(f) && ValidField(f, Selected(v, e, f))
    ensures ScalarOf(FormOf(v, e, attributes, attachments), f) == Selected(v, e, f)
  {
  }

  lemma FormColor(v: Changes, e: EntryId, f: EntryField, attributes: map<AttributeId, Attribute>, attachments: map<AttachmentId, Attachment>)
    requires IsColor(f) && ValidField(f, Selected(v, e, f))
    ensures ScalarOf(FormOf(v, e, attributes, attachments), f) == Selected(v, e, f)
  {
  }

  lemma FormTags(v: Changes, e: EntryId, f: EntryField, attributes: map<AttributeId, Attribute>, attachments: map<AttachmentId, Attachment>)
    requires f.Tags? && ValidField(f, Selected(v, e, f))
    ensures ScalarOf(FormOf(v, e, attributes, attachments), f) == Selected(v, e, f)
  {
  }

  lemma FormTime(v: Changes, e: EntryId, f: EntryField, attributes: map<AttributeId, Attribute>, attachments: map<AttachmentId, Attachment>)
    requires f.ExpiresAt? && ValidField(f, Selected(v, e, f))
    ensures ScalarOf(FormOf(v, e, attributes, attachments), f) == Selected(v, e, f)
  {
  }

  lemma FormIcon(v: Changes, e: EntryId, f: EntryField, attributes: map<AttributeId, Attribute>, attachments: map<AttachmentId, Attachment>)
    requires f.Icon? && ValidField(f, Selected(v, e, f))
    ensures ScalarOf(FormOf(v, e, attributes, attachments), f) == Selected(v, e, f)
  {
  }

  /** A typed selected scalar is in the form as it is. */
  lemma FormScalar(v: Changes, e: EntryId, f: EntryField, attributes: map<AttributeId, Attribute>, attachments: map<AttachmentId, Attachment>)
    requires IsScalar(f) && ValidField(f, Selected(v, e, f))
    ensures ScalarOf(FormOf(v, e, attributes, attachments), f) == Selected(v, e, f)
  {
    if IsText(f) {
      FormText(v, e, f, attributes, attachments);
    } else if IsColor(f) {
      FormColor(v, e, f, attributes, attachments);
    } else if f.Tags? {
      FormTags(v, e, f, attributes, attachments);
    } else if f.ExpiresAt? {
      FormTime(v, e, f, attributes, attachments);
    } else {
      FormIcon(v, e, f, attributes, attachments);
    }
  }

  /** The projection of an existing entry lists its selected scalars. */
  lemma ProjectScalar(v: Changes, e: EntryId, f: EntryField)
    requires Valid(v) && EntryIn(v, e) && IsScalar(f)
    ensures Chosen(v, Field(e, f)) == Some(Data(ScalarOf(Project(v, e), f)))
  {
    EntryHasScalars(v, e, f);
    ChosenFits(v, Field(e, f));
    FormScalar(v, e, f, AttributesOf(v, e), AttachmentsOf(v, e));
  }

  /** A present attribute or attachment has its object and all three of its parts. */
  lemma PresentIsComplete(v: Changes, e: EntryId, f: EntryField, part: EntryField)
    requires Valid(v) && IsPresence(f) && Present(v, e, f) && !IsScalar(part) && HolderOf(e, part) == HolderOf(e, f)
    ensures Written(v, HolderOf(e, f))
    ensures Chosen(v, Field(e, part)).Some? && Fits(Field(e, part), Chosen(v, Field(e, part)).value)
  {
    ChosenFits(v, Field(e, f));
    PartHasHolder(v, e, f);
    HolderHasParts(v, HolderOf(e, f), Field(e, part));
    ChosenFits(v, Field(e, part));
  }

  lemma AttributeKeys(v: Changes, e: EntryId, x: AttributeId)
    requires Valid(v)
    ensures x in AttributesOf(v, e) <==> Present(v, e, AttributePresence(x))
  {
    if Present(v, e, AttributePresence(x)) {
      PresentIsComplete(v, e, AttributePresence(x), AttributePresence(x));
      ObjectIds(v, e, x);
    }
  }

  lemma AttachmentKeys(v: Changes, e: EntryId, x: AttachmentId)
    requires Valid(v)
    ensures x in AttachmentsOf(v, e) <==> Present(v, e, AttachmentPresence(x))
  {
    if Present(v, e, AttachmentPresence(x)) {
      PresentIsComplete(v, e, AttachmentPresence(x), AttachmentPresence(x));
      ObjectIds(v, e, x);
    }
  }

  predicate IsName(f: EntryField)
  {
    f.AttributeName? || f.AttachmentName?
  }

  lemma FittingName(e: EntryId, f: EntryField, s: Scalar)
    requires IsName(f) && Fits(Field(e, f), s)
    ensures s == Data(TextValue(Some(NameOf(Decoded(s))))) && NameOf(Decoded(s)) != ""
  {
  }

  lemma FittingContent(e: EntryId, x: string, s: Scalar)
    ensures Fits(Field(e, AttributeData(x)), s) ==> s == Data(DataValue(DataOf(Decoded(s))))
    ensures Fits(Field(e, AttachmentBlob(x)), s) ==> s == Data(BlobValue(BlobOf(Decoded(s))))
  {
  }

  /** The chosen parts of a present attribute or attachment. */
  lemma ChosenParts(v: Changes, e: EntryId, f: EntryField, name: EntryField, content: EntryField) returns (n: Scalar, c: Scalar)
    requires Valid(v) && IsPresence(f) && Present(v, e, f) && IsName(name) && !IsScalar(content)
    requires HolderOf(e, name) == HolderOf(e, f) == HolderOf(e, content)
    ensures Chosen(v, Field(e, name)) == Some(n) && n == Data(TextValue(Some(NameOf(Selected(v, e, name))))) && NameOf(Selected(v, e, name)) != ""
    ensures Chosen(v, Field(e, content)) == Some(c) && Fits(Field(e, content), c) && Selected(v, e, content) == Decoded(c)
  {
    PresentIsComplete(v, e, f, name);
    PresentIsComplete(v, e, f, content);
    n, c := Chosen(v, Field(e, name)).value, Chosen(v, Field(e, content)).value;
    FittingName(e, name, n);
  }

  /** An attribute is in the form exactly when its presence is chosen alive. */
  lemma ProjectAttribute(v: Changes, e: EntryId, x: AttributeId)
    requires Valid(v)
    ensures x in AttributesOf(v, e) <==> Present(v, e, AttributePresence(x))
    ensures x in AttributesOf(v, e) ==>
              var attribute := AttributesOf(v, e)[x];
              && attribute.id == x && attribute.name != ""
              && Chosen(v, Field(e, AttributeName(x))) == Some(Data(TextValue(Some(attribute.name))))
              && Chosen(v, Field(e, AttributeData(x))) == Some(Data(DataValue(attribute.value)))
  {
    AttributeKeys(v, e, x);
    if x in AttributesOf(v, e) {
      var n, c := ChosenParts(v, e, AttributePresence(x), AttributeName(x), AttributeData(x));
      FittingContent(e, x, c);
    }
  }

  lemma ProjectAttachment(v: Changes, e: EntryId, x: AttachmentId)
    requires Valid(v)
    ensures x in AttachmentsOf(v, e) <==> Present(v, e, AttachmentPresence(x))
    ensures x in AttachmentsOf(v, e) ==>
              var attachment := AttachmentsOf(v, e)[x];
              && attachment.id == x && attachment.name != ""
              && Chosen(v, Field(e, AttachmentName(x))) == Some(Data(TextValue(Some(attachment.name))))
              && Chosen(v, Field(e, AttachmentBlob(x))) == Some(Data(BlobValue(attachment.blob)))
  {
    AttachmentKeys(v, e, x);
    if x in AttachmentsOf(v, e) {
      var n, c := ChosenParts(v, e, AttachmentPresence(x), AttachmentName(x), AttachmentBlob(x));
      FittingContent(e, x, c);
    }
  }

  /** Projections are always valid forms, so reading never fails on its own results. */
  lemma ProjectIsValidForm(v: Changes, e: EntryId)
    requires Valid(v) && EntryIn(v, e)
    ensures ValidForm(Project(v, e))
  {
    ProjectScalar(v, e, Title);
    ChosenFits(v, Field(e, Title));
    forall x | x in AttributesOf(v, e) ensures AttributesOf(v, e)[x].id == x && AttributesOf(v, e)[x].name != ""
    {
      ProjectAttribute(v, e, x);
    }
    forall x | x in AttachmentsOf(v, e) ensures AttachmentsOf(v, e)[x].id == x && AttachmentsOf(v, e)[x].name != ""
    {
      ProjectAttachment(v, e, x);
    }
  }

  // ----- one transaction

  /** A put of the one visible scalar is a no-op in the store; objects are always created. */
  ghost predicate Elided(p: Changes, r: Register, s: Scalar)
  {
    !s.MapObject? && exists b :: Visible(p, r) == {b} && p[b].puts[r].scalar == s
  }

  /** The puts a transaction over `p` records for the writes it was asked for. */
  ghost predicate Recorded(p: Changes, c: Change, wanted: map<Register, Scalar>)
  {
    && Numbered(c.puts)
    && (forall r :: r in c.puts <==> r in wanted && !Elided(p, r, wanted[r]))
    && (forall r :: r in c.puts ==> c.puts[r].scalar == wanted[r] && c.puts[r].over == Visible(p, r))
    && (forall r, b, q :: r in c.puts && b in p && q in p[b].puts ==> p[b].puts[q].counter < c.puts[r].counter)
  }

  /** `cs` with the change `c` of the fresh actor `a`, committed at `base`. */
  ghost predicate Committed(cs: Changes, a: Actor, c: Change, base: set<Actor>, wanted: map<Register, Scalar>)
  {
    && a !in cs && base <= cs.Keys
    && c.deps == base && c.past == Down(cs, base)
    && Recorded(At(cs, base), c, wanted)
  }

  lemma CommitIsOrdered(cs: Changes, a: Actor, c: Change, base: set<Actor>, wanted: map<Register, Scalar>)
    requires Causal(cs) && Committed(cs, a, c, base, wanted)
    ensures Restrict(cs, c.past) == At(cs, base) && Causal(At(cs, base)) && a !in At(cs, base)
    ensures Ordered(At(cs, base)[a := c], a)
  {
    var p := At(cs, base);
    DownIsClosed(cs, base);
    var v := p[a := c];
    assert v - {a} == p;
    assert base <= p.Keys;
    DownOfDown(cs, base);
    forall r | r in c.puts
      ensures c.puts[r].over == Visible(p, r)
      ensures forall b :: b in p && r in p[b].puts ==> p[b].puts[r].counter < c.puts[r].counter
    {
    }
  }

  lemma DownOfDown(cs: Changes, base: set<Actor>)
    requires Closed(cs) && base <= cs.Keys
    ensures Down(At(cs, base), base) == At(cs, base).Keys
  {
    var p := At(cs, base);
    assert base <= p.Keys;
    forall b | b in p ensures b in Down(p, base) {
      if b !in base {
        var h :| h in base && h in cs && b in cs[h].past;
        assert h in p && b in p[h].past;
      }
    }
  }

  /** What is chosen after the transaction: its own writes, and otherwise what was chosen before. */
  lemma CommitChooses(p: Changes, a: Actor, c: Change, wanted: map<Register, Scalar>, r: Register)
    requires Causal(p) && a !in p && Recorded(p, c, wanted)
    ensures Chosen(p[a := c], r) == if r in wanted then Some(wanted[r]) else Chosen(p, r)
    ensures r in wanted ==> exists b :: Visible(p[a := c], r) == {b}
  {
    var v := p[a := c];
    PutEffect(p, a, c, r);
    if r in c.puts {
      assert Visible(v, r) == {a};
      OnlyVisibleIsChosen(v, r, a);
    } else {
      SameVisibleSameChosen(v, p, r);
      if r in wanted {
        var b :| Visible(p, r) == {b} && p[b].puts[r].scalar == wanted[r];
        OnlyVisibleIsChosen(p, r, b);
      }
    }
  }

  /** Writes go to one entry, fit their registers, and create whole objects. */
  ghost predicate WantedObjects(p: Changes, e: EntryId, revision: RevisionId, wanted: map<Register, Scalar>)
  {
    && (forall r :: r in wanted ==>
          r.entry == e && !r.Detail? && Fits(r, wanted[r]) && (wanted[r].Mark? ==> wanted[r].revision == revision))
    && (EntryObject(e) in wanted <==> !EntryIn(p, e))
    && (EntryObject(e) in wanted ==> Home(e) in wanted && forall f :: IsScalar(f) ==> Field(e, f) in wanted)
    && (forall r :: r in wanted && IsHolder(r) ==> !Written(p, r) && forall part :: Inside(r, part) ==> part in wanted)
  }

  /** Parts are written into existing or new objects, witness presence, and revive nothing. */
  ghost predicate WantedParts(p: Changes, e: EntryId, revision: RevisionId, kind: Kind, wanted: map<Register, Scalar>)
  {
    forall f :: Field(e, f) in wanted && !IsScalar(f) ==>
      && (Written(p, HolderOf(e, f)) || HolderOf(e, f) in wanted)
      && (kind != Resolve && !IsPresence(f) ==>
            Field(e, PresenceOf(f)) in wanted && wanted[Field(e, PresenceOf(f))] == Mark(true, revision))
      && (Ordinary(kind) && IsPresence(f) ==> !DeletionVisible(p, Field(e, f)))
  }

  /** What an operation must guarantee about the writes it asks for. */
  ghost predicate WantedOk(p: Changes, e: EntryId, revision: RevisionId, kind: Kind, wanted: map<Register, Scalar>)
  {
    WantedObjects(p, e, revision, wanted) && WantedParts(p, e, revision, kind, wanted) && !RowIn(p, revision)
  }

  ghost predicate DeletionVisible(v: Changes, r: Register)
  {
    exists b :: b in Visible(v, r) && v[b].puts[r].scalar.Mark? && !v[b].puts[r].scalar.alive
  }

  /** Fresh marks and new objects are never elided. */
  lemma FreshIsRecorded(p: Changes, c: Change, e: EntryId, revision: RevisionId, kind: Kind, wanted: map<Register, Scalar>, r: Register)
    requires Valid(p) && Recorded(p, c, wanted) && WantedOk(p, e, revision, kind, wanted) && r in wanted
    requires wanted[r].Mark? || wanted[r].MapObject? || !Written(p, r)
    ensures r in c.puts
  {
    if b :| Visible(p, r) == {b} && p[b].puts[r].scalar == wanted[r] {
      assert b in Visible(p, r);
      PutHasRow(p, b, r);
    }
  }

  lemma CommitRevivesNothing(p: Changes, c: Change, row: StoredRevision, wanted: map<Register, Scalar>)
    requires Recorded(p, c, wanted) && WantedOk(p, row.entry, row.id, row.kind, wanted)
    ensures NoRevival(p, c, row)
  {
    var e := row.entry;
    forall f, b | IsPresence(f) && Field(e, f) in c.puts && b in c.puts[Field(e, f)].over && b in p
      && Ordinary(row.kind) && Field(e, f) in p[b].puts && p[b].puts[Field(e, f)].scalar.Mark?
      ensures p[b].puts[Field(e, f)].scalar.alive
    {
      assert !DeletionVisible(p, Field(e, f));
    }
  }

  lemma CommitIsSound(p: Changes, a: Actor, c: Change, wanted: map<Register, Scalar>)
    requires Valid(p) && a !in p && c.row.Some? && Recorded(p, c, wanted)
    requires WantedOk(p, c.row.value.entry, c.row.value.id, c.row.value.kind, wanted) && c.row.value.base == c.deps
    ensures SoundAt(p[a := c], a)
  {
    assert p[a := c] - {a} == p;
    CommitKeepsParts(p, a, c, wanted);
    CommitRevivesNothing(p, c, c.row.value, wanted);
  }

  lemma WrittenAfter(p: Changes, a: Actor, c: Change, r: Register)
    requires a !in p
    ensures Written(p[a := c], r) <==> Written(p, r) || r in c.puts
  {
    var v := p[a := c];
    if Written(p, r) {
      var b :| b in p && r in p[b].puts;
      assert b in v && v[b] == p[b];
    }
    assert a in v && v[a] == c;
  }

  lemma CommitKeepsParts(p: Changes, a: Actor, c: Change, wanted: map<Register, Scalar>)
    requires Valid(p) && a !in p && c.row.Some? && Recorded(p, c, wanted)
    requires WantedOk(p, c.row.value.entry, c.row.value.id, c.row.value.kind, wanted)
    ensures SoundPuts(p, p[a := c], c, c.row.value)
  {
    var v, row := p[a := c], c.row.value;
    var e := row.entry;
    WrittenAfter(p, a, c, EntryObject(e));
    if !EntryIn(p, e) {
      FreshIsRecorded(p, c, e, row.id, row.kind, wanted, EntryObject(e));
      forall f | IsScalar(f) ensures Field(e, f) in c.puts {
        NothingWithoutEntry(p, Field(e, f));
        FreshIsRecorded(p, c, e, row.id, row.kind, wanted, Field(e, f));
      }
      NothingWithoutEntry(p, Home(e));
      FreshIsRecorded(p, c, e, row.id, row.kind, wanted, Home(e));
    }
    forall r, part | r in c.puts && IsHolder(r) && Inside(r, part) ensures part in c.puts {
      if Written(p, part) {
        PartHasHolder(p, part.entry, part.field);
      }
      FreshIsRecorded(p, c, e, row.id, row.kind, wanted, part);
    }
    forall f | Field(e, f) in c.puts && !IsScalar(f) ensures Written(v, HolderOf(e, f)) {
      WrittenAfter(p, a, c, HolderOf(e, f));
      if HolderOf(e, f) in wanted {
        FreshIsRecorded(p, c, e, row.id, row.kind, wanted, HolderOf(e, f));
      }
    }
    forall f | row.kind != Resolve && Field(e, f) in c.puts && !IsScalar(f) && !IsPresence(f)
      ensures Field(e, PresenceOf(f)) in c.puts && c.puts[Field(e, PresenceOf(f))].scalar == Mark(true, row.id)
    {
      FreshIsRecorded(p, c, e, row.id, row.kind, wanted, Field(e, PresenceOf(f)));
    }
  }

  lemma NothingWithoutEntry(p: Changes, r: Register)
    requires Valid(p) && !EntryIn(p, r.entry) && !r.Detail?
    ensures !Written(p, r)
  {
    if Written(p, r) {
      var a :| a in p && r in p[a].puts;
      PutHasRow(p, a, r);
    }
  }

  /** A transaction whose writes are in order keeps the whole document valid. */
  lemma CommitKeepsValid(cs: Changes, a: Actor, c: Change, base: set<Actor>, wanted: map<Register, Scalar>)
    requires Valid(cs) && Committed(cs, a, c, base, wanted) && c.row.Some?
    requires WantedOk(At(cs, base), c.row.value.entry, c.row.value.id, c.row.value.kind, wanted) && c.row.value.base == c.deps
    ensures Valid(cs[a := c]) && Valid(At(cs, base)) && Valid(At(cs, base)[a := c])
    ensures Upto(cs[a := c], a) == At(cs, base)[a := c] && Before(cs[a := c], a) == At(cs, base)
  {
    CommitIsOrdered(cs, a, c, base, wanted);
    AtKeepsValid(cs, base);
    CommitIsSound(At(cs, base), a, c, wanted);
    ExtendKeepsValid(cs, a, c);
    ViewsAreValid(cs[a := c], a);
  }

  /** What a save consumes is exactly what it saw; unwritten registers are untouched. */
  lemma CommitConsumesWhatItSaw(cs: Changes, a: Actor, c: Change, base: set<Actor>, wanted: map<Register, Scalar>, r: Register)
    requires Valid(cs) && Committed(cs, a, c, base, wanted)
    ensures Visible(cs[a := c], r) ==
            if r in wanted && !Elided(At(cs, base), r, wanted[r])
            then Visible(cs, r) - Visible(At(cs, base), r) + {a} else Visible(cs, r)
  {
    DownIsClosed(cs, base);
    PutEffect(cs, a, c, r);
  }

  /** A transaction that writes only details of groups or of the database keeps the document valid. */
  lemma DetailsKeepValid(cs: Changes, a: Actor, c: Change, base: set<Actor>, wanted: map<Register, Scalar>)
    requires Valid(cs) && Faithful(cs) && Committed(cs, a, c, base, wanted) && c.row == None
    requires forall r :: r in wanted ==> r.Detail? && Fits(r, wanted[r])
    ensures Valid(cs[a := c]) && Faithful(cs[a := c])
  {
    CommitIsOrdered(cs, a, c, base, wanted);
    assert SoundAt(At(cs, base)[a := c], a);
    ExtendKeepsValid(cs, a, c);
    ExtendKeepsFaithful(cs, a, c);
  }

  // ----- delivery

  ghost predicate Within(cs: Changes, world: Changes)
  {
    forall a :: a in cs ==> a in world && world[a] == cs[a]
  }

  /** Changes whose dependencies are all at hand have everything they had seen at hand. */
  lemma {:induction false} DependenciesReach(world: Changes, s: set<Actor>, a: Actor)
    requires Causal(world) && s <= world.Keys && a in s && forall b :: b in s ==> world[b].deps <= s
    ensures world[a].past <= s
    decreases world[a].past
  {
    var p := Upto(world, a) - {a};
    assert Ordered(Upto(world, a), a);
    assert Down(p, world[a].deps) == world[a].past;
    forall b | b in world[a].past ensures b in s {
      if b !in world[a].deps {
        var h :| h in world[a].deps && h in p && b in p[h].past;
        PastIsTransitive(world, a, h);
        assert h in world[a].past && h !in world[h].past;
        DependenciesReach(world, s, h);
      }
    }
  }

  /** A dependency-complete batch leaves a sound document. */
  lemma BatchKeepsSound(cs: Changes, batch: Changes, world: Changes)
    requires Sound(world) && Sound(cs) && Within(cs, world) && Within(batch, world)
    requires forall a :: a in batch ==> batch[a].deps <= cs.Keys + batch.Keys
    ensures Sound(cs + batch)
  {
    var s := cs.Keys + batch.Keys;
    forall a | a in s ensures world[a].deps <= s {
      if a !in batch {
        assert Ordered(Upto(cs, a), a);
      }
    }
    forall a | a in s ensures world[a].past <= s {
      DependenciesReach(world, s, a);
    }
    assert cs + batch == Restrict(world, s);
    RestrictKeepsValid(world, s);
    forall a | a in Restrict(world, s) ensures RowTrue(Upto(Restrict(world, s), a), a) {
      UptoWithin(world, Restrict(world, s), a);
    }
  }
}
