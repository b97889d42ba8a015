/**
 What holds of every document that drafts, edits, resolutions, restorations, purges and
 merges can produce: deletions win, protection holds, history is a two-phase set, and every
 visible blob alternative is retained.
 */
module Laws {
  import Text
  import opened Wrappers
  import opened Operations
  import opened Entries
  import opened CausalDocument
  import opened Selection
  import opened Projection
  import opened Soundness
  import opened Drafts

  // ----- what a change put is chosen in its own view

  lemma OwnPutIsChosen(cs: Changes, b: Actor, r: Register)
    requires Valid(cs) && b in cs && r in cs[b].puts
    ensures Visible(Upto(cs, b), r) == {b} && Chosen(Upto(cs, b), r) == Some(cs[b].puts[r].scalar)
  {
    ViewsAreValid(cs, b);
    OverIsPast(cs, b, r);
    PutEffect(Before(cs, b), b, cs[b], r);
    assert Before(cs, b)[b := cs[b]] == Upto(cs, b);
    OnlyVisibleIsChosen(Upto(cs, b), r, b);
  }

  /** A put that is no longer visible was overwritten by a change that had seen it. */
  lemma Overwriter(cs: Changes, a: Actor, r: Register) returns (b: Actor)
    requires Valid(cs) && a in cs && r in cs[a].puts && a !in Visible(cs, r)
    ensures b in cs && r in cs[b].puts && a in cs[b].puts[r].over && a in cs[b].past
    ensures cs[b].puts[r].over == Visible(Before(cs, b), r) && cs[a].past < cs[b].past
  {
    b :| b in cs && r in cs[b].puts && a in cs[b].puts[r].over;
    OverIsPast(cs, b, r);
    PastIsTransitive(cs, b, a);
  }

  /** The row of a change lists its own view. */
  lemma RowIsTrue(cs: Changes, b: Actor)
    requires Faithful(cs) && b in cs && cs[b].row.Some?
    ensures var row, v := cs[b].row.value, Upto(cs, b);
            && row.snapshot.attributes == AttributesOf(v, row.entry)
            && row.snapshot.attachments == AttachmentsOf(v, row.entry)
            && row.snapshot.icon == IconOf(Selected(v, row.entry, Icon))
            && (row.submitted.Some? ==> row.submitted.value == row.snapshot)
  {
    assert RowTrue(Upto(cs, b), b);
  }

  /** Except for resolutions, a written part is present in the view of its own change. */
  lemma WrittenPartIsPresent(cs: Changes, b: Actor, e: EntryId, f: EntryField)
    requires Valid(cs) && b in cs && Field(e, f) in cs[b].puts && !IsScalar(f) && !IsPresence(f)
    requires cs[b].row.Some? && cs[b].row.value.kind != Resolve
    ensures Present(Upto(cs, b), e, PresenceOf(f))
  {
    PutMarksPresence(cs, b, e, f);
    OwnPutIsChosen(cs, b, Field(e, PresenceOf(f)));
  }

  lemma PutMarksPresence(cs: Changes, b: Actor, e: EntryId, f: EntryField)
    requires Valid(cs) && b in cs && Field(e, f) in cs[b].puts && !IsScalar(f) && !IsPresence(f)
    requires cs[b].row.Some? && cs[b].row.value.kind != Resolve
    ensures Field(e, PresenceOf(f)) in cs[b].puts
    ensures cs[b].puts[Field(e, PresenceOf(f))].scalar.Mark? && cs[b].puts[Field(e, PresenceOf(f))].scalar.alive
  {
    PutHasRow(cs, b, Field(e, f));
    ViewsAreValid(cs, b);
  }

  lemma ViewIsValid(cs: Changes, b: Actor)
    requires Valid(cs) && b in cs
    ensures Valid(Upto(cs, b)) && Valid(Before(cs, b))
  {
    ViewsAreValid(cs, b);
  }

  // ----- which value is chosen

  /** A stored value that takes priority: a protected attribute value, or a presence that deletes. */
  ghost predicate HoldsPriority(r: Register, s: Scalar)
  {
    && r.Field?
    && ((r.field.AttributeData? && exists text :: s == Data(DataValue(AttributeValue(text, true))))
        || ((r.field.AttributePresence? || r.field.AttachmentPresence?) && exists revision :: s == Mark(false, revision)))
  }

  /** The put of `b` has the greater counter, or at equal counters its actor the greater first different character. */
  ghost predicate PutLater(v: Changes, r: Register, a: Actor, b: Actor)
    requires a in v && r in v[a].puts && b in v && r in v[b].puts
  {
    v[a].puts[r].counter < v[b].puts[r].counter
    || (v[a].puts[r].counter == v[b].puts[r].counter && Text.Earlier(a, b))
  }

  /** Priority first, then numbers and characters: nothing visible beats the put of `a`. */
  ghost predicate Greatest(v: Changes, r: Register, a: Actor)
  {
    && a in Visible(v, r)
    && forall b :: b in Visible(v, r) && b != a ==>
         if HoldsPriority(r, v[b].puts[r].scalar) == HoldsPriority(r, v[a].puts[r].scalar) then PutLater(v, r, b, a)
         else HoldsPriority(r, v[a].puts[r].scalar)
  }

  lemma PriorityIsHeld(r: Register, s: Scalar)
    requires Fits(r, s)
    ensures TakesPriority(PriorityOf(r), Decoded(s)) <==> HoldsPriority(r, s)
  {
    if r.Field? && IsPresence(r.field) && Decoded(s) == PresenceValue(false) {
      assert s == Mark(false, s.revision);
    }
  }

  lemma PutBeaten(v: Changes, r: Register, a: Actor, b: Actor)
    requires Valid(v) && a in v && r in v[a].puts && b in v && r in v[b].puts
    ensures Outranked(PriorityOf(r), SourceOf(v, r, b), SourceOf(v, r, a)) <==>
            if HoldsPriority(r, v[b].puts[r].scalar) == HoldsPriority(r, v[a].puts[r].scalar) then PutLater(v, r, b, a)
            else HoldsPriority(r, v[a].puts[r].scalar)
  {
    PutFits(v, a, r);
    PutFits(v, b, r);
    PriorityIsHeld(r, v[a].puts[r].scalar);
    PriorityIsHeld(r, v[b].puts[r].scalar);
    OutrankedMeans(PriorityOf(r), SourceOf(v, r, b), SourceOf(v, r, a));
  }

  /** A register chooses the greatest visible put, and that put alone. */
  lemma GreatestIsChosen(v: Changes, r: Register, a: Actor)
    requires Valid(v) && Greatest(v, r, a)
    ensures Chosen(v, r) == Some(v[a].puts[r].scalar)
  {
    forall t | t in Sources(v, r) ensures t == SourceOf(v, r, a) || Outranked(PriorityOf(r), t, SourceOf(v, r, a)) {
      var b :| b in v && r in v[b].puts && Uncovered(v, r, b) && SourceOf(v, r, b) == t;
      assert b in Visible(v, r);
      PutBeaten(v, r, a, b);
    }
    assert SourceOf(v, r, a) in Sources(v, r);
    ChosenIsBest(v, r, a);
  }

  /** What is chosen is the greatest visible put; a written register has one. */
  lemma ChosenIsGreatest(v: Changes, r: Register) returns (a: Actor)
    requires Valid(v) && Chosen(v, r).Some?
    ensures Greatest(v, r, a) && Chosen(v, r) == Some(v[a].puts[r].scalar)
  {
    a := BestOf(v, r);
    forall b | b in Visible(v, r) && b != a
      ensures if HoldsPriority(r, v[b].puts[r].scalar) == HoldsPriority(r, v[a].puts[r].scalar) then PutLater(v, r, b, a)
              else HoldsPriority(r, v[a].puts[r].scalar)
    {
      assert SourceOf(v, r, b) in Sources(v, r);
      PutBeaten(v, r, a, b);
    }
  }

  /** Without priorities, the greatest counter wins. */
  lemma LatestCounterIsChosen(v: Changes, r: Register, a: Actor)
    requires Valid(v) && a in Visible(v, r)
    requires forall b :: b in Visible(v, r) ==> !HoldsPriority(r, v[b].puts[r].scalar)
    requires forall b :: b in Visible(v, r) && b != a ==> v[b].puts[r].counter < v[a].puts[r].counter
    ensures Chosen(v, r) == Some(v[a].puts[r].scalar)
  {
    GreatestIsChosen(v, r, a);
  }

  /** A change that had seen another's put of a register ranks above it there. */
  lemma NewerRanksAbove(cs: Changes, a: Actor, b: Actor, r: Register)
    requires Valid(cs) && a in cs && b in cs[a].past && r in cs[a].puts && r in cs[b].puts
    ensures cs[b].puts[r].counter < cs[a].puts[r].counter
  {
    ViewsAreValid(cs, a);
    assert b in Before(cs, a);
  }

  // ----- what a form shows

  /** The presence of an attribute or attachment is chosen, and alive. */
  ghost predicate ChosenAlive(v: Changes, r: Register)
  {
    exists revision :: Chosen(v, r) == Some(Mark(true, revision))
  }

  ghost predicate ShowsAttribute(v: Changes, e: EntryId, form: EntryFields, x: AttributeId)
  {
    && (x in form.attributes <==> ChosenAlive(v, Field(e, AttributePresence(x))))
    && (x in form.attributes ==>
          && form.attributes[x].id == x
          && Chosen(v, Field(e, AttributeName(x))) == Some(Data(TextValue(Some(form.attributes[x].name))))
          && Chosen(v, Field(e, AttributeData(x))) == Some(Data(DataValue(form.attributes[x].value))))
  }

  ghost predicate ShowsAttachment(v: Changes, e: EntryId, form: EntryFields, x: AttachmentId)
  {
    && (x in form.attachments <==> ChosenAlive(v, Field(e, AttachmentPresence(x))))
    && (x in form.attachments ==>
          && form.attachments[x].id == x
          && Chosen(v, Field(e, AttachmentName(x))) == Some(Data(TextValue(Some(form.attachments[x].name))))
          && Chosen(v, Field(e, AttachmentBlob(x))) == Some(Data(BlobValue(form.attachments[x].blob))))
  }

  /** The scalar parts of a form, against the value that stands for each field. */
  ghost predicate ShowsScalars(chosen: EntryField -> Option<Scalar>, form: EntryFields)
  {
    && chosen(Title) == Some(Data(TextValue(Some(form.title))))
    && chosen(Username) == Some(Data(TextValue(form.username)))
    && chosen(Password) == Some(Data(TextValue(form.password)))
    && chosen(Url) == Some(Data(TextValue(form.url)))
    && chosen(Notes) == Some(Data(TextValue(form.notes)))
    && chosen(Tags) == Some(Data(TagsValue(form.tags)))
    && chosen(ExpiresAt) == Some(Data(TimeValue(form.expiresAt)))
    && chosen(Icon) == Some(Data(IconValue(form.icon)))
    && chosen(Foreground) == Some(Data(ColorValue(form.foreground)))
    && chosen(Background) == Some(Data(ColorValue(form.background)))
  }

  /** Each part of the form is what its own register chooses, and it has what is chosen alive. */
  ghost predicate ShowsForm(v: Changes, e: EntryId, form: EntryFields)
  {
    ShowsScalars(f => Chosen(v, Field(e, f)), form) && (forall x :: ShowsAttribute(v, e, form, x)) && (forall x :: ShowsAttachment(v, e, form, x))
  }

  lemma ScalarsShown(chosen: EntryField -> Option<Scalar>, form: EntryFields)
    requires forall f :: IsScalar(f) ==> chosen(f) == Some(Data(ScalarOf(form, f)))
    ensures ShowsScalars(chosen, form)
  {
    assert chosen(Title) == Some(Data(ScalarOf(form, Title))) && chosen(Username) == Some(Data(ScalarOf(form, Username)));
    assert chosen(Password) == Some(Data(ScalarOf(form, Password))) && chosen(Url) == Some(Data(ScalarOf(form, Url)));
    assert chosen(Notes) == Some(Data(ScalarOf(form, Notes))) && chosen(Tags) == Some(Data(ScalarOf(form, Tags)));
    assert chosen(ExpiresAt) == Some(Data(ScalarOf(form, ExpiresAt))) && chosen(Icon) == Some(Data(ScalarOf(form, Icon)));
    assert chosen(Foreground) == Some(Data(ScalarOf(form, Foreground))) && chosen(Background) == Some(Data(ScalarOf(form, Background)));
  }

  lemma AliveIsPresent(v: Changes, e: EntryId, f: EntryField)
    requires Valid(v) && IsPresence(f)
    ensures ChosenAlive(v, Field(e, f)) <==> Present(v, e, f)
  {
    ChosenFits(v, Field(e, f));
    if Present(v, e, f) {
      var s := Chosen(v, Field(e, f)).value;
      assert s == Mark(true, s.revision);
    }
  }

  lemma ProjectionShows(v: Changes, e: EntryId)
    requires Valid(v) && EntryIn(v, e)
    ensures ShowsForm(v, e, Project(v, e))
  {
    var chosen := f => Chosen(v, Field(e, f));
    forall f | IsScalar(f) ensures chosen(f) == Some(Data(ScalarOf(Project(v, e), f))) {
      ProjectScalar(v, e, f);
    }
    ScalarsShown(chosen, Project(v, e));
    forall x ensures ShowsAttribute(v, e, Project(v, e), x) {
      ProjectAttribute(v, e, x);
      AliveIsPresent(v, e, AttributePresence(x));
    }
    forall x ensures ShowsAttachment(v, e, Project(v, e), x) {
      ProjectAttachment(v, e, x);
      AliveIsPresent(v, e, AttachmentPresence(x));
    }
  }

  lemma ShownPartsAgree(v: Changes, e: EntryId, a: EntryFields, b: EntryFields, x: string)
    ensures ShowsAttribute(v, e, a, x) && ShowsAttribute(v, e, b, x) ==> Lookup(a.attributes, x) == Lookup(b.attributes, x)
    ensures ShowsAttachment(v, e, a, x) && ShowsAttachment(v, e, b, x) ==> Lookup(a.attachments, x) == Lookup(b.attachments, x)
  {
  }

  lemma ShownScalarsAgree(chosen: EntryField -> Option<Scalar>, a: EntryFields, b: EntryFields)
    requires ShowsScalars(chosen, a) && ShowsScalars(chosen, b) && a.attributes == b.attributes && a.attachments == b.attachments
    ensures a == b
  {
  }

  lemma ShownFormsAgree(v: Changes, e: EntryId, a: EntryFields, b: EntryFields)
    requires ShowsForm(v, e, a) && ShowsForm(v, e, b)
    ensures a == b
  {
    forall x
      ensures Lookup(a.attributes, x) == Lookup(b.attributes, x)
      ensures Lookup(a.attachments, x) == Lookup(b.attachments, x)
    {
      ShownPartsAgree(v, e, a, b, x);
    }
    SameLookups(a.attributes, b.attributes);
    SameLookups(a.attachments, b.attachments);
    ShownScalarsAgree(f => Chosen(v, Field(e, f)), a, b);
  }

  /** The projection of an entry is the one form whose every part is the value chosen for it. */
  lemma ProjectionMeans(v: Changes, e: EntryId, form: EntryFields)
    requires Valid(v) && EntryIn(v, e)
    ensures form == Project(v, e) <==> ShowsForm(v, e, form)
  {
    ProjectionShows(v, e);
    if ShowsForm(v, e, form) {
      ShownFormsAgree(v, e, form, Project(v, e));
    }
  }

  // ----- deletion

  ghost predicate Deletes(cs: Changes, a: Actor, e: EntryId, f: EntryField)
  {
    a in cs && Field(e, f) in cs[a].puts && cs[a].puts[Field(e, f)].scalar.Mark? && !cs[a].puts[Field(e, f)].scalar.alive
  }

  /** `b` brought back, explicitly and knowingly, what `a` had deleted. */
  ghost predicate Revives(cs: Changes, b: Actor, a: Actor, e: EntryId, f: EntryField)
  {
    && b in cs && a in cs[b].past
    && Field(e, f) in cs[b].puts && cs[b].puts[Field(e, f)].scalar.Mark? && cs[b].puts[Field(e, f)].scalar.alive
    && cs[b].row.Some? && (cs[b].row.value.kind == Restore || cs[b].row.value.kind == Resolve)
  }

  lemma OverwritesDeletion(cs: Changes, b: Actor, a: Actor, e: EntryId, f: EntryField)
    requires Valid(cs) && IsPresence(f) && Deletes(cs, a, e, f)
    requires b in cs && Field(e, f) in cs[b].puts && a in cs[b].puts[Field(e, f)].over
    ensures cs[b].row.Some? && (cs[b].row.value.kind == Restore || cs[b].row.value.kind == Resolve)
    ensures cs[b].puts[Field(e, f)].scalar.Mark?
  {
    PutHasRow(cs, b, Field(e, f));
    ViewsAreValid(cs, b);
    OverIsPast(cs, b, Field(e, f));
    assert NoRevival(Before(cs, b), cs[b], cs[b].row.value);
  }

  /**
   Deletion wins for good: if a document holds a deletion and the thing deleted is present
   nevertheless, then some restoration or resolution that had seen the deletion brought it back.
   */
  lemma {:induction false} DeletionWins(cs: Changes, e: EntryId, f: EntryField, a: Actor) returns (b: Actor)
    requires Valid(cs) && IsPresence(f) && Deletes(cs, a, e, f) && Present(cs, e, f)
    ensures Revives(cs, b, a, e, f)
    decreases cs.Keys - cs[a].past
  {
    PresentMeansNoDeletion(cs, e, f);
    b := Overwriter(cs, a, Field(e, f));
    OverwritesDeletion(cs, b, a, e, f);
    if !cs[b].puts[Field(e, f)].scalar.alive {
      var d := b;
      assert a in cs.Keys - cs[a].past;
      b := DeletionWins(cs, e, f, d);
      PastIsTransitive(cs, b, d);
    }
  }

  /** The attribute or attachment of a presence field is in the form. */
  predicate InForm(fields: EntryFields, f: EntryField)
    requires IsPresence(f)
  {
    if f.AttributePresence? then f.attribute in fields.attributes else f.attachment in fields.attachments
  }

  /** Without such a confirmation nothing deleted is in the form. */
  lemma DeletedStaysAbsent(cs: Changes, e: EntryId, f: EntryField, a: Actor)
    requires Valid(cs) && IsPresence(f) && Deletes(cs, a, e, f)
    requires forall b :: !Revives(cs, b, a, e, f)
    ensures !InForm(Project(cs, e), f)
  {
    if f.AttributePresence? {
      AttributeKeys(cs, e, f.attribute);
    } else {
      AttachmentKeys(cs, e, f.attachment);
    }
    if Present(cs, e, f) {
      var b := DeletionWins(cs, e, f, a);
    }
  }

  // ----- protection

  ghost predicate Conceals(cs: Changes, a: Actor, e: EntryId, x: AttributeId)
  {
    a in cs && Field(e, AttributeData(x)) in cs[a].puts && DataOf(Decoded(cs[a].puts[Field(e, AttributeData(x))].scalar)).concealed
  }

  /**
   `b` had seen `a`, its base showed a protected value, and it wrote an unprotected one; if it
   saved a form, the form says so.
   */
  ghost predicate Exposes(cs: Changes, b: Actor, a: Actor, e: EntryId, x: AttributeId)
  {
    var r := Field(e, AttributeData(x));
    && b in cs && a in cs[b].past && r in cs[b].puts
    && !DataOf(Decoded(cs[b].puts[r].scalar)).concealed
    && DataOf(Selected(Before(cs, b), e, AttributeData(x))).concealed
    && cs[b].row.Some?
    && (cs[b].row.value.submitted.Some? && cs[b].row.value.kind != Resolve ==>
          && x in cs[b].row.value.submitted.value.attributes
          && !cs[b].row.value.submitted.value.attributes[x].value.concealed)
  }

  lemma ProtectedVisibleIsSelected(v: Changes, e: EntryId, x: AttributeId, a: Actor)
    requires Valid(v) && a in Visible(v, Field(e, AttributeData(x))) && Conceals(v, a, e, x)
    ensures DataOf(Selected(v, e, AttributeData(x))).concealed
  {
    var r := Field(e, AttributeData(x));
    PutHasRow(v, a, r);
    BestExists(v, r);
    var b :| IsBest(v, r, b);
    ChosenIsBest(v, r, b);
    FavouredWins(v, r, b, a);
  }

  /** The form of a save contains every attribute value the save wrote. */
  lemma SubmittedHasWritten(cs: Changes, b: Actor, e: EntryId, x: AttributeId)
    requires Valid(cs) && Faithful(cs) && b in cs && Field(e, AttributeData(x)) in cs[b].puts
    requires cs[b].row.Some? && cs[b].row.value.kind != Resolve && cs[b].row.value.submitted.Some?
    ensures var fields := cs[b].row.value.submitted.value;
            x in fields.attributes && fields.attributes[x].value == DataOf(Decoded(cs[b].puts[Field(e, AttributeData(x))].scalar))
  {
    PutHasRow(cs, b, Field(e, AttributeData(x)));
    ViewIsValid(cs, b);
    OwnPutIsChosen(cs, b, Field(e, AttributeData(x)));
    WrittenPartIsPresent(cs, b, e, AttributeData(x));
    ProjectAttribute(Upto(cs, b), e, x);
    RowIsTrue(cs, b);
  }

  /** Protection holds until a confirmation whose base showed it protected writes an unprotected value. */
  lemma {:induction false} ProtectionHolds(cs: Changes, e: EntryId, x: AttributeId, a: Actor) returns (b: Actor)
    requires Valid(cs) && Faithful(cs) && Conceals(cs, a, e, x)
    requires !DataOf(Selected(cs, e, AttributeData(x))).concealed
    ensures Exposes(cs, b, a, e, x)
    decreases cs.Keys - cs[a].past
  {
    var r := Field(e, AttributeData(x));
    if a in Visible(cs, r) {
      ProtectedVisibleIsSelected(cs, e, x, a);
    }
    b := Overwriter(cs, a, r);
    PutHasRow(cs, b, r);
    if Conceals(cs, b, e, x) {
      var d := b;
      b := ProtectionHolds(cs, e, x, d);
      PastIsTransitive(cs, b, d);
    } else {
      ViewIsValid(cs, b);
      assert Before(cs, b)[a] == cs[a];
      ProtectedVisibleIsSelected(Before(cs, b), e, x, a);
      if cs[b].row.value.submitted.Some? && cs[b].row.value.kind != Resolve {
        SubmittedHasWritten(cs, b, e, x);
      }
    }
  }

  // ----- history

  function Rows(cs: Changes, e: EntryId): set<RevisionId>
  {
    set a | a in cs && cs[a].row.Some? && cs[a].row.value.entry == e :: cs[a].row.value.id
  }

  function PurgedIds(cs: Changes): set<RevisionId>
  {
    set a, x | a in cs && x in cs[a].purged :: x
  }

  /** `history`: every confirmed row that no purge names. */
  function VisibleHistory(cs: Changes, e: EntryId): set<RevisionId>
  {
    Rows(cs, e) - PurgedIds(cs)
  }

  /** Merging joins confirmations and purges separately: nothing is invented, nothing comes back. */
  lemma HistoryMerges(cs: Changes, ds: Changes, e: EntryId)
    requires Agree(cs, ds)
    ensures VisibleHistory(cs + ds, e) == (Rows(cs, e) + Rows(ds, e)) - (PurgedIds(cs) + PurgedIds(ds))
  {
    var u := cs + ds;
    assert forall a :: a in cs ==> u[a] == cs[a];
    assert Rows(u, e) == Rows(cs, e) + Rows(ds, e);
    assert PurgedIds(u) == PurgedIds(cs) + PurgedIds(ds);
  }

  /** A change adds its own row, and hides exactly what it purges. */
  lemma HistoryGrows(cs: Changes, a: Actor, c: Change, e: EntryId)
    requires a !in cs
    ensures Rows(cs[a := c], e) == Rows(cs, e) + if c.row.Some? && c.row.value.entry == e then {c.row.value.id} else {}
    ensures PurgedIds(cs[a := c]) == PurgedIds(cs) + c.purged
  {
    var u := cs[a := c];
    assert forall b :: b in cs ==> u[b] == cs[b];
    assert u[a] == c;
  }

  // ----- blobs

  function IconBlobs(icon: IconRef): set<BlobId>
  {
    if icon.Image? then {icon.blob} else {}
  }

  /** What one snapshot refers to. */
  function FormBlobs(fields: EntryFields): set<BlobId>
  {
    IconBlobs(fields.icon) + set x | x in fields.attachments :: fields.attachments[x].blob
  }

  /** What the row of one change refers to, if it is about the entry and not purged. */
  function RowBlobs(cs: Changes, e: EntryId, a: Actor): set<BlobId>
    requires a in cs
  {
    if cs[a].row.Some? && cs[a].row.value.entry == e && cs[a].row.value.id !in PurgedIds(cs)
    then FormBlobs(cs[a].row.value.snapshot) else {}
  }

  function HistoryBlobs(cs: Changes, e: EntryId, seen: set<Actor>): set<BlobId>
  {
    set a, x | a in seen && a in cs && x in RowBlobs(cs, e, a) :: x
  }

  /** `blob_references` for one entry: the selected projection and every unpurged row. */
  ghost function Retained(cs: Changes, e: EntryId): set<BlobId>
  {
    FormBlobs(Project(cs, e)) + HistoryBlobs(cs, e, cs.Keys)
  }

  lemma SnapshotIsRetained(cs: Changes, e: EntryId, b: Actor)
    requires b in cs && cs[b].row.Some? && cs[b].row.value.entry == e && cs[b].row.value.id !in PurgedIds(cs)
    ensures FormBlobs(cs[b].row.value.snapshot) <= Retained(cs, e)
  {
    assert RowBlobs(cs, e, b) <= HistoryBlobs(cs, e, cs.Keys);
  }

  /** The snapshot of a change holds the blob it wrote to an attachment that was then present. */
  lemma SnapshotHoldsBlob(cs: Changes, e: EntryId, x: AttachmentId, b: Actor)
    requires Valid(cs) && Faithful(cs) && b in cs && Field(e, AttachmentBlob(x)) in cs[b].puts
    requires cs[b].row.Some? && cs[b].row.value.entry == e && Present(Upto(cs, b), e, AttachmentPresence(x))
    ensures BlobOf(Decoded(cs[b].puts[Field(e, AttachmentBlob(x))].scalar)) in FormBlobs(cs[b].row.value.snapshot)
  {
    ViewIsValid(cs, b);
    OwnPutIsChosen(cs, b, Field(e, AttachmentBlob(x)));
    ProjectAttachment(Upto(cs, b), e, x);
    RowIsTrue(cs, b);
    assert x in cs[b].row.value.snapshot.attachments;
  }

  /**
   Every visible attachment alternative is retained although only selected values are
   scanned: the change that wrote it carries a row whose snapshot holds it. A resolution is the
   exception, unless the attachment was present when it wrote.
   */
  lemma AttachmentAlternativesAreRetained(cs: Changes, e: EntryId, x: AttachmentId, b: Actor)
    requires Valid(cs) && Faithful(cs) && b in Visible(cs, Field(e, AttachmentBlob(x)))
    requires cs[b].row.Some? ==> cs[b].row.value.id !in PurgedIds(cs)
    requires cs[b].row.Some? && cs[b].row.value.kind == Resolve ==> Present(Upto(cs, b), e, AttachmentPresence(x))
    ensures BlobOf(Decoded(cs[b].puts[Field(e, AttachmentBlob(x))].scalar)) in Retained(cs, e)
    ensures forall blob :: cs[b].puts[Field(e, AttachmentBlob(x))].scalar == Data(BlobValue(blob)) ==> blob in Retained(cs, e)
  {
    PutHasRow(cs, b, Field(e, AttachmentBlob(x)));
    if cs[b].row.value.kind != Resolve {
      WrittenPartIsPresent(cs, b, e, AttachmentBlob(x));
    }
    SnapshotHoldsBlob(cs, e, x, b);
    SnapshotIsRetained(cs, e, b);
  }

  /** Every visible image icon is retained, whatever wrote it. */
  lemma IconAlternativesAreRetained(cs: Changes, e: EntryId, b: Actor)
    requires Valid(cs) && Faithful(cs) && b in Visible(cs, Field(e, Icon))
    requires cs[b].row.Some? ==> cs[b].row.value.id !in PurgedIds(cs)
    ensures forall blob, source :: cs[b].puts[Field(e, Icon)].scalar == Data(IconValue(Image(blob, source))) ==> blob in Retained(cs, e)
  {
    PutHasRow(cs, b, Field(e, Icon));
    OwnPutIsChosen(cs, b, Field(e, Icon));
    RowIsTrue(cs, b);
    SnapshotIsRetained(cs, e, b);
  }

  /** A form names a blob as its image or in an attachment. */
  ghost predicate Names(form: EntryFields, blob: BlobId)
  {
    (exists source :: form.icon == Image(blob, source)) || exists x :: x in form.attachments && form.attachments[x].blob == blob
  }

  /** The change holds a row about the entry, and no purge names it. */
  ghost predicate Remembers(cs: Changes, e: EntryId, a: Actor)
  {
    a in cs && cs[a].row.Some? && cs[a].row.value.entry == e && forall b :: b in cs ==> cs[a].row.value.id !in cs[b].purged
  }

  /** The projection names the blob, or the form of a confirmation that is not purged. */
  ghost predicate Mentions(cs: Changes, e: EntryId, blob: BlobId)
  {
    Names(Project(cs, e), blob) || exists a :: Remembers(cs, e, a) && Names(cs[a].row.value.snapshot, blob)
  }

  /** Exactly the mentioned blobs are retained. */
  lemma RetainedMeans(cs: Changes, e: EntryId, blob: BlobId)
    ensures blob in Retained(cs, e) <==> Mentions(cs, e, blob)
  {
    NamesMeans(Project(cs, e), blob);
    forall a | a in cs && cs[a].row.Some? ensures Names(cs[a].row.value.snapshot, blob) <==> blob in FormBlobs(cs[a].row.value.snapshot) {
      NamesMeans(cs[a].row.value.snapshot, blob);
    }
    if blob in HistoryBlobs(cs, e, cs.Keys) {
      var a :| a in cs && blob in RowBlobs(cs, e, a);
      assert Remembers(cs, e, a);
    }
    if a :| Remembers(cs, e, a) && Names(cs[a].row.value.snapshot, blob) {
      assert cs[a].row.value.id !in PurgedIds(cs);
      assert blob in RowBlobs(cs, e, a);
    }
  }

  lemma NamesMeans(form: EntryFields, blob: BlobId)
    ensures Names(form, blob) <==> blob in FormBlobs(form)
  {
    if form.icon.Image? && form.icon.blob == blob {
      assert form.icon == Image(blob, form.icon.source);
    }
  }
}
