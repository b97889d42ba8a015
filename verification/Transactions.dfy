/**
 Transactions that write an entry, from taypeer-document/src/fields.rs and binary.rs: puts are
 collected one by one against the view at the base, and `ApplyForm` puts a draft's difference.
 */
module Transactions {
  import opened Wrappers
  import opened Operations
  import opened Entries
  import opened CausalDocument
  import opened Projection
  import opened Soundness
  import opened Drafts
  import opened Confirmations

  /** Errors of `validate_field`. */
  function FieldError(f: EntryField, value: FieldValue): Error
  {
    if (f.Title? || f.AttributeName?) && value == TextValue(Some("")) then Validation else InvalidDocument
  }

  /** Every counter in the view is below `next`. */
  ghost predicate Above(v: Changes, next: nat)
  {
    forall b, q :: b in v && q in v[b].puts ==> v[b].puts[q].counter < next
  }

  /** What is recorded for one register: the asked scalar over everything visible, unless the put is elided. */
  ghost predicate RecordedAt(view: Changes, next: nat, puts: map<Register, Put>, wanted: map<Register, Scalar>, r: Register)
  {
    && (r in puts <==> r in wanted && !Elided(view, r, wanted[r]))
    && (r in puts ==>
          && puts[r].scalar == wanted[r] && puts[r].over == Visible(view, r)
          && Above(view, puts[r].counter) && puts[r].counter < next)
  }

  ghost predicate Recording(view: Changes, next: nat, puts: map<Register, Put>, wanted: map<Register, Scalar>)
  {
    forall r :: RecordedAt(view, next, puts, wanted, r)
  }

  /** The pending puts of one transaction over `view`. */
  class Transaction {
    const view: Changes
    var next: nat
    var puts: map<Register, Put>
    ghost var wanted: map<Register, Scalar>

    ghost predicate Valid()
      reads this
    {
      && Above(view, next)
      && Recording(view, next, puts, wanted)
      && Numbered(puts)
    }

    constructor (view: Changes, start: nat)
      requires Above(view, start)
      ensures Valid() && this.view == view && wanted == map[] && puts == map[]
    {
      this.view, next, puts, wanted := view, start, map[], map[];
    }

    /** Put one scalar; a put equal to the only visible one leaves no operation behind. */
    method Put(r: Register, s: Scalar)
      requires Valid() && r !in wanted
      modifies this
      ensures Valid() && wanted == old(wanted)[r := s]
      ensures puts.Keys == old(puts).Keys + if Elided(view, r, s) then {} else {r}
    {
      var visible := Visible(view, r);
      var same := false;
      if !s.MapObject? && |visible| == 1 {
        var b :| b in visible;
        Singleton(visible, b);
        same := view[b].puts[r].scalar == s;
      }
      ElidedExactly(view, r, s, same);
      assert RecordedAt(view, next, puts, wanted, r);
      PutKeepsRecorded(view, next, puts, wanted, r, s);
      if !same {
        puts := puts[r := CausalDocument.Put(next, s, visible)];
        next := next + 1;
      }
      wanted := wanted[r := s];
    }

    /** `put_field`: validate, find the object that holds the field, and put. */
    method PutField(e: EntryId, f: EntryField, value: FieldValue, revision: RevisionId) returns (ok: Result<(), Error>)
      requires Valid() && Causal(view) && Field(e, f) !in wanted
      modifies this
      ensures Valid()
      ensures ok.Ok? <==> ValidField(f, value) && (IsScalar(f) || Written(view, HolderOf(e, f)) || HolderOf(e, f) in old(puts))
      ensures ok.Err? ==> ok.error == if ValidField(f, value) then NotFound else FieldError(f, value)
      ensures wanted == if ok.Ok? then old(wanted)[Field(e, f) := ToScalar(value, revision)] else old(wanted)
      ensures old(puts).Keys <= puts.Keys <= old(puts).Keys + {Field(e, f)}
    {
      if !ValidField(f, value) {
        return Err(FieldError(f, value));
      }
      if !IsScalar(f) {
        WrittenIsVisible(view, HolderOf(e, f));
        if Visible(view, HolderOf(e, f)) == {} && HolderOf(e, f) !in puts {
          return Err(NotFound);
        }
      }
      Put(Field(e, f), ToScalar(value, revision));
      ok := Ok(());
    }
  }

  /** One more write, recorded or elided, keeps the transaction's bookkeeping. */
  lemma PutKeepsRecorded(view: Changes, next: nat, puts: map<Register, Put>, wanted: map<Register, Scalar>, r: Register, s: Scalar)
    requires Above(view, next) && r !in wanted && r !in puts
    requires Recording(view, next, puts, wanted)
    requires Numbered(puts)
    ensures Above(view, next + 1)
    ensures !Elided(view, r, s) ==>
              var more := puts[r := CausalDocument.Put(next, s, Visible(view, r))];
              && Recording(view, next + 1, more, wanted[r := s])
              && Numbered(more)
    ensures Elided(view, r, s) ==> Recording(view, next, puts, wanted[r := s])
  {
    var more := puts[r := CausalDocument.Put(next, s, Visible(view, r))];
    var asked, bound := wanted[r := s], next + 1;
    if Elided(view, r, s) {
      forall q ensures RecordedAt(view, next, puts, asked, q) {
        assert RecordedAt(view, next, puts, wanted, q);
      }
    } else {
      forall q ensures RecordedAt(view, bound, more, asked, q) {
        assert RecordedAt(view, next, puts, wanted, q);
      }
    }
    forall p, q | p in more && q in more && p != q ensures more[p].counter != more[q].counter {
      assert RecordedAt(view, next, puts, wanted, p) && RecordedAt(view, next, puts, wanted, q);
    }
  }

  lemma Singleton<T>(s: set<T>, x: T)
    requires |s| == 1 && x in s
    ensures s == {x}
  {
    assert |s - {x}| == 0;
  }

  lemma ElidedExactly(v: Changes, r: Register, s: Scalar, same: bool)
    requires same <==> !s.MapObject? && |Visible(v, r)| == 1 && forall b :: b in Visible(v, r) ==> v[b].puts[r].scalar == s
    ensures same <==> Elided(v, r, s)
  {
    if same {
      var b :| b in Visible(v, r);
      Singleton(Visible(v, r), b);
    }
  }

  // ----- applying a form

  /** A new object whose identity already names one at the base. */
  ghost predicate TakenAttribute(v: Changes, d: EntryDraft, x: AttributeId)
  {
    x in d.fields.attributes && OldAttribute(d, x).None? && Written(v, AttributeObject(d.entry, x))
  }

  ghost predicate TakenAttachment(v: Changes, d: EntryDraft, x: AttachmentId)
  {
    x in d.fields.attachments && OldAttachment(d, x).None? && Written(v, AttachmentObject(d.entry, x))
  }

  /** `m` after one more write, if there is one. */
  function With(m: map<Register, Scalar>, r: Register, write: Option<Scalar>): map<Register, Scalar>
  {
    if write.Some? then m[r := write.value] else m
  }

  /** The writes of one attribute or attachment, in the order the loops make them. */
  function WithObject(m: map<Register, Scalar>, d: EntryDraft, holder: Register, name: EntryField, content: EntryField, presence: EntryField): map<Register, Scalar>
  {
    var started := With(m, holder, DraftWrite(d, holder));
    var named := With(started, Field(d.entry, name), FieldWrite(d, name));
    var filled := With(named, Field(d.entry, content), FieldWrite(d, content));
    With(filled, Field(d.entry, presence), FieldWrite(d, presence))
  }

  /** `put_field`, when the form differs from the original there. */
  method PutDifference(tx: Transaction, d: EntryDraft, f: EntryField, differs: bool, value: FieldValue)
    requires tx.Valid() && Causal(tx.view) && ValidField(f, value) && Field(d.entry, f) !in tx.wanted
    requires differs && !IsScalar(f) ==> Written(tx.view, HolderOf(d.entry, f)) || HolderOf(d.entry, f) in tx.puts
    requires FieldWrite(d, f) == if differs then Some(ToScalar(value, d.revision)) else None
    modifies tx
    ensures tx.Valid() && tx.wanted == With(old(tx.wanted), Field(d.entry, f), FieldWrite(d, f))
    ensures old(tx.puts).Keys <= tx.puts.Keys
  {
    if differs {
      var ok := tx.PutField(d.entry, f, value, d.revision);
    }
  }

  /** A new object, unless its identity already names one. */
  method PutNewObject(tx: Transaction, d: EntryDraft, holder: Register, unknown: bool) returns (ok: Result<(), Error>)
    requires tx.Valid() && Causal(tx.view) && IsHolder(holder) && holder !in tx.wanted
    requires DraftWrite(d, holder) == if unknown then Some(MapObject) else None
    modifies tx
    ensures tx.Valid()
    ensures ok.Err? <==> unknown && Written(tx.view, holder)
    ensures ok.Err? ==> ok.error == DuplicateId
    ensures ok.Ok? ==> tx.wanted == With(old(tx.wanted), holder, DraftWrite(d, holder)) && (unknown ==> holder in tx.puts)
  {
    if unknown {
      WrittenIsVisible(tx.view, holder);
      if Visible(tx.view, holder) != {} {
        return Err(DuplicateId);
      }
      tx.Put(holder, MapObject);
    }
    ok := Ok(());
  }

  /** The body of the attribute loops of `apply_form`. */
  method ApplyAttribute(tx: Transaction, d: EntryDraft, x: AttributeId) returns (ok: Result<(), Error>)
    requires tx.Valid() && Causal(tx.view) && (x in d.fields.attributes ==> d.fields.attributes[x].name != "")
    requires OldAttribute(d, x).Some? ==> Written(tx.view, AttributeObject(d.entry, x))
    requires AttributeObject(d.entry, x) !in tx.wanted && Field(d.entry, AttributeName(x)) !in tx.wanted
    requires Field(d.entry, AttributeData(x)) !in tx.wanted && Field(d.entry, AttributePresence(x)) !in tx.wanted
    modifies tx
    ensures tx.Valid()
    ensures ok.Err? <==> TakenAttribute(tx.view, d, x)
    ensures ok.Err? ==> ok.error == DuplicateId
    ensures ok.Ok? ==>
              tx.wanted == WithObject(old(tx.wanted), d, AttributeObject(d.entry, x), AttributeName(x), AttributeData(x), AttributePresence(x))
  {
    var before := OldAttribute(d, x);
    if x in d.fields.attributes {
      var attribute := d.fields.attributes[x];
      if before == Some(attribute) {
        return Ok(());
      }
      ok := PutNewObject(tx, d, AttributeObject(d.entry, x), before == None);
      if ok.Err? {
        return;
      }
      PutDifference(tx, d, AttributeName(x), before == None || before.value.name != attribute.name, TextValue(Some(attribute.name)));
      PutDifference(tx, d, AttributeData(x), before == None || before.value.value != attribute.value, DataValue(attribute.value));
      PutDifference(tx, d, AttributePresence(x), true, PresenceValue(true));
    } else {
      PutDifference(tx, d, AttributePresence(x), before.Some?, PresenceValue(false));
      ok := Ok(());
    }
  }

  /** The body of the attachment loops of `apply_attachments`. */
  method ApplyAttachment(tx: Transaction, d: EntryDraft, x: AttachmentId) returns (ok: Result<(), Error>)
    requires tx.Valid() && Causal(tx.view) && (x in d.fields.attachments ==> d.fields.attachments[x].name != "")
    requires OldAttachment(d, x).Some? ==> Written(tx.view, AttachmentObject(d.entry, x))
    requires AttachmentObject(d.entry, x) !in tx.wanted && Field(d.entry, AttachmentName(x)) !in tx.wanted
    requires Field(d.entry, AttachmentBlob(x)) !in tx.wanted && Field(d.entry, AttachmentPresence(x)) !in tx.wanted
    modifies tx
    ensures tx.Valid()
    ensures ok.Err? <==> TakenAttachment(tx.view, d, x)
    ensures ok.Err? ==> ok.error == DuplicateId
    ensures ok.Ok? ==>
              tx.wanted == WithObject(old(tx.wanted), d, AttachmentObject(d.entry, x), AttachmentName(x), AttachmentBlob(x), AttachmentPresence(x))
  {
    var before := OldAttachment(d, x);
    if x in d.fields.attachments {
      var attachment := d.fields.attachments[x];
      if before == Some(attachment) {
        return Ok(());
      }
      ok := PutNewObject(tx, d, AttachmentObject(d.entry, x), before == None);
      if ok.Err? {
        return;
      }
      PutDifference(tx, d, AttachmentName(x), before == None || before.value.name != attachment.name, TextValue(Some(attachment.name)));
      PutDifference(tx, d, AttachmentBlob(x), before == None || before.value.blob != attachment.blob, BlobValue(attachment.blob));
      PutDifference(tx, d, AttachmentPresence(x), true, PresenceValue(true));
    } else {
      PutDifference(tx, d, AttachmentPresence(x), before.Some?, PresenceValue(false));
      ok := Ok(());
    }
  }

  // ----- what the loops have dealt with

  /** The parts of a form the loops have been through. */
  datatype Covered = Covered(scalars: set<EntryField>, attributes: set<AttributeId>, attachments: set<AttachmentId>)

  predicate Done(d: EntryDraft, r: Register, c: Covered)
  {
    r.entry == d.entry && match r {
      case EntryObject(_) => false
      case Home(_) => false
      case Detail(_, _) => false
      case AttributeObject(_, x) => x in c.attributes
      case AttachmentObject(_, x) => x in c.attachments
      case Field(_, f) =>
        if IsScalar(f) then f in c.scalars else if OfAttribute(f) then f.attribute in c.attributes else f.attachment in c.attachments
    }
  }

  /** Exactly the registers dealt with have been asked for, beyond what the transaction started with. */
  ghost predicate Progress(d: EntryDraft, start: map<Register, Scalar>, wanted: map<Register, Scalar>, c: Covered)
  {
    forall r :: Write(wanted, r) == if Done(d, r, c) then DraftWrite(d, r) else Write(start, r)
  }

  /** Only the entry object and its group may have been put before the form is applied. */
  ghost predicate Bare(start: map<Register, Scalar>)
  {
    forall r :: r in start ==> r.EntryObject? || r.Home?
  }

  lemma Untouched(d: EntryDraft, start: map<Register, Scalar>, wanted: map<Register, Scalar>, c: Covered, r: Register)
    requires Progress(d, start, wanted, c) && Bare(start) && !r.EntryObject? && !r.Home? && !Done(d, r, c)
    ensures r !in wanted
  {
    assert Write(wanted, r) == Write(start, r);
  }

  lemma ScalarProgress(d: EntryDraft, start: map<Register, Scalar>, wanted: map<Register, Scalar>, c: Covered, f: EntryField)
    requires Progress(d, start, wanted, c) && Bare(start) && IsScalar(f) && f !in c.scalars
    ensures Progress(d, start, With(wanted, Field(d.entry, f), FieldWrite(d, f)), c.(scalars := c.scalars + {f}))
  {
    var more := With(wanted, Field(d.entry, f), FieldWrite(d, f));
    Untouched(d, start, wanted, c, Field(d.entry, f));
    forall r ensures Write(more, r) == if Done(d, r, c.(scalars := c.scalars + {f})) then DraftWrite(d, r) else Write(start, r) {
      assert Write(wanted, r) == if Done(d, r, c) then DraftWrite(d, r) else Write(start, r);
    }
  }

  lemma WithObjectAt(m: map<Register, Scalar>, d: EntryDraft, holder: Register, name: EntryField, content: EntryField, presence: EntryField, r: Register)
    requires !holder.Field? && name != content && content != presence && name != presence && holder.entry == d.entry
    requires !IsScalar(name) && !IsScalar(content) && !IsScalar(presence)
    requires holder !in m && Field(d.entry, name) !in m && Field(d.entry, content) !in m && Field(d.entry, presence) !in m
    ensures Write(WithObject(m, d, holder, name, content, presence), r) ==
            if r == holder || r == Field(d.entry, name) || r == Field(d.entry, content) || r == Field(d.entry, presence)
            then DraftWrite(d, r) else Write(m, r)
  {
    assert DraftWrite(d, Field(d.entry, name)) == FieldWrite(d, name);
    assert DraftWrite(d, Field(d.entry, content)) == FieldWrite(d, content);
    assert DraftWrite(d, Field(d.entry, presence)) == FieldWrite(d, presence);
    var started := With(m, holder, DraftWrite(d, holder));
    var named := With(started, Field(d.entry, name), FieldWrite(d, name));
    var filled := With(named, Field(d.entry, content), FieldWrite(d, content));
    WithAt(m, holder, DraftWrite(d, holder), r);
    WithAt(started, Field(d.entry, name), FieldWrite(d, name), r);
    WithAt(named, Field(d.entry, content), FieldWrite(d, content), r);
    WithAt(filled, Field(d.entry, presence), FieldWrite(d, presence), r);
  }

  lemma WithAt(m: map<Register, Scalar>, r: Register, write: Option<Scalar>, q: Register)
    ensures Write(With(m, r, write), q) == if q == r && write.Some? then write else Write(m, q)
  {
  }

  lemma AttributeProgress(d: EntryDraft, start: map<Register, Scalar>, wanted: map<Register, Scalar>, c: Covered, x: AttributeId)
    requires Progress(d, start, wanted, c) && Bare(start) && x !in c.attributes
    ensures AttributeObject(d.entry, x) !in wanted && Field(d.entry, AttributeName(x)) !in wanted
    ensures Field(d.entry, AttributeData(x)) !in wanted && Field(d.entry, AttributePresence(x)) !in wanted
    ensures Progress(d, start, WithObject(wanted, d, AttributeObject(d.entry, x), AttributeName(x), AttributeData(x), AttributePresence(x)),
                     c.(attributes := c.attributes + {x}))
  {
    Untouched(d, start, wanted, c, AttributeObject(d.entry, x));
    Untouched(d, start, wanted, c, Field(d.entry, AttributeName(x)));
    Untouched(d, start, wanted, c, Field(d.entry, AttributeData(x)));
    Untouched(d, start, wanted, c, Field(d.entry, AttributePresence(x)));
    var more := WithObject(wanted, d, AttributeObject(d.entry, x), AttributeName(x), AttributeData(x), AttributePresence(x));
    forall r
      ensures Write(more, r) == if Done(d, r, c.(attributes := c.attributes + {x})) then DraftWrite(d, r) else Write(start, r)
    {
      WithObjectAt(wanted, d, AttributeObject(d.entry, x), AttributeName(x), AttributeData(x), AttributePresence(x), r);
      assert Write(wanted, r) == if Done(d, r, c) then DraftWrite(d, r) else Write(start, r);
    }
  }

  lemma AttachmentProgress(d: EntryDraft, start: map<Register, Scalar>, wanted: map<Register, Scalar>, c: Covered, x: AttachmentId)
    requires Progress(d, start, wanted, c) && Bare(start) && x !in c.attachments
    ensures AttachmentObject(d.entry, x) !in wanted && Field(d.entry, AttachmentName(x)) !in wanted
    ensures Field(d.entry, AttachmentBlob(x)) !in wanted && Field(d.entry, AttachmentPresence(x)) !in wanted
    ensures Progress(d, start, WithObject(wanted, d, AttachmentObject(d.entry, x), AttachmentName(x), AttachmentBlob(x), AttachmentPresence(x)),
                     c.(attachments := c.attachments + {x}))
  {
    Untouched(d, start, wanted, c, AttachmentObject(d.entry, x));
    Untouched(d, start, wanted, c, Field(d.entry, AttachmentName(x)));
    Untouched(d, start, wanted, c, Field(d.entry, AttachmentBlob(x)));
    Untouched(d, start, wanted, c, Field(d.entry, AttachmentPresence(x)));
    var more := WithObject(wanted, d, AttachmentObject(d.entry, x), AttachmentName(x), AttachmentBlob(x), AttachmentPresence(x));
    forall r
      ensures Write(more, r) == if Done(d, r, c.(attachments := c.attachments + {x})) then DraftWrite(d, r) else Write(start, r)
    {
      WithObjectAt(wanted, d, AttachmentObject(d.entry, x), AttachmentName(x), AttachmentBlob(x), AttachmentPresence(x), r);
      assert Write(wanted, r) == if Done(d, r, c) then DraftWrite(d, r) else Write(start, r);
    }
  }

  // ----- the loops

  /** The scalars listed first. */
  function FirstScalars(n: nat): set<EntryField>
    requires n <= |SCALARS|
  {
    set f | f in SCALARS[..n]
  }

  lemma NextScalar(n: nat)
    requires n < |SCALARS|
    ensures IsScalar(SCALARS[n]) && SCALARS[n] !in FirstScalars(n) && FirstScalars(n + 1) == FirstScalars(n) + {SCALARS[n]}
  {
    ScalarsAreListed(SCALARS[n]);
    ScalarsAreDistinct(n);
    assert SCALARS[..n + 1] == SCALARS[..n] + [SCALARS[n]];
  }

  method ApplyScalars(tx: Transaction, d: EntryDraft)
    requires tx.Valid() && Causal(tx.view) && ValidForm(d.fields) && Bare(tx.wanted)
    modifies tx
    ensures tx.Valid() && Progress(d, old(tx.wanted), tx.wanted, Covered(FirstScalars(|SCALARS|), {}, {}))
  {
    ghost var start := tx.wanted;
    for i := 0 to |SCALARS|
      invariant tx.Valid() && Progress(d, start, tx.wanted, Covered(FirstScalars(i), {}, {}))
    {
      var f := SCALARS[i];
      NextScalar(i);
      ScalarProgress(d, start, tx.wanted, Covered(FirstScalars(i), {}, {}), f);
      Untouched(d, start, tx.wanted, Covered(FirstScalars(i), {}, {}), Field(d.entry, f));
      ScalarIsValid(d.fields, f);
      var differs := d.original.None? || ScalarOf(d.original.value, f) != ScalarOf(d.fields, f);
      PutScalarDifference(tx, d, f, differs);
    }
  }

  method PutScalarDifference(tx: Transaction, d: EntryDraft, f: EntryField, differs: bool)
    requires tx.Valid() && Causal(tx.view) && IsScalar(f) && ValidField(f, ScalarOf(d.fields, f)) && Field(d.entry, f) !in tx.wanted
    requires differs == (d.original.None? || ScalarOf(d.original.value, f) != ScalarOf(d.fields, f))
    modifies tx
    ensures tx.Valid() && tx.wanted == With(old(tx.wanted), Field(d.entry, f), FieldWrite(d, f))
  {
    assert ToScalar(ScalarOf(d.fields, f), d.revision) == Data(ScalarOf(d.fields, f));
    PutDifference(tx, d, f, differs, ScalarOf(d.fields, f));
  }

  lemma ScalarIsValid(fields: EntryFields, f: EntryField)
    requires ValidForm(fields) && IsScalar(f)
    ensures ValidField(f, ScalarOf(fields, f))
  {
  }

  /** Objects the draft started from exist at the base. */
  ghost predicate Rooted(view: Changes, d: EntryDraft)
  {
    && (forall x :: OldAttribute(d, x).Some? ==> Written(view, AttributeObject(d.entry, x)))
    && (forall x :: OldAttachment(d, x).Some? ==> Written(view, AttachmentObject(d.entry, x)))
  }

  method ApplyAttributes(tx: Transaction, d: EntryDraft, ids: set<AttributeId>, ghost start: map<Register, Scalar>, ghost c: Covered)
    returns (ok: Result<(), Error>)
    requires tx.Valid() && Causal(tx.view) && ValidForm(d.fields) && Rooted(tx.view, d)
    requires Bare(start) && Progress(d, start, tx.wanted, c) && ids !! c.attributes
    modifies tx
    ensures tx.Valid()
    ensures ok.Err? <==> exists x :: x in ids && TakenAttribute(tx.view, d, x)
    ensures ok.Err? ==> ok.error == DuplicateId
    ensures ok.Ok? ==> Progress(d, start, tx.wanted, c.(attributes := c.attributes + ids))
  {
    var pending := ids;
    assert c.attributes + (ids - pending) == c.attributes;
    while pending != {}
      invariant pending <= ids && tx.Valid()
      invariant forall x :: x in ids - pending ==> !TakenAttribute(tx.view, d, x)
      invariant Progress(d, start, tx.wanted, c.(attributes := c.attributes + (ids - pending)))
    {
      var x :| x in pending;
      AttributeProgress(d, start, tx.wanted, c.(attributes := c.attributes + (ids - pending)), x);
      ok := ApplyAttribute(tx, d, x);
      if ok.Err? {
        return;
      }
      assert c.attributes + (ids - pending) + {x} == c.attributes + (ids - (pending - {x}));
      pending := pending - {x};
    }
    ok := Ok(());
  }

  method ApplyAttachments(tx: Transaction, d: EntryDraft, ids: set<AttachmentId>, ghost start: map<Register, Scalar>, ghost c: Covered)
    returns (ok: Result<(), Error>)
    requires tx.Valid() && Causal(tx.view) && ValidForm(d.fields) && Rooted(tx.view, d)
    requires Bare(start) && Progress(d, start, tx.wanted, c) && ids !! c.attachments
    modifies tx
    ensures tx.Valid()
    ensures ok.Err? <==> exists x :: x in ids && TakenAttachment(tx.view, d, x)
    ensures ok.Err? ==> ok.error == DuplicateId
    ensures ok.Ok? ==> Progress(d, start, tx.wanted, c.(attachments := c.attachments + ids))
  {
    var pending := ids;
    assert c.attachments + (ids - pending) == c.attachments;
    while pending != {}
      invariant pending <= ids && tx.Valid()
      invariant forall x :: x in ids - pending ==> !TakenAttachment(tx.view, d, x)
      invariant Progress(d, start, tx.wanted, c.(attachments := c.attachments + (ids - pending)))
    {
      var x :| x in pending;
      AttachmentProgress(d, start, tx.wanted, c.(attachments := c.attachments + (ids - pending)), x);
      ok := ApplyAttachment(tx, d, x);
      if ok.Err? {
        return;
      }
      assert c.attachments + (ids - pending) + {x} == c.attachments + (ids - (pending - {x}));
      pending := pending - {x};
    }
    ok := Ok(());
  }

  function OldAttributes(d: EntryDraft): set<AttributeId>
  {
    if d.original.Some? then d.original.value.attributes.Keys else {}
  }

  function OldAttachments(d: EntryDraft): set<AttachmentId>
  {
    if d.original.Some? then d.original.value.attachments.Keys else {}
  }

  /** Registers the form itself does not write. */
  predicate Outside(d: EntryDraft, r: Register)
  {
    r.entry != d.entry || r.EntryObject? || r.Home? || r.Detail?
  }

  /** Once every listed part is dealt with, all of the form is: other parts ask for nothing. */
  lemma FormIsDone(d: EntryDraft, start: map<Register, Scalar>, wanted: map<Register, Scalar>, r: Register)
    requires Bare(start)
    requires Progress(d, start, wanted, Covered(FirstScalars(|SCALARS|),
                                                d.fields.attributes.Keys + (OldAttributes(d) - d.fields.attributes.Keys),
                                                d.fields.attachments.Keys + (OldAttachments(d) - d.fields.attachments.Keys)))
    ensures Write(wanted, r) == if Outside(d, r) then Write(start, r) else DraftWrite(d, r)
  {
    assert SCALARS[..|SCALARS|] == SCALARS;
    if r.Field? {
      ScalarsAreListed(r.field);
    }
  }

  /** `apply_form`: the scalars, new and changed attributes, removed ones, then attachments likewise. */
  method ApplyForm(tx: Transaction, d: EntryDraft) returns (ok: Result<(), Error>)
    requires tx.Valid() && Causal(tx.view) && ValidForm(d.fields) && Rooted(tx.view, d) && Bare(tx.wanted)
    modifies tx
    ensures tx.Valid()
    ensures ok.Err? <==> exists x :: TakenAttribute(tx.view, d, x) || TakenAttachment(tx.view, d, x)
    ensures ok.Err? ==> ok.error == DuplicateId
    ensures ok.Ok? ==> forall r :: Write(tx.wanted, r) == if Outside(d, r) then Write(old(tx.wanted), r) else DraftWrite(d, r)
  {
    ghost var start := tx.wanted;
    ApplyScalars(tx, d);
    ghost var c := Covered(FirstScalars(|SCALARS|), {}, {});
    var added := d.fields.attributes.Keys;
    var removed := OldAttributes(d) - added;
    ok := ApplyAttributes(tx, d, added, start, c);
    if ok.Err? {
      return;
    }
    ok := ApplyAttributes(tx, d, removed, start, c.(attributes := {} + added));
    if ok.Err? {
      return;
    }
    var attached := d.fields.attachments.Keys;
    var detached := OldAttachments(d) - attached;
    c := c.(attributes := {} + added + removed);
    ok := ApplyAttachments(tx, d, attached, start, c);
    if ok.Err? {
      return;
    }
    ok := ApplyAttachments(tx, d, detached, start, c.(attachments := {} + attached));
    if ok.Ok? {
      assert {} + added + removed == added + removed && {} + attached + detached == attached + detached;
      forall r ensures Write(tx.wanted, r) == if Outside(d, r) then Write(start, r) else DraftWrite(d, r) {
        FormIsDone(d, start, tx.wanted, r);
      }
    }
  }
}
