/**
 Resolving reviewed fields and restoring an old form, from taypeer-document/src/operations.rs
 and binary.rs.
 */
module Resolving {
  import opened Wrappers
  import opened Operations
  import opened Entries
  import opened CausalDocument
  import opened Selection
  import opened Projection
  import opened Soundness
  import opened Structure
  import opened Drafts
  import opened Confirmations
  import opened Transactions
  import opened Committing
  import opened Saving
  import opened Reading

  datatype Resolution = Resolution(field: EntryField, value: FieldValue)

  /** The values a list of resolutions names; a repeated field keeps the last. */
  function Values(fields: seq<Resolution>): map<EntryField, FieldValue>
  {
    if fields == [] then map[] else Values(fields[..|fields| - 1])[fields[|fields| - 1].field := fields[|fields| - 1].value]
  }

  predicate EachOnce(fields: seq<Resolution>)
  {
    forall i, j :: 0 <= i < j < |fields| ==> fields[i].field != fields[j].field
  }

  lemma {:induction false} ValuesOfList(fields: seq<Resolution>)
    ensures forall f :: f in Values(fields) <==> exists i :: 0 <= i < |fields| && fields[i].field == f
    ensures EachOnce(fields) ==> forall i :: 0 <= i < |fields| ==>
              fields[i].field in Values(fields) && Values(fields)[fields[i].field] == fields[i].value
  {
    if fields != [] {
      ValuesOfList(fields[..|fields| - 1]);
    }
  }

  /** What has been put of a confirmation: its group and new objects, and the first fields. */
  ghost predicate Putting(wanted: map<Register, Scalar>, q: Confirmation, fields: seq<Resolution>)
  {
    forall r :: Write(wanted, r) == ConfirmWrite(q.(values := Values(fields)), r)
  }

  lemma PutNext(wanted: map<Register, Scalar>, q: Confirmation, fields: seq<Resolution>, next: Resolution)
    requires Putting(wanted, q, fields)
    ensures Putting(wanted[Field(q.entry, next.field) := ToScalar(next.value, q.revision)], q, fields + [next])
    ensures next.field !in Values(fields) ==> Field(q.entry, next.field) !in wanted
  {
    var more := wanted[Field(q.entry, next.field) := ToScalar(next.value, q.revision)];
    assert (fields + [next])[..|fields|] == fields;
    assert Write(wanted, Field(q.entry, next.field)) == ConfirmWrite(q.(values := Values(fields)), Field(q.entry, next.field));
    forall r ensures Write(more, r) == ConfirmWrite(q.(values := Values(fields + [next])), r) {
      assert Write(wanted, r) == ConfirmWrite(q.(values := Values(fields)), r);
    }
  }

  /** The objects a restoration creates before it puts their parts. */
  method PutObjects(tx: Transaction, q: Confirmation)
    requires tx.Valid() && tx.wanted == map[] && tx.puts == map[] && forall r :: r in q.created ==> IsHolder(r) && r.entry == q.entry
    modifies tx
    ensures tx.Valid() && Putting(tx.wanted, q, []) && q.created <= tx.puts.Keys
    ensures forall r :: r in tx.puts && IsHolder(r) ==> r in q.created
  {
    var pending := q.created;
    while pending != {}
      invariant pending <= q.created && tx.Valid() && q.created - pending == tx.puts.Keys
      invariant forall r :: Write(tx.wanted, r) == if r in q.created - pending then Some(MapObject) else None
    {
      var r :| r in pending;
      assert Write(tx.wanted, r) == None;
      ghost var before := tx.wanted;
      tx.Put(r, MapObject);
      pending := pending - {r};
      forall x ensures Write(tx.wanted, x) == if x in q.created - pending then Some(MapObject) else None {
        assert Write(tx.wanted, x) == if x == r then Some(MapObject) else Write(before, x);
      }
    }
    ghost var objects := tx.wanted;
    if q.home.Some? {
      assert Write(tx.wanted, Home(q.entry)) == None;
      tx.Put(Home(q.entry), HomeRef(q.home.value));
    }
    forall r ensures Write(tx.wanted, r) == ConfirmWrite(q.(values := Values([])), r) {
      assert Write(objects, r) == if r in q.created then Some(MapObject) else None;
    }
  }

  /** The loop that puts every resolution. */
  method PutResolutions(tx: Transaction, q: Confirmation, fields: seq<Resolution>) returns (ok: Result<(), Error>)
    requires tx.Valid() && Causal(tx.view) && Putting(tx.wanted, q, []) && q.created <= tx.puts.Keys
    requires EachOnce(fields) && forall i :: 0 <= i < |fields| ==> ValidField(fields[i].field, fields[i].value)
    requires forall r :: r in tx.puts && IsHolder(r) ==> r in q.created
    modifies tx
    ensures tx.Valid()
    ensures ok.Ok? <==> forall i :: 0 <= i < |fields| && !IsScalar(fields[i].field) ==>
                          Written(tx.view, HolderOf(q.entry, fields[i].field)) || HolderOf(q.entry, fields[i].field) in q.created
    ensures ok.Err? ==> ok.error == NotFound
    ensures ok.Ok? ==> Putting(tx.wanted, q, fields)
  {
    for i := 0 to |fields|
      invariant tx.Valid() && Putting(tx.wanted, q, fields[..i]) && q.created <= tx.puts.Keys
      invariant forall r :: r in tx.puts && IsHolder(r) ==> r in q.created
      invariant forall j :: 0 <= j < i && !IsScalar(fields[j].field) ==>
                  Written(tx.view, HolderOf(q.entry, fields[j].field)) || HolderOf(q.entry, fields[j].field) in q.created
    {
      ValuesOfList(fields[..i]);
      PutNext(tx.wanted, q, fields[..i], fields[i]);
      assert fields[..i + 1] == fields[..i] + [fields[i]];
      ok := tx.PutField(q.entry, fields[i].field, fields[i].value, q.revision);
      if ok.Err? {
        return Err(NotFound);
      }
    }
    assert fields[..|fields|] == fields;
    ok := Ok(());
  }

  /** The check of `confirm_resolution`: no field twice, and every value of its field's type. */
  method CheckResolutions(fields: seq<Resolution>) returns (ok: Result<(), Error>)
    ensures ok.Ok? <==> EachOnce(fields) && forall i :: 0 <= i < |fields| ==> ValidField(fields[i].field, fields[i].value)
    ensures ok.Err? ==> exists i :: 0 <= i < |fields| && EachOnce(fields[..i])
                          && (forall j :: 0 <= j < i ==> ValidField(fields[j].field, fields[j].value))
                          && ok.error == if !EachOnce(fields[..i + 1]) then InvalidContext else FieldError(fields[i].field, fields[i].value)
  {
    var unique: set<EntryField> := {};
    for i := 0 to |fields|
      invariant EachOnce(fields[..i]) && forall j :: 0 <= j < i ==> ValidField(fields[j].field, fields[j].value)
      invariant forall f :: f in unique <==> exists j :: 0 <= j < i && fields[j].field == f
    {
      if fields[i].field in unique {
        var j :| 0 <= j < i && fields[j].field == fields[i].field;
        assert fields[..i + 1][j].field == fields[..i + 1][i].field;
        return Err(InvalidContext);
      }
      unique := unique + {fields[i].field};
      if !ValidField(fields[i].field, fields[i].value) {
        assert EachOnce(fields[..i + 1]);
        return Err(FieldError(fields[i].field, fields[i].value));
      }
    }
    assert fields[..|fields|] == fields;
    ok := Ok(());
  }

  /** `all_resolutions` for the scalars. */
  method ScalarResolutions(fields: EntryFields) returns (result: seq<Resolution>)
    ensures EachOnce(result)
    ensures forall f :: Value(Values(result), f) == if IsScalar(f) then Some(ScalarOf(fields, f)) else None
  {
    result := [];
    for i := 0 to |SCALARS|
      invariant EachOnce(result)
      invariant forall f :: Value(Values(result), f) == if f in FirstScalars(i) then Some(ScalarOf(fields, f)) else None
    {
      NextScalar(i);
      AppendResolution(result, Resolution(SCALARS[i], ScalarOf(fields, SCALARS[i])));
      result := result + [Resolution(SCALARS[i], ScalarOf(fields, SCALARS[i]))];
    }
    assert SCALARS[..|SCALARS|] == SCALARS;
    forall f ensures Value(Values(result), f) == if IsScalar(f) then Some(ScalarOf(fields, f)) else None {
      ScalarsAreListed(f);
    }
  }

  lemma AppendResolution(fields: seq<Resolution>, next: Resolution)
    ensures Values(fields + [next]) == Values(fields)[next.field := next.value]
    ensures EachOnce(fields) && next.field !in Values(fields) ==> EachOnce(fields + [next])
  {
    assert (fields + [next])[..|fields|] == fields;
    ValuesOfList(fields);
  }

  // ----- the list of a restoration

  /** A presence unless it is listed already, a name and a content at the end of a list. */
  lemma AppendParts(fields: seq<Resolution>, parts: seq<Resolution>, presence: EntryField, name: EntryField, content: EntryField)
    requires EachOnce(fields) && presence != name && presence != content && name != content
    requires name !in Values(fields) && content !in Values(fields)
    requires presence in Values(fields) ==> Values(fields)[presence] == PresenceValue(true)
    requires |parts| >= 2 && parts[|parts| - 2].field == name && parts[|parts| - 1].field == content
    requires if presence in Values(fields) then |parts| == 2 else |parts| == 3 && parts[0] == Resolution(presence, PresenceValue(true))
    ensures EachOnce(fields + parts)
    ensures Values(fields + parts) ==
            Values(fields)[presence := PresenceValue(true)][name := parts[|parts| - 2].value][content := parts[|parts| - 1].value]
  {
    if presence in Values(fields) {
      assert parts == [parts[0], parts[1]];
      AppendPair(fields, parts[0], parts[1]);
    } else {
      AppendResolution(fields, parts[0]);
      AppendPair(fields + [parts[0]], parts[1], parts[2]);
      assert fields + parts == fields + [parts[0]] + [parts[1], parts[2]];
    }
  }

  lemma AppendPair(fields: seq<Resolution>, first: Resolution, second: Resolution)
    requires EachOnce(fields) && first.field != second.field && first.field !in Values(fields) && second.field !in Values(fields)
    ensures EachOnce(fields + [first, second])
    ensures Values(fields + [first, second]) == Values(fields)[first.field := first.value][second.field := second.value]
  {
    AppendResolution(fields, first);
    AppendResolution(fields + [first], second);
    assert fields + [first, second] == fields + [first] + [second];
  }

  /** What the list says about attributes after some listed presences and some attributes of the form. */
  function AttributeSaid(fields: EntryFields, listed: set<EntryField>, done: set<AttributeId>, f: EntryField): Option<FieldValue>
    requires OfAttribute(f) && done <= fields.attributes.Keys
  {
    match f
    case AttributePresence(x) => if f in listed || x in done then Some(PresenceValue(x in fields.attributes)) else None
    case AttributeName(x) => if x in done then Some(TextValue(Some(fields.attributes[x].name))) else None
    case AttributeData(x) => if x in done then Some(DataValue(fields.attributes[x].value)) else None
  }

  ghost predicate AttributeValues(before: map<EntryField, FieldValue>, values: map<EntryField, FieldValue>, fields: EntryFields, listed: set<EntryField>, done: set<AttributeId>)
    requires done <= fields.attributes.Keys
  {
    forall f :: Value(values, f) == if OfAttribute(f) then AttributeSaid(fields, listed, done, f) else Value(before, f)
  }

  lemma AttributePresenceSaid(before: map<EntryField, FieldValue>, values: map<EntryField, FieldValue>, fields: EntryFields, listed: set<EntryField>, f: EntryField)
    requires AttributeValues(before, values, fields, listed, {}) && f.AttributePresence? && f !in listed
    ensures f !in values
    ensures AttributeValues(before, values[f := PresenceValue(f.attribute in fields.attributes)], fields, listed + {f}, {})
  {
    assert Value(values, f) == None;
    var more := values[f := PresenceValue(f.attribute in fields.attributes)];
    forall g ensures Value(more, g) == if OfAttribute(g) then AttributeSaid(fields, listed + {f}, {}, g) else Value(before, g) {
      assert Value(values, g) == if OfAttribute(g) then AttributeSaid(fields, listed, {}, g) else Value(before, g);
    }
  }

  /** One attribute of the form: its presence unless it was listed, and its parts. */
  function AttributeParts(fields: EntryFields, listed: set<EntryField>, x: AttributeId): seq<Resolution>
    requires x in fields.attributes
  {
    (if AttributePresence(x) in listed then [] else [Resolution(AttributePresence(x), PresenceValue(true))])
    + [Resolution(AttributeName(x), TextValue(Some(fields.attributes[x].name))),
       Resolution(AttributeData(x), DataValue(fields.attributes[x].value))]
  }

  lemma AttributePartsSaid(before: map<EntryField, FieldValue>, values: map<EntryField, FieldValue>, fields: EntryFields, listed: set<EntryField>, done: set<AttributeId>, x: AttributeId)
    requires done <= fields.attributes.Keys && AttributeValues(before, values, fields, listed, done) && x in fields.attributes && x !in done
    ensures AttributeName(x) !in values && AttributeData(x) !in values && (AttributePresence(x) in values <==> AttributePresence(x) in listed)
    ensures AttributeValues(before, values[AttributePresence(x) := PresenceValue(true)][AttributeName(x) := TextValue(Some(fields.attributes[x].name))]
                                    [AttributeData(x) := DataValue(fields.attributes[x].value)], fields, listed, done + {x})
    ensures AttributePresence(x) in values ==> values[AttributePresence(x)] == PresenceValue(true)
  {
    assert Value(values, AttributePresence(x)) == AttributeSaid(fields, listed, done, AttributePresence(x));
    assert Value(values, AttributeName(x)) == None && Value(values, AttributeData(x)) == None;
    var more := values[AttributePresence(x) := PresenceValue(true)][AttributeName(x) := TextValue(Some(fields.attributes[x].name))]
                      [AttributeData(x) := DataValue(fields.attributes[x].value)];
    forall g ensures Value(more, g) == if OfAttribute(g) then AttributeSaid(fields, listed, done + {x}, g) else Value(before, g) {
      assert Value(values, g) == if OfAttribute(g) then AttributeSaid(fields, listed, done, g) else Value(before, g);
    }
  }

  function AttributePresences(values: seq<FieldState>): set<EntryField>
  {
    set i | 0 <= i < |values| && values[i].field.AttributePresence? :: values[i].field
  }

  /** The first loop: every listed presence. */
  method AttributePresenceResolutions(fields: EntryFields, values: seq<FieldState>, before: seq<Resolution>) returns (result: seq<Resolution>)
    requires OneEach(values) && EachOnce(before) && forall f :: f in Values(before) ==> !OfAttribute(f)
    ensures EachOnce(result) && AttributeValues(Values(before), Values(result), fields, AttributePresences(values), {})
  {
    result := before;
    for i := 0 to |values|
      invariant EachOnce(result) && AttributeValues(Values(before), Values(result), fields, AttributePresences(values[..i]), {})
    {
      assert values[..i + 1] == values[..i] + [values[i]];
      if values[i].field.AttributePresence? {
        AttributePresenceSaid(Values(before), Values(result), fields, AttributePresences(values[..i]), values[i].field);
        AppendResolution(result, Resolution(values[i].field, PresenceValue(values[i].field.attribute in fields.attributes)));
        result := result + [Resolution(values[i].field, PresenceValue(values[i].field.attribute in fields.attributes))];
        assert AttributePresences(values[..i + 1]) == AttributePresences(values[..i]) + {values[i].field};
      } else {
        assert AttributePresences(values[..i + 1]) == AttributePresences(values[..i]);
      }
    }
    assert values[..|values|] == values;
  }

  /** The second loop: every attribute of the form. */
  method AttributePartResolutions(fields: EntryFields, listed: set<EntryField>, ghost before: map<EntryField, FieldValue>, first: seq<Resolution>)
    returns (result: seq<Resolution>)
    requires EachOnce(first) && AttributeValues(before, Values(first), fields, listed, {})
    ensures EachOnce(result) && AttributeValues(before, Values(result), fields, listed, fields.attributes.Keys)
  {
    result := first;
    var pending := fields.attributes.Keys;
    assert fields.attributes.Keys - pending == {};
    while pending != {}
      invariant pending <= fields.attributes.Keys && EachOnce(result)
      invariant AttributeValues(before, Values(result), fields, listed, fields.attributes.Keys - pending)
    {
      var x :| x in pending;
      AttributePartsSaid(before, Values(result), fields, listed, fields.attributes.Keys - pending, x);
      assert fields.attributes.Keys - pending + {x} == fields.attributes.Keys - (pending - {x});
      AppendParts(result, AttributeParts(fields, listed, x), AttributePresence(x), AttributeName(x), AttributeData(x));
      result := result + AttributeParts(fields, listed, x);
      pending := pending - {x};
    }
    assert fields.attributes.Keys - pending == fields.attributes.Keys;
  }

  method AttributeResolutions(fields: EntryFields, values: seq<FieldState>, before: seq<Resolution>) returns (result: seq<Resolution>)
    requires OneEach(values) && EachOnce(before) && forall f :: f in Values(before) ==> !OfAttribute(f)
    ensures EachOnce(result) && AttributeValues(Values(before), Values(result), fields, AttributePresences(values), fields.attributes.Keys)
  {
    result := AttributePresenceResolutions(fields, values, before);
    result := AttributePartResolutions(fields, AttributePresences(values), Values(before), result);
  }

  /** What the list says about attachments after some listed presences and some attachments of the form. */
  function AttachmentSaid(fields: EntryFields, listed: set<EntryField>, done: set<AttachmentId>, f: EntryField): Option<FieldValue>
    requires OfAttachment(f) && done <= fields.attachments.Keys
  {
    match f
    case AttachmentPresence(x) => if f in listed || x in done then Some(PresenceValue(x in fields.attachments)) else None
    case AttachmentName(x) => if x in done then Some(TextValue(Some(fields.attachments[x].name))) else None
    case AttachmentBlob(x) => if x in done then Some(BlobValue(fields.attachments[x].blob)) else None
  }

  ghost predicate AttachmentValues(before: map<EntryField, FieldValue>, values: map<EntryField, FieldValue>, fields: EntryFields, listed: set<EntryField>, done: set<AttachmentId>)
    requires done <= fields.attachments.Keys
  {
    forall f :: Value(values, f) == if OfAttachment(f) then AttachmentSaid(fields, listed, done, f) else Value(before, f)
  }

  lemma AttachmentPresenceSaid(before: map<EntryField, FieldValue>, values: map<EntryField, FieldValue>, fields: EntryFields, listed: set<EntryField>, f: EntryField)
    requires AttachmentValues(before, values, fields, listed, {}) && f.AttachmentPresence? && f !in listed
    ensures f !in values
    ensures AttachmentValues(before, values[f := PresenceValue(f.attachment in fields.attachments)], fields, listed + {f}, {})
  {
    assert Value(values, f) == None;
    var more := values[f := PresenceValue(f.attachment in fields.attachments)];
    forall g ensures Value(more, g) == if OfAttachment(g) then AttachmentSaid(fields, listed + {f}, {}, g) else Value(before, g) {
      assert Value(values, g) == if OfAttachment(g) then AttachmentSaid(fields, listed, {}, g) else Value(before, g);
    }
  }

  /** One attachment of the form: its presence unless it was listed, and its parts. */
  function AttachmentParts(fields: EntryFields, listed: set<EntryField>, x: AttachmentId): seq<Resolution>
    requires x in fields.attachments
  {
    (if AttachmentPresence(x) in listed then [] else [Resolution(AttachmentPresence(x), PresenceValue(true))])
    + [Resolution(AttachmentName(x), TextValue(Some(fields.attachments[x].name))),
       Resolution(AttachmentBlob(x), BlobValue(fields.attachments[x].blob))]
  }

  lemma AttachmentPartsSaid(before: map<EntryField, FieldValue>, values: map<EntryField, FieldValue>, fields: EntryFields, listed: set<EntryField>, done: set<AttachmentId>, x: AttachmentId)
    requires done <= fields.attachments.Keys && AttachmentValues(before, values, fields, listed, done) && x in fields.attachments && x !in done
    ensures AttachmentName(x) !in values && AttachmentBlob(x) !in values && (AttachmentPresence(x) in values <==> AttachmentPresence(x) in listed)
    ensures AttachmentValues(before, values[AttachmentPresence(x) := PresenceValue(true)][AttachmentName(x) := TextValue(Some(fields.attachments[x].name))]
                                    [AttachmentBlob(x) := BlobValue(fields.attachments[x].blob)], fields, listed, done + {x})
    ensures AttachmentPresence(x) in values ==> values[AttachmentPresence(x)] == PresenceValue(true)
  {
    assert Value(values, AttachmentPresence(x)) == AttachmentSaid(fields, listed, done, AttachmentPresence(x));
    assert Value(values, AttachmentName(x)) == None && Value(values, AttachmentBlob(x)) == None;
    var more := values[AttachmentPresence(x) := PresenceValue(true)][AttachmentName(x) := TextValue(Some(fields.attachments[x].name))]
                      [AttachmentBlob(x) := BlobValue(fields.attachments[x].blob)];
    forall g ensures Value(more, g) == if OfAttachment(g) then AttachmentSaid(fields, listed, done + {x}, g) else Value(before, g) {
      assert Value(values, g) == if OfAttachment(g) then AttachmentSaid(fields, listed, done, g) else Value(before, g);
    }
  }

  function AttachmentPresences(values: seq<FieldState>): set<EntryField>
  {
    set i | 0 <= i < |values| && values[i].field.AttachmentPresence? :: values[i].field
  }

  /** The first loop: every listed presence. */
  method AttachmentPresenceResolutions(fields: EntryFields, values: seq<FieldState>, before: seq<Resolution>) returns (result: seq<Resolution>)
    requires OneEach(values) && EachOnce(before) && forall f :: f in Values(before) ==> !OfAttachment(f)
    ensures EachOnce(result) && AttachmentValues(Values(before), Values(result), fields, AttachmentPresences(values), {})
  {
    result := before;
    for i := 0 to |values|
      invariant EachOnce(result) && AttachmentValues(Values(before), Values(result), fields, AttachmentPresences(values[..i]), {})
    {
      assert values[..i + 1] == values[..i] + [values[i]];
      if values[i].field.AttachmentPresence? {
        AttachmentPresenceSaid(Values(before), Values(result), fields, AttachmentPresences(values[..i]), values[i].field);
        AppendResolution(result, Resolution(values[i].field, PresenceValue(values[i].field.attachment in fields.attachments)));
        result := result + [Resolution(values[i].field, PresenceValue(values[i].field.attachment in fields.attachments))];
        assert AttachmentPresences(values[..i + 1]) == AttachmentPresences(values[..i]) + {values[i].field};
      } else {
        assert AttachmentPresences(values[..i + 1]) == AttachmentPresences(values[..i]);
      }
    }
    assert values[..|values|] == values;
  }

  /** The second loop: every attachment of the form. */
  method AttachmentPartResolutions(fields: EntryFields, listed: set<EntryField>, ghost before: map<EntryField, FieldValue>, first: seq<Resolution>)
    returns (result: seq<Resolution>)
    requires EachOnce(first) && AttachmentValues(before, Values(first), fields, listed, {})
    ensures EachOnce(result) && AttachmentValues(before, Values(result), fields, listed, fields.attachments.Keys)
  {
    result := first;
    var pending := fields.attachments.Keys;
    assert fields.attachments.Keys - pending == {};
    while pending != {}
      invariant pending <= fields.attachments.Keys && EachOnce(result)
      invariant AttachmentValues(before, Values(result), fields, listed, fields.attachments.Keys - pending)
    {
      var x :| x in pending;
      AttachmentPartsSaid(before, Values(result), fields, listed, fields.attachments.Keys - pending, x);
      assert fields.attachments.Keys - pending + {x} == fields.attachments.Keys - (pending - {x});
      AppendParts(result, AttachmentParts(fields, listed, x), AttachmentPresence(x), AttachmentName(x), AttachmentBlob(x));
      result := result + AttachmentParts(fields, listed, x);
      pending := pending - {x};
    }
    assert fields.attachments.Keys - pending == fields.attachments.Keys;
  }

  method AttachmentResolutions(fields: EntryFields, values: seq<FieldState>, before: seq<Resolution>) returns (result: seq<Resolution>)
    requires OneEach(values) && EachOnce(before) && forall f :: f in Values(before) ==> !OfAttachment(f)
    ensures EachOnce(result) && AttachmentValues(Values(before), Values(result), fields, AttachmentPresences(values), fields.attachments.Keys)
  {
    result := AttachmentPresenceResolutions(fields, values, before);
    result := AttachmentPartResolutions(fields, AttachmentPresences(values), Values(before), result);
  }

  /** `all_resolutions`: a list without repetition that says exactly what `ResolutionOf` does. */
  method AllResolutions(fields: EntryFields, ghost v: Changes, ghost e: EntryId, values: seq<FieldState>) returns (result: seq<Resolution>)
    requires Valid(v) && OneEach(values) && forall f :: HasField(values, f) <==> Listed(v, e, f)
    ensures EachOnce(result) && forall f :: Value(Values(result), f) == ResolutionOf(fields, v, e, f)
  {
    var scalars := ScalarResolutions(fields);
    assert forall f :: f in Values(scalars) <==> Value(Values(scalars), f).Some?;
    var attributed := AttributeResolutions(fields, values, scalars);
    assert forall f :: f in Values(attributed) <==> Value(Values(attributed), f).Some?;
    result := AttachmentResolutions(fields, values, attributed);
    forall f ensures Value(Values(result), f) == ResolutionOf(fields, v, e, f) {
      assert HasField(values, f) <==> Listed(v, e, f);
      PresencesAreListed(values, f);
    }
  }

  lemma PresencesAreListed(values: seq<FieldState>, f: EntryField)
    ensures f in AttributePresences(values) <==> f.AttributePresence? && HasField(values, f)
    ensures f in AttachmentPresences(values) <==> f.AttachmentPresence? && HasField(values, f)
  {
  }

  // ----- confirming

  /** The attributes that presences set to true name although they have no object yet. */
  function MissingAttributes(values: map<EntryField, FieldValue>, known: set<AttributeId>): set<AttributeId>
  {
    set f | f in values && f.AttributePresence? && values[f] == PresenceValue(true) && f.attribute !in known :: f.attribute
  }

  lemma MissingAttribute(values: map<EntryField, FieldValue>, known: set<AttributeId>, f: EntryField, value: FieldValue)
    requires f !in values
    ensures MissingAttributes(values[f := value], known) ==
            MissingAttributes(values, known) + if f.AttributePresence? && value == PresenceValue(true) && f.attribute !in known then {f.attribute} else {}
  {
    forall x ensures x in MissingAttributes(values[f := value], known) <==>
                     x in MissingAttributes(values, known) || (AttributePresence(x) == f && value == PresenceValue(true) && x !in known) {
      AttributeIsMissing(values, known, x);
      AttributeIsMissing(values[f := value], known, x);
    }
  }

  lemma AttributeIsMissing(values: map<EntryField, FieldValue>, known: set<AttributeId>, x: AttributeId)
    ensures x in MissingAttributes(values, known) <==> Value(values, AttributePresence(x)) == Some(PresenceValue(true)) && x !in known
  {
    if Value(values, AttributePresence(x)) == Some(PresenceValue(true)) && x !in known {
      assert AttributePresence(x) in values;
    }
  }

  method RestoredAttributes(cs: Changes, e: EntryId, fields: seq<Resolution>) returns (restored: Result<set<AttributeId>, Error>)
    requires EachOnce(fields)
    ensures var missing := MissingAttributes(Values(fields), AttributeIds(cs, e));
            restored == if missing !! AttributesElsewhere(cs, e) then Ok(missing) else Err(DuplicateId)
  {
    var known := AttributeIds(cs, e);
    var missing: set<AttributeId> := {};
    for i := 0 to |fields|
      invariant missing == MissingAttributes(Values(fields[..i]), known)
    {
      assert fields[..i + 1] == fields[..i] + [fields[i]];
      ValuesOfList(fields[..i]);
      AppendResolution(fields[..i], fields[i]);
      MissingAttribute(Values(fields[..i]), known, fields[i].field, fields[i].value);
      if fields[i].field.AttributePresence? && fields[i].value == PresenceValue(true) && fields[i].field.attribute !in known {
        missing := missing + {fields[i].field.attribute};
      }
    }
    assert fields[..|fields|] == fields;
    restored := if missing !! AttributesElsewhere(cs, e) then Ok(missing) else Err(DuplicateId);
  }

  /** The attachments that presences set to true name although they have no object yet. */
  function MissingAttachments(values: map<EntryField, FieldValue>, known: set<AttachmentId>): set<AttachmentId>
  {
    set f | f in values && f.AttachmentPresence? && values[f] == PresenceValue(true) && f.attachment !in known :: f.attachment
  }

  lemma MissingAttachment(values: map<EntryField, FieldValue>, known: set<AttachmentId>, f: EntryField, value: FieldValue)
    requires f !in values
    ensures MissingAttachments(values[f := value], known) ==
            MissingAttachments(values, known) + if f.AttachmentPresence? && value == PresenceValue(true) && f.attachment !in known then {f.attachment} else {}
  {
    forall x ensures x in MissingAttachments(values[f := value], known) <==>
                     x in MissingAttachments(values, known) || (AttachmentPresence(x) == f && value == PresenceValue(true) && x !in known) {
      AttachmentIsMissing(values, known, x);
      AttachmentIsMissing(values[f := value], known, x);
    }
  }

  lemma AttachmentIsMissing(values: map<EntryField, FieldValue>, known: set<AttachmentId>, x: AttachmentId)
    ensures x in MissingAttachments(values, known) <==> Value(values, AttachmentPresence(x)) == Some(PresenceValue(true)) && x !in known
  {
    if Value(values, AttachmentPresence(x)) == Some(PresenceValue(true)) && x !in known {
      assert AttachmentPresence(x) in values;
    }
  }

  method RestoredAttachments(cs: Changes, e: EntryId, fields: seq<Resolution>) returns (restored: Result<set<AttachmentId>, Error>)
    requires EachOnce(fields)
    ensures var missing := MissingAttachments(Values(fields), AttachmentIds(cs, e));
            restored == if missing !! AttachmentsElsewhere(cs, e) then Ok(missing) else Err(DuplicateId)
  {
    var known := AttachmentIds(cs, e);
    var missing: set<AttachmentId> := {};
    for i := 0 to |fields|
      invariant missing == MissingAttachments(Values(fields[..i]), known)
    {
      assert fields[..i + 1] == fields[..i] + [fields[i]];
      ValuesOfList(fields[..i]);
      AppendResolution(fields[..i], fields[i]);
      MissingAttachment(Values(fields[..i]), known, fields[i].field, fields[i].value);
      if fields[i].field.AttachmentPresence? && fields[i].value == PresenceValue(true) && fields[i].field.attachment !in known {
        missing := missing + {fields[i].field.attachment};
      }
    }
    assert fields[..|fields|] == fields;
    restored := if missing !! AttachmentsElsewhere(cs, e) then Ok(missing) else Err(DuplicateId);
  }
  function NewObjects(e: EntryId, attributes: set<AttributeId>, attachments: set<AttachmentId>): set<Register>
  {
    (set x | x in attributes :: AttributeObject(e, x)) + (set x | x in attachments :: AttachmentObject(e, x))
  }

  /** For the list of a restoration, what is created is what the old form has and the entry has not. */
  lemma NewObjectsAreMissing(form: EntryFields, cs: Changes, e: EntryId, values: map<EntryField, FieldValue>)
    requires forall f :: Value(values, f) == ResolutionOf(form, cs, e, f)
    ensures NewObjects(e, MissingAttributes(values, AttributeIds(cs, e)), MissingAttachments(values, AttachmentIds(cs, e)))
            == MissingObjects(form, cs, e)
  {
    forall x ensures x in MissingAttributes(values, AttributeIds(cs, e)) <==> x in form.attributes && x !in AttributeIds(cs, e) {
      AttributeIsMissing(values, AttributeIds(cs, e), x);
      assert Value(values, AttributePresence(x)) == ResolutionOf(form, cs, e, AttributePresence(x));
    }
    forall x ensures x in MissingAttachments(values, AttachmentIds(cs, e)) <==> x in form.attachments && x !in AttachmentIds(cs, e) {
      AttachmentIsMissing(values, AttachmentIds(cs, e), x);
      assert Value(values, AttachmentPresence(x)) == ResolutionOf(form, cs, e, AttachmentPresence(x));
    }
  }

  /** Every part that is resolved has an object, at the base or newly created. */
  ghost predicate Placed(p: Changes, e: EntryId, created: set<Register>, fields: seq<Resolution>)
  {
    forall i :: 0 <= i < |fields| && !IsScalar(fields[i].field) ==>
      Written(p, HolderOf(e, fields[i].field)) || HolderOf(e, fields[i].field) in created
  }

  ghost predicate Accepted(cs: Changes, q: Confirmation, fields: seq<Resolution>)
  {
    && q.base <= cs.Keys && Valid(At(cs, q.base)) && EntryIn(At(cs, q.base), q.entry) && !RowIn(cs, q.revision)
    && EachOnce(fields) && q.values == Values(fields)
    && (forall i :: 0 <= i < |fields| ==> ValidField(fields[i].field, fields[i].value))
    && Placed(At(cs, q.base), q.entry, q.created, fields)
  }

  lemma ResolutionIsConfirmable(cs: Changes, q: Confirmation, fields: seq<Resolution>)
    requires Accepted(cs, q, fields) && q.kind == Resolve && q.created == {}
    ensures Confirmable(At(cs, q.base), q)
  {
    var p := At(cs, q.base);
    ValuesOfList(fields);
    assert !RowIn(p, q.revision);
    forall f | f in q.values
      ensures ValidField(f, q.values[f])
      ensures !IsScalar(f) ==> Written(p, HolderOf(q.entry, f))
    {
      var i :| 0 <= i < |fields| && fields[i].field == f;
    }
  }

  /** The transaction of `confirm_resolution`. */
  method WriteResolution(cs: Changes, q: Confirmation, fields: seq<Resolution>, now: Timestamp, a: Actor) returns (result: Result<Change, Error>)
    requires Sound(cs) && a !in cs && q.base <= cs.Keys && q.values == Values(fields)
    requires EachOnce(fields) && forall i :: 0 <= i < |fields| ==> ValidField(fields[i].field, fields[i].value)
    requires forall r :: r in q.created ==> IsHolder(r) && r.entry == q.entry
    requires Placed(At(cs, q.base), q.entry, q.created, fields) ==> Confirmable(At(cs, q.base), q)
    requires Original(cs, q)
    ensures result.Err? <==> !Placed(At(cs, q.base), q.entry, q.created, fields)
    ensures result.Err? ==> result.error == NotFound
    ensures result.Ok? ==> Confirmed(cs, cs[a := result.value], q, now, a, result.value)
  {
    var p := At(cs, q.base);
    AtKeepsValid(cs, q.base);
    var start := NextCounter(p);
    var tx := new Transaction(p, start);
    PutObjects(tx, q);
    var put := PutResolutions(tx, q, fields);
    if put.Err? {
      return Err(NotFound);
    }
    assert q.(values := Values(fields)) == q;
    assert ConfirmAsks(tx.wanted, q);
    ConfirmWantedObjects(p, q, tx.wanted);
    ConfirmWantedParts(p, q, tx.wanted);
    var blank := EntryFields("", None, None, None, None, {}, None, DefaultIcon, None, None, map[], map[]);
    var row := StoredRevision(q.revision, q.entry, now, q.kind, q.base, blank, None, {});
    var c := Seal(tx, cs, a, q.base, Down(cs, q.base), row);
    SealedIsConfirmed(cs, q, now, a, c, tx.wanted);
    result := Ok(c);
  }

  lemma SealedIsConfirmed(cs: Changes, q: Confirmation, now: Timestamp, a: Actor, c: Change, wanted: map<Register, Scalar>)
    requires Valid(cs) && ConfirmAsks(wanted, q) && Confirmable(At(cs, q.base), q) && Original(cs, q)
    requires Seals(cs, a, c, q.base, wanted,
                   StoredRevision(q.revision, q.entry, now, q.kind, q.base, Project(At(cs, q.base)[a := c], q.entry), None,
                                  ChangedOperations(c.puts, a, q.kind)))
    ensures Confirmed(cs, cs[a := c], q, now, a, c)
  {
    CommitIsOrdered(cs, a, c, q.base, wanted);
    ExtendKeepsViews(cs, a, c);
  }

  // ----- scalar edits

  /** The updates that change what is selected; an update equal to the selected value is dropped. */
  ghost function Changing(v: Changes, e: EntryId, updates: map<EntryField, FieldValue>): map<EntryField, FieldValue>
  {
    map f | f in updates && updates[f] != Selected(v, e, f) :: updates[f]
  }

  /** The search of `edit_fields` for a state that already selects the value. */
  method SelectsAlready(ghost v: Changes, ghost e: EntryId, values: seq<FieldState>, f: EntryField, value: FieldValue) returns (already: bool)
    requires Reads(v, e, values) && HasField(values, f)
    ensures already <==> value == Selected(v, e, f)
  {
    already := false;
    for i := 0 to |values|
      invariant already <==> exists j :: 0 <= j < i && values[j].field == f && Selected(v, e, f) == value
    {
      var selected := SelectFrom(v, e, values[i]);
      if values[i].field == f && selected == value {
        already := true;
      }
    }
  }

  /** What has been kept once the updates in `pending` are still to come. */
  ghost predicate Kept(kept: map<EntryField, FieldValue>, pending: set<EntryField>, changing: map<EntryField, FieldValue>)
  {
    forall g :: Value(kept, g) == if g in changing && g !in pending then Some(changing[g]) else None
  }

  lemma KeepNext(kept: map<EntryField, FieldValue>, updates: map<EntryField, FieldValue>, pending: set<EntryField>,
                 changing: map<EntryField, FieldValue>, f: EntryField)
    requires Kept(kept, pending, changing) && f in pending && f in updates
    requires f in changing ==> changing[f] == updates[f]
    ensures f !in kept
    ensures Kept(if f in changing then kept[f := updates[f]] else kept, pending - {f}, changing)
  {
    assert Value(kept, f) == None;
    var next := if f in changing then kept[f := updates[f]] else kept;
    forall g ensures Value(next, g) == if g in changing && g !in pending - {f} then Some(changing[g]) else None {
      assert Value(kept, g) == if g in changing && g !in pending then Some(changing[g]) else None;
    }
  }

  lemma KeptAll(kept: map<EntryField, FieldValue>, changing: map<EntryField, FieldValue>)
    requires Kept(kept, {}, changing)
    ensures kept == changing
  {
    forall g ensures g in kept <==> g in changing
             ensures g in kept ==> kept[g] == changing[g] {
      assert Value(kept, g) == if g in changing then Some(changing[g]) else None;
    }
  }

  method KeepChanging(ghost v: Changes, ghost e: EntryId, values: seq<FieldState>, updates: map<EntryField, FieldValue>) returns (kept: seq<Resolution>)
    requires Reads(v, e, values) && forall f :: f in updates ==> HasField(values, f)
    ensures EachOnce(kept) && Values(kept) == Changing(v, e, updates)
  {
    kept := [];
    var pending := updates.Keys;
    ghost var changing := Changing(v, e, updates);
    while pending != {}
      invariant pending <= updates.Keys && EachOnce(kept) && Kept(Values(kept), pending, changing)
    {
      var f :| f in pending;
      var already := SelectsAlready(v, e, values, f, updates[f]);
      assert already <==> f !in changing;
      KeepNext(Values(kept), updates, pending, changing, f);
      if !already {
        AppendResolution(kept, Resolution(f, updates[f]));
        kept := kept + [Resolution(f, updates[f])];
      }
      pending := pending - {f};
    }
    KeptAll(Values(kept), changing);
  }

  /** The loop of `edit_fields`: only scalars, and values of their fields' types. */
  method CheckUpdates(updates: map<EntryField, FieldValue>) returns (ok: Result<(), Error>)
    ensures ok.Ok? <==> forall f :: f in updates ==> IsScalar(f) && ValidField(f, updates[f])
    ensures ok.Err? ==> exists f :: f in updates && !(IsScalar(f) && ValidField(f, updates[f]))
                          && ok.error == if IsScalar(f) then FieldError(f, updates[f]) else InvalidDocument
  {
    var pending := updates.Keys;
    while pending != {}
      invariant pending <= updates.Keys
      invariant forall f :: f in updates.Keys - pending ==> IsScalar(f) && ValidField(f, updates[f])
    {
      var f :| f in pending;
      if !IsScalar(f) {
        return Err(InvalidDocument);
      }
      if !ValidField(f, updates[f]) {
        return Err(FieldError(f, updates[f]));
      }
      pending := pending - {f};
    }
    ok := Ok(());
  }

  lemma EditIsConfirmable(p: Changes, q: Confirmation)
    requires EntryIn(p, q.entry) && !RowIn(p, q.revision) && q.kind == Save && q.created == {}
    requires forall f :: f in q.values ==> IsScalar(f) && ValidField(f, q.values[f])
    ensures Confirmable(p, q)
  {
  }

  // ----- restorations

  /** Identities of the old form that another entry owns by now. */
  predicate Foreign(cs: Changes, e: EntryId, form: EntryFields)
  {
    || !((form.attributes.Keys - AttributeIds(cs, e)) !! AttributesElsewhere(cs, e))
    || !((form.attachments.Keys - AttachmentIds(cs, e)) !! AttachmentsElsewhere(cs, e))
  }

  lemma MissingOfForm(form: EntryFields, cs: Changes, e: EntryId, values: map<EntryField, FieldValue>)
    requires forall f :: Value(values, f) == ResolutionOf(form, cs, e, f)
    ensures MissingAttributes(values, AttributeIds(cs, e)) == form.attributes.Keys - AttributeIds(cs, e)
    ensures MissingAttachments(values, AttachmentIds(cs, e)) == form.attachments.Keys - AttachmentIds(cs, e)
  {
    forall x ensures x in MissingAttributes(values, AttributeIds(cs, e)) <==> x in form.attributes && x !in AttributeIds(cs, e) {
      AttributeIsMissing(values, AttributeIds(cs, e), x);
      assert Value(values, AttributePresence(x)) == ResolutionOf(form, cs, e, AttributePresence(x));
    }
    forall x ensures x in MissingAttachments(values, AttachmentIds(cs, e)) <==> x in form.attachments && x !in AttachmentIds(cs, e) {
      AttachmentIsMissing(values, AttachmentIds(cs, e), x);
      assert Value(values, AttachmentPresence(x)) == ResolutionOf(form, cs, e, AttachmentPresence(x));
    }
  }

  /** The list of a restoration passes the check of `confirm_resolution`, and each part has an object. */
  lemma ListPassesCheck(cs: Changes, q: Confirmation, form: EntryFields, fields: seq<Resolution>)
    requires Confirmable(cs, q) && q.values == Values(fields) && EachOnce(fields)
    ensures forall i :: 0 <= i < |fields| ==> ValidField(fields[i].field, fields[i].value)
    ensures Placed(cs, q.entry, q.created, fields)
    ensures forall r :: r in q.created ==> IsHolder(r) && r.entry == q.entry
  {
    ValuesOfList(fields);
  }

  /** What a restoration creates is new to the document, and no other entry owns it. */
  lemma RestorationIsOriginal(cs: Changes, q: Confirmation, form: EntryFields)
    requires Restores(cs, q, form) && !Foreign(cs, q.entry, form) && !RowIn(cs, q.revision)
    ensures Original(cs, q)
  {
    forall r | r in q.created ensures Unclaimed(cs, r) {
      ObjectIds(cs, q.entry, if r.AttributeObject? then r.attribute else r.attachment);
      ClaimedElsewhere(cs, q.entry, if r.AttributeObject? then r.attribute else r.attachment);
    }
  }

  /** The list and the transaction of `restore_revision`. */
  method WriteRestoration(cs: Changes, e: EntryId, form: EntryFields, group: GroupId, revision: RevisionId, now: Timestamp, a: Actor)
    returns (result: Result<Change, Error>, ghost q: Confirmation)
    requires Sound(cs) && a !in cs && EntryIn(cs, e) && !RowIn(cs, revision) && ValidForm(form)
    ensures result.Err? <==> Foreign(cs, e, form)
    ensures result.Err? ==> result.error == DuplicateId
    ensures result.Ok? ==> q.entry == e && q.revision == revision && q.home == Some(group) && Restores(cs, q, form)
                           && Confirmed(cs, cs[a := result.value], q, now, a, result.value)
  {
    q := Confirmation(e, revision, {}, Restore, map[], Some(group), {});
    var values := ReadValues(cs, e);
    var fields := AllResolutions(form, cs, e, values);
    MissingOfForm(form, cs, e, Values(fields));
    NewObjectsAreMissing(form, cs, e, Values(fields));
    var attributes := RestoredAttributes(cs, e, fields);
    var attachments := RestoredAttachments(cs, e, fields);
    if attributes.Err? || attachments.Err? {
      return Err(DuplicateId), q;
    }
    var confirmation := Confirmation(e, revision, Heads(cs), Restore, Values(fields), Some(group), NewObjects(e, attributes.value, attachments.value));
    q := confirmation;
    RestorationIsConfirmable(cs, q, form);
    RestorationIsOriginal(cs, q, form);
    HeadsSeeAll(cs);
    ListPassesCheck(cs, q, form, fields);
    result := WriteResolution(cs, confirmation, fields, now, a);
  }
}
