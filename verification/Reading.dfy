/**
 The loops that read an entry, from taypeer-document/src/projection.rs: collect the state of
 every field, then assemble the selected values. They compute exactly `Project`.
 */
module Reading {
  import opened Wrappers
  import opened Operations
  import opened Entries
  import opened CausalDocument
  import opened Selection
  import opened Projection
  import opened Soundness

  /** `get_all`: the visible operations in some order. */
  method GetAll(v: Changes, r: Register) returns (listed: seq<Source>)
    ensures SetOf(listed) == Sources(v, r)
    ensures forall i, j :: 0 <= i < j < |listed| ==> listed[i] != listed[j]
    ensures listed == [] <==> Visible(v, r) == {}
  {
    listed := [];
    var pending := Visible(v, r);
    while pending != {}
      invariant pending <= Visible(v, r)
      invariant forall s :: s in listed <==> exists a :: a in Visible(v, r) - pending && SourceOf(v, r, a) == s
      invariant forall i, j :: 0 <= i < j < |listed| ==> listed[i] != listed[j]
      invariant forall s :: s in listed ==> s.operation.actor !in pending
      invariant listed == [] <==> pending == Visible(v, r)
    {
      var a :| a in pending;
      pending := pending - {a};
      listed := listed + [SourceOf(v, r, a)];
    }
    forall s ensures s in SetOf(listed) <==> s in Sources(v, r) {
      if s in Sources(v, r) {
        var a :| a in v && r in v[a].puts && Uncovered(v, r, a) && SourceOf(v, r, a) == s;
        assert a in Visible(v, r);
      }
    }
  }

  /** A state is what one field of the entry shows. */
  ghost predicate Shows(v: Changes, e: EntryId, state: FieldState)
  {
    state.variants != [] && Canonical(state.variants, Sources(v, Field(e, state.field)))
  }

  method ReadState(v: Changes, e: EntryId, f: EntryField) returns (result: Result<FieldState, Error>)
    ensures result.Err? <==> Visible(v, Field(e, f)) == {}
    ensures result.Ok? ==> result.value.field == f && Shows(v, e, result.value)
  {
    SourcesAreDistinct(v, Field(e, f));
    var listed := GetAll(v, Field(e, f));
    result := ReadField(f, listed);
  }

  lemma ChampionIsSelected(v: Changes, e: EntryId, f: EntryField, s: Source)
    requires Champion(f, Sources(v, Field(e, f)), s)
    ensures s.value == Selected(v, e, f) && Chosen(v, Field(e, f)).Some?
  {
    var r := Field(e, f);
    var a :| a in v && r in v[a].puts && Uncovered(v, r, a) && SourceOf(v, r, a) == s;
    ChosenIsBest(v, r, a);
  }

  /** Selection from a state is the choice among everything visible. */
  method SelectFrom(ghost v: Changes, ghost e: EntryId, state: FieldState) returns (value: FieldValue)
    requires Shows(v, e, state)
    ensures value == Selected(v, e, state.field) && Chosen(v, Field(e, state.field)).Some?
  {
    SourcesAreDistinct(v, Field(e, state.field));
    var variant, champion := SelectedVariant(state, Sources(v, Field(e, state.field)));
    ChampionIsSelected(v, e, state.field, champion);
    value := variant.value.value;
  }

  // ----- all fields of an entry

  /** The fields a reading lists: scalars, presences, and the parts of what is present. */
  ghost predicate Listed(v: Changes, e: EntryId, f: EntryField)
  {
    || IsScalar(f)
    || (OfAttribute(f) && f.attribute in AttributeIds(v, e) && (IsPresence(f) || Present(v, e, PresenceOf(f))))
    || (OfAttachment(f) && f.attachment in AttachmentIds(v, e) && (IsPresence(f) || Present(v, e, PresenceOf(f))))
  }

  predicate HasField(values: seq<FieldState>, f: EntryField)
  {
    exists i :: 0 <= i < |values| && values[i].field == f
  }

  /** No field is listed twice. */
  ghost predicate OneEach(values: seq<FieldState>)
  {
    forall i, j :: 0 <= i < j < |values| ==> values[i].field != values[j].field
  }

  ghost predicate Reads(v: Changes, e: EntryId, values: seq<FieldState>)
  {
    forall i :: 0 <= i < |values| ==> Shows(v, e, values[i])
  }

  lemma ListedIsVisible(v: Changes, e: EntryId, f: EntryField)
    requires Valid(v) && EntryIn(v, e) && Listed(v, e, f)
    ensures Visible(v, Field(e, f)) != {}
  {
    if IsScalar(f) {
      EntryHasScalars(v, e, f);
    } else {
      ObjectIds(v, e, if OfAttribute(f) then f.attribute else f.attachment);
      HolderHasParts(v, HolderOf(e, f), Field(e, f));
    }
    WrittenIsVisible(v, Field(e, f));
  }

  lemma AppendField(values: seq<FieldState>, state: FieldState)
    ensures forall f :: HasField(values + [state], f) <==> HasField(values, f) || f == state.field
    ensures OneEach(values) && !HasField(values, state.field) ==> OneEach(values + [state])
  {
    var all := values + [state];
    assert all[|values|] == state;
    forall f | HasField(values, f) ensures HasField(all, f) {
      var i :| 0 <= i < |values| && values[i].field == f;
      assert all[i].field == f;
    }
  }

  method ReadScalars(v: Changes, e: EntryId) returns (values: seq<FieldState>)
    requires Valid(v) && EntryIn(v, e)
    ensures Reads(v, e, values) && OneEach(values) && forall f :: HasField(values, f) <==> IsScalar(f)
  {
    values := [];
    for i := 0 to |SCALARS|
      invariant Reads(v, e, values) && OneEach(values) && forall f :: HasField(values, f) <==> f in SCALARS[..i]
    {
      ScalarsAreListed(SCALARS[i]);
      ScalarsAreDistinct(i);
      ListedIsVisible(v, e, SCALARS[i]);
      var state := ReadState(v, e, SCALARS[i]);
      AppendField(values, state.value);
      values := values + [state.value];
      assert SCALARS[..i + 1] == SCALARS[..i] + [SCALARS[i]];
    }
    assert SCALARS[..|SCALARS|] == SCALARS;
    forall f ensures HasField(values, f) <==> IsScalar(f) {
      ScalarsAreListed(f);
    }
  }

  /** The two parts of a present attribute or attachment. */
  method ReadParts(v: Changes, e: EntryId, before: seq<FieldState>, holder: Register, name: EntryField, content: EntryField)
    returns (values: seq<FieldState>)
    requires Valid(v) && Reads(v, e, before) && IsHolder(holder) && Written(v, holder)
    requires Inside(holder, Field(e, name)) && Inside(holder, Field(e, content))
    requires OneEach(before) && name != content && !HasField(before, name) && !HasField(before, content)
    ensures Reads(v, e, values)
    ensures forall f :: HasField(values, f) <==> HasField(before, f) || f == name || f == content
    ensures OneEach(values)
  {
    HolderHasParts(v, holder, Field(e, name));
    HolderHasParts(v, holder, Field(e, content));
    WrittenIsVisible(v, Field(e, name));
    WrittenIsVisible(v, Field(e, content));
    var nameState := ReadState(v, e, name);
    var contentState := ReadState(v, e, content);
    AppendField(before, nameState.value);
    AppendField(before + [nameState.value], contentState.value);
    values := before + [nameState.value] + [contentState.value];
  }

  /** The fields of one attribute or attachment: its presence, and its parts unless it was removed. */
  method ReadObject(v: Changes, e: EntryId, before: seq<FieldState>, presence: EntryField, name: EntryField, content: EntryField)
    returns (values: seq<FieldState>)
    requires Valid(v) && Reads(v, e, before)
    requires IsPresence(presence) && !IsScalar(name) && !IsScalar(content)
    requires HolderOf(e, name) == HolderOf(e, content) == HolderOf(e, presence) && Written(v, HolderOf(e, presence))
    requires OneEach(before) && name != content && presence != name && presence != content
    requires !HasField(before, name) && !HasField(before, content) && !HasField(before, presence)
    ensures Reads(v, e, values)
    ensures forall f :: HasField(values, f) <==>
              HasField(before, f) || f == presence || (Present(v, e, presence) && (f == name || f == content))
    ensures OneEach(values)
  {
    values := before;
    HolderHasParts(v, HolderOf(e, presence), Field(e, presence));
    WrittenIsVisible(v, Field(e, presence));
    ChosenFits(v, Field(e, presence));
    var state := ReadState(v, e, presence);
    var selected := SelectFrom(v, e, state.value);
    assert selected != PresenceValue(false) <==> Present(v, e, presence);
    if selected != PresenceValue(false) {
      values := ReadParts(v, e, before, HolderOf(e, presence), name, content);
    }
    AppendField(values, state.value);
    values := values + [state.value];
  }

  /** The fields of one attribute, after the others. */
  method ReadAttribute(v: Changes, e: EntryId, before: seq<FieldState>, x: AttributeId) returns (values: seq<FieldState>)
    requires Valid(v) && Reads(v, e, before) && x in AttributeIds(v, e)
    requires OneEach(before) && forall f :: OfAttribute(f) && f.attribute == x ==> !HasField(before, f)
    ensures Reads(v, e, values) && OneEach(values)
    ensures forall f :: HasField(values, f) <==> HasField(before, f) || (OfAttribute(f) && f.attribute == x && Listed(v, e, f))
  {
    ObjectIds(v, e, x);
    values := ReadObject(v, e, before, AttributePresence(x), AttributeName(x), AttributeData(x));
  }

  method ReadAttributes(v: Changes, e: EntryId, before: seq<FieldState>) returns (values: seq<FieldState>)
    requires Valid(v) && Reads(v, e, before)
    requires OneEach(before) && forall f :: HasField(before, f) ==> !OfAttribute(f)
    ensures Reads(v, e, values) && OneEach(values)
    ensures forall f :: HasField(values, f) <==> HasField(before, f) || (OfAttribute(f) && Listed(v, e, f))
  {
    values := before;
    var ids := AttributeIds(v, e);
    var pending := ids;
    while pending != {}
      invariant pending <= ids && Reads(v, e, values) && OneEach(values)
      invariant forall f :: HasField(values, f) <==> HasField(before, f) || (OfAttribute(f) && f.attribute in ids - pending && Listed(v, e, f))
    {
      var x :| x in pending;
      values := ReadAttribute(v, e, values, x);
      pending := pending - {x};
    }
  }

  /** The fields of one attachment, after the others. */
  method ReadAttachment(v: Changes, e: EntryId, before: seq<FieldState>, x: AttachmentId) returns (values: seq<FieldState>)
    requires Valid(v) && Reads(v, e, before) && x in AttachmentIds(v, e)
    requires OneEach(before) && forall f :: OfAttachment(f) && f.attachment == x ==> !HasField(before, f)
    ensures Reads(v, e, values) && OneEach(values)
    ensures forall f :: HasField(values, f) <==> HasField(before, f) || (OfAttachment(f) && f.attachment == x && Listed(v, e, f))
  {
    ObjectIds(v, e, x);
    values := ReadObject(v, e, before, AttachmentPresence(x), AttachmentName(x), AttachmentBlob(x));
  }

  method ReadAttachments(v: Changes, e: EntryId, before: seq<FieldState>) returns (values: seq<FieldState>)
    requires Valid(v) && Reads(v, e, before)
    requires OneEach(before) && forall f :: HasField(before, f) ==> !OfAttachment(f)
    ensures Reads(v, e, values) && OneEach(values)
    ensures forall f :: HasField(values, f) <==> HasField(before, f) || (OfAttachment(f) && Listed(v, e, f))
  {
    values := before;
    var ids := AttachmentIds(v, e);
    var pending := ids;
    while pending != {}
      invariant pending <= ids && Reads(v, e, values) && OneEach(values)
      invariant forall f :: HasField(values, f) <==> HasField(before, f) || (OfAttachment(f) && f.attachment in ids - pending && Listed(v, e, f))
    {
      var x :| x in pending;
      values := ReadAttachment(v, e, values, x);
      pending := pending - {x};
    }
  }

  /** `read_values`. */
  method ReadValues(v: Changes, e: EntryId) returns (values: seq<FieldState>)
    requires Valid(v) && EntryIn(v, e)
    ensures Reads(v, e, values) && OneEach(values) && forall f :: HasField(values, f) <==> Listed(v, e, f)
  {
    values := ReadScalars(v, e);
    values := ReadAttributes(v, e, values);
    values := ReadAttachments(v, e, values);
  }

  // ----- the form

  /** The maps `project_fields` fills while it scans the states. */
  datatype Scan = Scan(
    fields: EntryFields,
    names: map<AttributeId, string>, datas: map<AttributeId, AttributeValue>, present: set<AttributeId>,
    attachmentNames: map<AttachmentId, string>, blobs: map<AttachmentId, BlobId>, attached: set<AttachmentId>)

  function PutScalar(fields: EntryFields, f: EntryField, value: FieldValue): Option<EntryFields>
    requires IsScalar(f)
  {
    match (f, value)
    case (Title, TextValue(Some(text))) => Some(fields.(title := text))
    case (Username, TextValue(text)) => Some(fields.(username := text))
    case (Password, TextValue(text)) => Some(fields.(password := text))
    case (Url, TextValue(text)) => Some(fields.(url := text))
    case (Notes, TextValue(text)) => Some(fields.(notes := text))
    case (Tags, TagsValue(tags)) => Some(fields.(tags := tags))
    case (ExpiresAt, TimeValue(time)) => Some(fields.(expiresAt := time))
    case (Icon, IconValue(icon)) => Some(fields.(icon := icon))
    case (Foreground, ColorValue(color)) => Some(fields.(foreground := color))
    case (Background, ColorValue(color)) => Some(fields.(background := color))
    case _ => None
  }

  lemma PutScalarSets(fields: EntryFields, f: EntryField, value: FieldValue, g: EntryField)
    requires IsScalar(f) && IsScalar(g) && ValidField(f, value)
    ensures PutScalar(fields, f, value).Some?
    ensures ScalarOf(PutScalar(fields, f, value).value, g) == if f == g then value else ScalarOf(fields, g)
  {
  }

  lemma PutScalarKeeps(fields: EntryFields, f: EntryField, value: FieldValue)
    requires IsScalar(f) && PutScalar(fields, f, value).Some?
    ensures PutScalar(fields, f, value).value.attributes == fields.attributes
    ensures PutScalar(fields, f, value).value.attachments == fields.attachments
  {
  }

  /** One turn of the scan; a value of the wrong type is malformed. */
  function ScanOne(s: Scan, f: EntryField, value: FieldValue): Option<Scan>
  {
    if IsScalar(f) then
      match PutScalar(s.fields, f, value) {
        case Some(fields) => Some(s.(fields := fields))
        case None => None
      }
    else match (f, value)
    case (AttributeName(x), TextValue(Some(text))) => Some(s.(names := s.names[x := text]))
    case (AttributeData(x), DataValue(data)) => Some(s.(datas := s.datas[x := data]))
    case (AttributePresence(x), PresenceValue(present)) => Some(if present then s.(present := s.present + {x}) else s)
    case (AttachmentName(x), TextValue(Some(text))) => Some(s.(attachmentNames := s.attachmentNames[x := text]))
    case (AttachmentBlob(x), BlobValue(blob)) => Some(s.(blobs := s.blobs[x := blob]))
    case (AttachmentPresence(x), PresenceValue(present)) => Some(if present then s.(attached := s.attached + {x}) else s)
    case _ => None
  }

  // What has been scanned so far is what is selected.

  ghost predicate ScalarsScanned(selected: EntryField -> FieldValue, seen: set<EntryField>, s: Scan)
  {
    && (forall f :: IsScalar(f) && f in seen ==> ScalarOf(s.fields, f) == selected(f))
    && s.fields.attributes == map[] && s.fields.attachments == map[]
  }

  ghost predicate AttributesScanned(selected: EntryField -> FieldValue, seen: set<EntryField>, s: Scan)
  {
    && (forall x :: AttributeName(x) in seen ==> x in s.names && s.names[x] == NameOf(selected(AttributeName(x))))
    && (forall x :: AttributeData(x) in seen ==> x in s.datas && s.datas[x] == DataOf(selected(AttributeData(x))))
    && (forall x :: x in s.present <==> AttributePresence(x) in seen && selected(AttributePresence(x)) == PresenceValue(true))
  }

  ghost predicate AttachmentsScanned(selected: EntryField -> FieldValue, seen: set<EntryField>, s: Scan)
  {
    && (forall x :: AttachmentName(x) in seen ==>
          x in s.attachmentNames && s.attachmentNames[x] == NameOf(selected(AttachmentName(x))))
    && (forall x :: AttachmentBlob(x) in seen ==> x in s.blobs && s.blobs[x] == BlobOf(selected(AttachmentBlob(x))))
    && (forall x :: x in s.attached <==>
          AttachmentPresence(x) in seen && selected(AttachmentPresence(x)) == PresenceValue(true))
  }

  ghost predicate Scanned(selected: EntryField -> FieldValue, seen: set<EntryField>, s: Scan)
  {
    ScalarsScanned(selected, seen, s) && AttributesScanned(selected, seen, s) && AttachmentsScanned(selected, seen, s)
  }

  lemma ScanScalar(selected: EntryField -> FieldValue, seen: set<EntryField>, s: Scan, f: EntryField)
    requires Scanned(selected, seen, s) && IsScalar(f) && ValidField(f, selected(f))
    ensures ScanOne(s, f, selected(f)).Some? && Scanned(selected, seen + {f}, ScanOne(s, f, selected(f)).value)
  {
    PutScalarSets(s.fields, f, selected(f), f);
    PutScalarKeeps(s.fields, f, selected(f));
    var t := ScanOne(s, f, selected(f)).value;
    forall g | IsScalar(g) && g in seen + {f} ensures ScalarOf(t.fields, g) == selected(g) {
      PutScalarSets(s.fields, f, selected(f), g);
    }
  }

  lemma ScanAttributePart(selected: EntryField -> FieldValue, seen: set<EntryField>, s: Scan, f: EntryField)
    requires AttributesScanned(selected, seen, s) && OfAttribute(f) && ValidField(f, selected(f))
    ensures ScanOne(s, f, selected(f)).Some?
    ensures var t := ScanOne(s, f, selected(f)).value;
            AttributesScanned(selected, seen + {f}, t) && t.fields == s.fields
            && t.attachmentNames == s.attachmentNames && t.blobs == s.blobs && t.attached == s.attached
  {
  }

  lemma ScanAttachmentPart(selected: EntryField -> FieldValue, seen: set<EntryField>, s: Scan, f: EntryField)
    requires AttachmentsScanned(selected, seen, s) && OfAttachment(f) && ValidField(f, selected(f))
    ensures ScanOne(s, f, selected(f)).Some?
    ensures var t := ScanOne(s, f, selected(f)).value;
            AttachmentsScanned(selected, seen + {f}, t) && t.fields == s.fields
            && t.names == s.names && t.datas == s.datas && t.present == s.present
  {
  }

  lemma ScanPart(selected: EntryField -> FieldValue, seen: set<EntryField>, s: Scan, f: EntryField)
    requires Scanned(selected, seen, s) && !IsScalar(f) && ValidField(f, selected(f))
    ensures ScanOne(s, f, selected(f)).Some? && Scanned(selected, seen + {f}, ScanOne(s, f, selected(f)).value)
  {
    if OfAttribute(f) {
      ScanAttributePart(selected, seen, s, f);
    } else {
      ScanAttachmentPart(selected, seen, s, f);
    }
  }

  ghost function SelectedAt(v: Changes, e: EntryId): EntryField -> FieldValue
  {
    f => Selected(v, e, f)
  }

  function FieldsOf(values: seq<FieldState>): set<EntryField>
  {
    set i | 0 <= i < |values| :: values[i].field
  }

  lemma SelectedIsTyped(v: Changes, e: EntryId, f: EntryField)
    requires Valid(v) && Chosen(v, Field(e, f)).Some?
    ensures ValidField(f, Selected(v, e, f))
  {
    ChosenFits(v, Field(e, f));
  }

  /** The scan of `project_fields`. */
  method ScanStates(ghost v: Changes, ghost e: EntryId, values: seq<FieldState>) returns (result: Result<Scan, Error>)
    requires Valid(v) && Reads(v, e, values)
    ensures result.Ok? && Scanned(SelectedAt(v, e), FieldsOf(values), result.value)
  {
    var empty := EntryFields("", None, None, None, None, {}, None, DefaultIcon, None, None, map[], map[]);
    var s := Scan(empty, map[], map[], {}, map[], map[], {});
    for i := 0 to |values|
      invariant Scanned(SelectedAt(v, e), FieldsOf(values[..i]), s)
    {
      var value := SelectFrom(v, e, values[i]);
      SelectedIsTyped(v, e, values[i].field);
      ScanNext(v, e, FieldsOf(values[..i]), s, values[i].field);
      assert values[..i + 1] == values[..i] + [values[i]];
      FieldsGrow(values[..i], values[i]);
      var next := ScanOne(s, values[i].field, value);
      if next == None {
        return Err(InvalidDocument);
      }
      s := next.value;
    }
    assert values[..|values|] == values;
    result := Ok(s);
  }

  lemma FieldsGrow(values: seq<FieldState>, state: FieldState)
    ensures FieldsOf(values + [state]) == FieldsOf(values) + {state.field}
  {
    var all := values + [state];
    forall f ensures f in FieldsOf(all) <==> f in FieldsOf(values) + {state.field} {
      if f in FieldsOf(values) {
        var i :| 0 <= i < |values| && values[i].field == f;
        assert all[i].field == f;
      }
      assert all[|values|].field == state.field;
    }
  }

  lemma ScanNext(v: Changes, e: EntryId, seen: set<EntryField>, s: Scan, f: EntryField)
    requires Scanned(SelectedAt(v, e), seen, s) && ValidField(f, Selected(v, e, f))
    ensures ScanOne(s, f, Selected(v, e, f)).Some?
    ensures Scanned(SelectedAt(v, e), seen + {f}, ScanOne(s, f, Selected(v, e, f)).value)
  {
    var selected := SelectedAt(v, e);
    assert selected(f) == Selected(v, e, f);
    if IsScalar(f) {
      ScanScalar(selected, seen, s, f);
    } else {
      ScanPart(selected, seen, s, f);
    }
  }

  method AssembleAttributes(s: Scan) returns (result: Result<map<AttributeId, Attribute>, Error>)
    ensures result.Err? <==> !(s.present <= s.names.Keys && s.present <= s.datas.Keys)
    ensures result.Ok? ==> result.value == map x | x in s.present :: Attribute(x, s.names[x], s.datas[x])
  {
    var built: map<AttributeId, Attribute> := map[];
    var pending := s.present;
    while pending != {}
      invariant pending <= s.present && built.Keys == s.present - pending
      invariant forall x :: x in built ==> x in s.names && x in s.datas && built[x] == Attribute(x, s.names[x], s.datas[x])
    {
      var x :| x in pending;
      pending := pending - {x};
      if x !in s.names || x !in s.datas {
        return Err(InvalidDocument);
      }
      built := built[x := Attribute(x, s.names[x], s.datas[x])];
    }
    result := Ok(built);
  }

  method AssembleAttachments(s: Scan) returns (result: Result<map<AttachmentId, Attachment>, Error>)
    ensures result.Err? <==> !(s.attached <= s.attachmentNames.Keys && s.attached <= s.blobs.Keys)
    ensures result.Ok? ==> result.value == map x | x in s.attached :: Attachment(x, s.attachmentNames[x], s.blobs[x])
  {
    var built: map<AttachmentId, Attachment> := map[];
    var pending := s.attached;
    while pending != {}
      invariant pending <= s.attached && built.Keys == s.attached - pending
      invariant forall x :: x in built ==>
                  x in s.attachmentNames && x in s.blobs && built[x] == Attachment(x, s.attachmentNames[x], s.blobs[x])
    {
      var x :| x in pending;
      pending := pending - {x};
      if x !in s.attachmentNames || x !in s.blobs {
        return Err(InvalidDocument);
      }
      built := built[x := Attachment(x, s.attachmentNames[x], s.blobs[x])];
    }
    result := Ok(built);
  }

  lemma AttributeShown(v: Changes, e: EntryId, x: AttributeId)
    requires Valid(v)
    ensures x in AttributesOf(v, e) <==>
            Listed(v, e, AttributePresence(x)) && Selected(v, e, AttributePresence(x)) == PresenceValue(true)
    ensures x in AttributesOf(v, e) ==> Listed(v, e, AttributeName(x)) && Listed(v, e, AttributeData(x))
  {
    AttributeKeys(v, e, x);
    if Present(v, e, AttributePresence(x)) {
      PresentIsComplete(v, e, AttributePresence(x), AttributePresence(x));
      ObjectIds(v, e, x);
    }
  }

  lemma AttachmentShown(v: Changes, e: EntryId, x: AttachmentId)
    requires Valid(v)
    ensures x in AttachmentsOf(v, e) <==>
            Listed(v, e, AttachmentPresence(x)) && Selected(v, e, AttachmentPresence(x)) == PresenceValue(true)
    ensures x in AttachmentsOf(v, e) ==> Listed(v, e, AttachmentName(x)) && Listed(v, e, AttachmentBlob(x))
  {
    AttachmentKeys(v, e, x);
    if Present(v, e, AttachmentPresence(x)) {
      PresentIsComplete(v, e, AttachmentPresence(x), AttachmentPresence(x));
      ObjectIds(v, e, x);
    }
  }

  lemma AttributeAssembled(v: Changes, e: EntryId, seen: set<EntryField>, s: Scan, x: AttributeId)
    requires Valid(v) && AttributesScanned(SelectedAt(v, e), seen, s) && forall f :: f in seen <==> Listed(v, e, f)
    ensures x in s.present <==> x in AttributesOf(v, e)
    ensures x in s.present ==> x in s.names && x in s.datas && AttributesOf(v, e)[x] == Attribute(x, s.names[x], s.datas[x])
  {
    AttributeShown(v, e, x);
    assert AttributePresence(x) in seen <==> Listed(v, e, AttributePresence(x));
    assert AttributeName(x) in seen <==> Listed(v, e, AttributeName(x));
    assert AttributeData(x) in seen <==> Listed(v, e, AttributeData(x));
  }

  lemma AttributesAssembled(v: Changes, e: EntryId, seen: set<EntryField>, s: Scan)
    requires Valid(v) && AttributesScanned(SelectedAt(v, e), seen, s) && forall f :: f in seen <==> Listed(v, e, f)
    ensures s.present <= s.names.Keys && s.present <= s.datas.Keys
    ensures AttributesOf(v, e) == map x | x in s.present :: Attribute(x, s.names[x], s.datas[x])
  {
    forall x
      ensures x in s.present <==> x in AttributesOf(v, e)
      ensures x in s.present ==> x in s.names && x in s.datas && AttributesOf(v, e)[x] == Attribute(x, s.names[x], s.datas[x])
    {
      AttributeAssembled(v, e, seen, s, x);
    }
  }

  lemma AttachmentAssembled(v: Changes, e: EntryId, seen: set<EntryField>, s: Scan, x: AttachmentId)
    requires Valid(v) && AttachmentsScanned(SelectedAt(v, e), seen, s) && forall f :: f in seen <==> Listed(v, e, f)
    ensures x in s.attached <==> x in AttachmentsOf(v, e)
    ensures x in s.attached ==> x in s.attachmentNames && x in s.blobs && AttachmentsOf(v, e)[x] == Attachment(x, s.attachmentNames[x], s.blobs[x])
  {
    AttachmentShown(v, e, x);
    assert AttachmentPresence(x) in seen <==> Listed(v, e, AttachmentPresence(x));
    assert AttachmentName(x) in seen <==> Listed(v, e, AttachmentName(x));
    assert AttachmentBlob(x) in seen <==> Listed(v, e, AttachmentBlob(x));
  }

  lemma AttachmentsAssembled(v: Changes, e: EntryId, seen: set<EntryField>, s: Scan)
    requires Valid(v) && AttachmentsScanned(SelectedAt(v, e), seen, s) && forall f :: f in seen <==> Listed(v, e, f)
    ensures s.attached <= s.attachmentNames.Keys && s.attached <= s.blobs.Keys
    ensures AttachmentsOf(v, e) == map x | x in s.attached :: Attachment(x, s.attachmentNames[x], s.blobs[x])
  {
    forall x
      ensures x in s.attached <==> x in AttachmentsOf(v, e)
      ensures x in s.attached ==> x in s.attachmentNames && x in s.blobs && AttachmentsOf(v, e)[x] == Attachment(x, s.attachmentNames[x], s.blobs[x])
    {
      AttachmentAssembled(v, e, seen, s, x);
    }
  }

  lemma FormRead(v: Changes, e: EntryId, seen: set<EntryField>, s: Scan, fields: EntryFields)
    requires Valid(v) && EntryIn(v, e) && ScalarsScanned(SelectedAt(v, e), seen, s) && forall f :: f in seen <==> Listed(v, e, f)
    requires fields == s.fields.(attributes := AttributesOf(v, e), attachments := AttachmentsOf(v, e))
    ensures fields == Project(v, e)
  {
    forall f | IsScalar(f) ensures ScalarOf(fields, f) == ScalarOf(Project(v, e), f) {
      assert f in seen <==> Listed(v, e, f);
      ProjectScalar(v, e, f);
      assert ScalarOf(fields, f) == ScalarOf(s.fields, f);
    }
    FormsEqual(fields, Project(v, e));
  }

  lemma SeenFields(values: seq<FieldState>)
    ensures forall f :: f in FieldsOf(values) <==> HasField(values, f)
  {
  }

  /** `read_entry`: never fails on an existing entry of a valid document. */
  method ReadEntry(v: Changes, e: EntryId) returns (result: Result<EntryFields, Error>)
    requires Valid(v) && EntryIn(v, e)
    ensures result == Ok(Project(v, e)) && ValidForm(Project(v, e))
  {
    var values := ReadValues(v, e);
    SeenFields(values);
    var scan := ScanStates(v, e, values);
    AttributesAssembled(v, e, FieldsOf(values), scan.value);
    AttachmentsAssembled(v, e, FieldsOf(values), scan.value);
    var attributes := AssembleAttributes(scan.value);
    var attachments := AssembleAttachments(scan.value);
    var fields := scan.value.fields.(attributes := attributes.value, attachments := attachments.value);
    FormRead(v, e, FieldsOf(values), scan.value, fields);
    ProjectIsValidForm(v, e);
    if !ValidForm(fields) {
      return Err(Validation);
    }
    result := Ok(fields);
  }
}
