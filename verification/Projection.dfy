/**
 The selected projection of an entry, from taypeer-document/src/projection.rs: one value for
 each register, chosen among everything visible, assembled into an editable form.
 */
module Projection {
  import opened Wrappers
  import opened Operations
  import opened Entries
  import opened CausalDocument
  import opened Selection

  /** `decode_field`: the revision inside a presence is not part of its value. */
  function Decoded(s: Scalar): FieldValue
  {
    match s
    case Data(value) => value
    case Mark(alive, _) => PresenceValue(alive)
    case _ => PresenceValue(false)
  }

  function SourceOf(v: Changes, r: Register, a: Actor): Source
    requires a in v && r in v[a].puts
  {
    Source(Decoded(v[a].puts[r].scalar), OpId(v[a].puts[r].counter, a))
  }

  /** `get_all` with decoded values. */
  function Sources(v: Changes, r: Register): set<Source>
  {
    set a | a in v && r in v[a].puts && Uncovered(v, r, a) :: SourceOf(v, r, a)
  }

  lemma SourcesAreDistinct(v: Changes, r: Register)
    ensures Distinct(Sources(v, r))
    ensures Sources(v, r) == {} <==> Visible(v, r) == {}
  {
    if a :| a in Visible(v, r) {
      assert SourceOf(v, r, a) in Sources(v, r);
    }
    if s :| s in Sources(v, r) {
      var a :| a in v && r in v[a].puts && Uncovered(v, r, a) && SourceOf(v, r, a) == s;
      assert a in Visible(v, r);
    }
  }

  /** The field whose priorities apply; registers other than fields are ranked by operation alone. */
  function PriorityOf(r: Register): EntryField
  {
    if r.Field? then r.field else Title
  }

  ghost predicate IsBest(v: Changes, r: Register, a: Actor)
  {
    a in Visible(v, r) && Champion(PriorityOf(r), Sources(v, r), SourceOf(v, r, a))
  }

  lemma BestExists(v: Changes, r: Register)
    requires Visible(v, r) != {}
    ensures exists a :: IsBest(v, r, a)
  {
    SourcesAreDistinct(v, r);
    var s := ChampionExists(PriorityOf(r), Sources(v, r));
    var a :| a in v && r in v[a].puts && Uncovered(v, r, a) && SourceOf(v, r, a) == s;
    assert IsBest(v, r, a);
  }

  lemma BestUnique(v: Changes, r: Register, a: Actor, b: Actor)
    requires IsBest(v, r, a) && IsBest(v, r, b)
    ensures a == b
  {
    SourcesAreDistinct(v, r);
    ChampionUnique(PriorityOf(r), Sources(v, r), SourceOf(v, r, a), SourceOf(v, r, b));
  }

  ghost function BestOf(v: Changes, r: Register): Actor
    requires Visible(v, r) != {}
  {
    BestExists(v, r);
    var a :| IsBest(v, r, a);
    a
  }

  /** The scalar that represents a register: the best visible one. */
  ghost function Chosen(v: Changes, r: Register): Option<Scalar>
  {
    if Visible(v, r) == {} then None else Some(v[BestOf(v, r)].puts[r].scalar)
  }

  lemma ChosenIsBest(v: Changes, r: Register, a: Actor)
    requires IsBest(v, r, a)
    ensures Chosen(v, r) == Some(v[a].puts[r].scalar)
  {
    BestUnique(v, r, a, BestOf(v, r));
  }

  lemma OnlyVisibleIsChosen(v: Changes, r: Register, a: Actor)
    requires Visible(v, r) == {a}
    ensures Chosen(v, r) == Some(v[a].puts[r].scalar)
  {
    assert BestOf(v, r) in {a};
  }

  /** A register whose visible puts are the same in two views has the same choice in both. */
  lemma SameVisibleSameChosen(v: Changes, w: Changes, r: Register)
    requires Visible(v, r) == Visible(w, r)
    requires forall a :: a in Visible(v, r) ==> v[a].puts == w[a].puts
    ensures Chosen(v, r) == Chosen(w, r)
  {
    if Visible(v, r) != {} {
      var a := BestOf(v, r);
      forall s | s in Sources(w, r) ensures s in Sources(v, r) {
        var b :| b in w && r in w[b].puts && Uncovered(w, r, b) && SourceOf(w, r, b) == s;
        assert b in Visible(v, r);
      }
      forall s | s in Sources(v, r) ensures s in Sources(w, r) {
        var b :| b in v && r in v[b].puts && Uncovered(v, r, b) && SourceOf(v, r, b) == s;
        assert b in Visible(w, r);
      }
      assert Sources(v, r) == Sources(w, r);
      ChosenIsBest(w, r, a);
    }
  }

  // ----- the form

  ghost function Selected(v: Changes, e: EntryId, f: EntryField): FieldValue
  {
    match Chosen(v, Field(e, f))
    case Some(s) => Decoded(s)
    case None => TextValue(None)
  }

  ghost predicate Present(v: Changes, e: EntryId, f: EntryField)
  {
    Chosen(v, Field(e, f)).Some? && Selected(v, e, f) == PresenceValue(true)
  }

  function AttributeIds(v: Changes, e: EntryId): set<AttributeId>
  {
    set a, r | a in v && r in v[a].puts && r.AttributeObject? && r.entry == e :: r.attribute
  }

  function AttachmentIds(v: Changes, e: EntryId): set<AttachmentId>
  {
    set a, r | a in v && r in v[a].puts && r.AttachmentObject? && r.entry == e :: r.attachment
  }

  lemma ObjectIds(v: Changes, e: EntryId, x: string)
    ensures x in AttributeIds(v, e) <==> Written(v, AttributeObject(e, x))
    ensures x in AttachmentIds(v, e) <==> Written(v, AttachmentObject(e, x))
  {
  }

  function TextOf(value: FieldValue): Option<string>
  {
    if value.TextValue? then value.text else None
  }

  function NameOf(value: FieldValue): string
  {
    if value.TextValue? && value.text.Some? then value.text.value else ""
  }

  function DataOf(value: FieldValue): AttributeValue
  {
    if value.DataValue? then value.data else AttributeValue("", false)
  }

  function BlobOf(value: FieldValue): BlobId
  {
    if value.BlobValue? then value.blob else ""
  }

  function TagsOf(value: FieldValue): set<string>
  {
    if value.TagsValue? then value.tags else {}
  }

  function TimeOf(value: FieldValue): Option<Timestamp>
  {
    if value.TimeValue? then value.time else None
  }

  function IconOf(value: FieldValue): IconRef
  {
    if value.IconValue? then value.icon else DefaultIcon
  }

  function ColorOf(value: FieldValue): Option<Color>
  {
    if value.ColorValue? then value.color else None
  }

  ghost function SelectedAttribute(v: Changes, e: EntryId, x: AttributeId): Attribute
  {
    Attribute(x, NameOf(Selected(v, e, AttributeName(x))), DataOf(Selected(v, e, AttributeData(x))))
  }

  ghost function SelectedAttachment(v: Changes, e: EntryId, x: AttachmentId): Attachment
  {
    Attachment(x, NameOf(Selected(v, e, AttachmentName(x))), BlobOf(Selected(v, e, AttachmentBlob(x))))
  }

  ghost function AttributesOf(v: Changes, e: EntryId): map<AttributeId, Attribute>
  {
    map x | x in AttributeIds(v, e) && Present(v, e, AttributePresence(x)) :: SelectedAttribute(v, e, x)
  }

  ghost function AttachmentsOf(v: Changes, e: EntryId): map<AttachmentId, Attachment>
  {
    map x | x in AttachmentIds(v, e) && Present(v, e, AttachmentPresence(x)) :: SelectedAttachment(v, e, x)
  }

  /** The selected scalars with some attributes and attachments. */
  ghost function FormOf(v: Changes, e: EntryId, attributes: map<AttributeId, Attribute>, attachments: map<AttachmentId, Attachment>): EntryFields
  {
    EntryFields(
      NameOf(Selected(v, e, Title)),
      TextOf(Selected(v, e, Username)),
      TextOf(Selected(v, e, Password)),
      TextOf(Selected(v, e, Url)),
      TextOf(Selected(v, e, Notes)),
      TagsOf(Selected(v, e, Tags)),
      TimeOf(Selected(v, e, ExpiresAt)),
      IconOf(Selected(v, e, Icon)),
      ColorOf(Selected(v, e, Foreground)),
      ColorOf(Selected(v, e, Background)),
      attributes,
      attachments)
  }

  /** `project_fields` over the selected values. */
  ghost function Project(v: Changes, e: EntryId): EntryFields
  {
    FormOf(v, e, AttributesOf(v, e), AttachmentsOf(v, e))
  }
}
