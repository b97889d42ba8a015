/** Entry values of taypeer-core: forms, addressed fields and their validity. */
module Entries {
  import opened Wrappers

  type EntryId = string
  type GroupId = string
  type AttributeId = string
  type AttachmentId = string
  type BlobId = string
  type RevisionId = string
  type Timestamp = int

  datatype Error = Validation | NotFound | Conflict | InvalidContext | DuplicateId | InvalidDocument

  datatype AttributeValue = AttributeValue(text: string, concealed: bool)
  datatype Attribute = Attribute(id: AttributeId, name: string, value: AttributeValue)
  datatype Attachment = Attachment(id: AttachmentId, name: string, blob: BlobId)
  datatype IconRef = DefaultIcon | Lucide(key: string) | Image(blob: BlobId, source: string)
  datatype Color = Color(rgba: seq<bv8>)

  datatype EntryFields = EntryFields(
    title: string, username: Option<string>, password: Option<string>, url: Option<string>, notes: Option<string>,
    tags: set<string>, expiresAt: Option<Timestamp>,
    icon: IconRef, foreground: Option<Color>, background: Option<Color>,
    attributes: map<AttributeId, Attribute>, attachments: map<AttachmentId, Attachment>)

  datatype EntryField =
    | Title | Username | Password | Url | Notes | Tags | ExpiresAt | Icon | Foreground | Background
    | AttributeName(attribute: AttributeId) | AttributeData(attribute: AttributeId) | AttributePresence(attribute: AttributeId)
    | AttachmentName(attachment: AttachmentId) | AttachmentBlob(attachment: AttachmentId) | AttachmentPresence(attachment: AttachmentId)

  datatype FieldValue =
    | TextValue(text: Option<string>)
    | TagsValue(tags: set<string>)
    | TimeValue(time: Option<Timestamp>)
    | DataValue(data: AttributeValue)
    | PresenceValue(present: bool)
    | BlobValue(blob: BlobId)
    | IconValue(icon: IconRef)
    | ColorValue(color: Option<Color>)

  const SCALARS: seq<EntryField> :=
    [Icon, Foreground, Background, Title, Username, Password, Url, Notes, Tags, ExpiresAt]

  predicate OfAttribute(f: EntryField)
  {
    f.AttributeName? || f.AttributeData? || f.AttributePresence?
  }

  predicate OfAttachment(f: EntryField)
  {
    f.AttachmentName? || f.AttachmentBlob? || f.AttachmentPresence?
  }

  predicate IsPresence(f: EntryField)
  {
    f.AttributePresence? || f.AttachmentPresence?
  }

  predicate IsScalar(f: EntryField)
  {
    !OfAttribute(f) && !OfAttachment(f)
  }

  function PlaceOf(f: EntryField): (i: nat)
    requires IsScalar(f)
    ensures i < |SCALARS| && SCALARS[i] == f
  {
    match f
    case Icon => 0
    case Foreground => 1
    case Background => 2
    case Title => 3
    case Username => 4
    case Password => 5
    case Url => 6
    case Notes => 7
    case Tags => 8
    case ExpiresAt => 9
  }

  lemma ScalarsAreListed(f: EntryField)
    ensures IsScalar(f) <==> f in SCALARS
  {
    if IsScalar(f) {
      assert SCALARS[PlaceOf(f)] in SCALARS;
    }
  }

  lemma ScalarsAreDistinct(i: nat)
    requires i < |SCALARS|
    ensures SCALARS[i] !in SCALARS[..i]
  {
  }

  /** `EntryFields::validate`. */
  predicate ValidForm(fields: EntryFields)
  {
    && fields.title != ""
    && (forall x :: x in fields.attachments ==> fields.attachments[x].id == x && fields.attachments[x].name != "")
    && (forall x :: x in fields.attributes ==> fields.attributes[x].id == x && fields.attributes[x].name != "")
  }

  /** `validate_field`: the type of each field, and the names that may not be empty. */
  predicate ValidField(f: EntryField, value: FieldValue)
  {
    match f
    case Title => value.TextValue? && value.text.Some? && value.text.value != ""
    case Username => value.TextValue?
    case Password => value.TextValue?
    case Url => value.TextValue?
    case Notes => value.TextValue?
    case Tags => value.TagsValue?
    case ExpiresAt => value.TimeValue?
    case Icon => value.IconValue?
    case Foreground => value.ColorValue?
    case Background => value.ColorValue?
    case AttributeName(_) => value.TextValue? && value.text.Some? && value.text.value != ""
    case AttributeData(_) => value.DataValue?
    case AttributePresence(_) => value.PresenceValue?
    case AttachmentName(_) => value.TextValue? && value.text.Some? && value.text.value != ""
    case AttachmentBlob(_) => value.BlobValue?
    case AttachmentPresence(_) => value.PresenceValue?
  }

  /** One entry of `form_fields`. */
  function ScalarOf(fields: EntryFields, f: EntryField): FieldValue
    requires IsScalar(f)
  {
    match f
    case Icon => IconValue(fields.icon)
    case Foreground => ColorValue(fields.foreground)
    case Background => ColorValue(fields.background)
    case Title => TextValue(Some(fields.title))
    case Username => TextValue(fields.username)
    case Password => TextValue(fields.password)
    case Url => TextValue(fields.url)
    case Notes => TextValue(fields.notes)
    case Tags => TagsValue(fields.tags)
    case ExpiresAt => TimeValue(fields.expiresAt)
  }

  lemma FormsEqual(a: EntryFields, b: EntryFields)
    requires forall f :: IsScalar(f) ==> ScalarOf(a, f) == ScalarOf(b, f)
    requires a.attributes == b.attributes && a.attachments == b.attachments
    ensures a == b
  {
    assert ScalarOf(a, Icon) == ScalarOf(b, Icon) && ScalarOf(a, Foreground) == ScalarOf(b, Foreground)
        && ScalarOf(a, Background) == ScalarOf(b, Background) && ScalarOf(a, Title) == ScalarOf(b, Title)
        && ScalarOf(a, Username) == ScalarOf(b, Username) && ScalarOf(a, Password) == ScalarOf(b, Password)
        && ScalarOf(a, Url) == ScalarOf(b, Url) && ScalarOf(a, Notes) == ScalarOf(b, Notes)
        && ScalarOf(a, Tags) == ScalarOf(b, Tags) && ScalarOf(a, ExpiresAt) == ScalarOf(b, ExpiresAt);
  }
}
