/**
 `validate_v1_structure` of taypeer-document/src/lifecycle/mod.rs for entries: the loops over
 entries, their objects and the stored rows accept exactly the structured documents.
 */
module Validating {
  import opened Wrappers
  import opened Operations
  import opened Entries
  import opened CausalDocument
  import opened Projection
  import opened Soundness
  import opened Structure

  /** Two changes created the object. */
  ghost predicate Twice(cs: Changes, r: Register)
  {
    exists a, b :: a in cs && b in cs && a != b && r in cs[a].puts && r in cs[b].puts
  }

  lemma UniqueIsNotTwice(cs: Changes, r: Register)
    requires UniqueObjects(cs) && IsObject(r)
    ensures !Twice(cs, r)
  {
    forall a, b | a in cs && b in cs && a != b && r in cs[a].puts ensures r !in cs[b].puts {
      assert !SharedObject(cs, a, b, r);
    }
  }

  /** Nothing overwrites the creation of an object. */
  lemma ObjectsStayVisible(cs: Changes, r: Register, a: Actor)
    requires Valid(cs) && IsObject(r) && a in cs && r in cs[a].puts
    ensures a in Visible(cs, r)
  {
    forall b | b in cs && r in cs[b].puts ensures a !in cs[b].puts[r].over {
      OverIsPast(cs, b, r);
      NothingUnderCreation(cs, b, r);
    }
  }

  lemma NothingUnderCreation(cs: Changes, b: Actor, r: Register)
    requires Valid(cs) && IsObject(r) && b in cs && r in cs[b].puts
    ensures Visible(Before(cs, b), r) == {}
  {
    PutHasRow(cs, b, r);
    ViewsAreValid(cs, b);
    WrittenIsVisible(Before(cs, b), r);
  }

  /** `codec::object`: more than one value under a key is a duplicate. */
  method CheckObject(cs: Changes, r: Register) returns (ok: Result<(), Error>)
    requires Valid(cs) && IsObject(r)
    ensures ok == if Twice(cs, r) then Err(DuplicateId) else Ok(())
  {
    var values := Visible(cs, r);
    forall a | a in cs && r in cs[a].puts ensures a in values {
      ObjectsStayVisible(cs, r, a);
    }
    if |values| > 1 {
      TwoOf(values);
      return Err(DuplicateId);
    }
    AtMostOne(values);
    ok := Ok(());
  }

  lemma TwoOf<T>(s: set<T>)
    requires |s| > 1
    ensures exists x, y :: x in s && y in s && x != y
  {
    var x :| x in s;
    assert |s - {x}| > 0;
    var y :| y in s - {x};
  }

  lemma AtMostOne<T>(s: set<T>)
    requires |s| <= 1
    ensures forall x, y :: x in s && y in s ==> x == y
  {
    forall x, y | x in s && y in s ensures x == y {
      if x != y {
        assert {x, y} <= s;
        Smaller({x, y}, s);
      }
    }
  }

  lemma {:induction false} Smaller<T>(s: set<T>, t: set<T>)
    requires s <= t
    ensures |s| <= |t|
  {
    if x :| x in s {
      Smaller(s - {x}, t - {x});
    }
  }

  /** The objects of one entry, as reading it meets them. */
  method CheckObjects(cs: Changes, e: EntryId) returns (ok: Result<(), Error>)
    requires Valid(cs)
    ensures ok.Err? <==> exists r :: IsHolder(r) && r.entry == e && Twice(cs, r)
    ensures ok.Err? ==> ok.error == DuplicateId
  {
    var attributes := AttributeIds(cs, e);
    while attributes != {}
      invariant attributes <= AttributeIds(cs, e)
      invariant forall x :: x in AttributeIds(cs, e) - attributes ==> !Twice(cs, AttributeObject(e, x))
    {
      var x :| x in attributes;
      ok := CheckObject(cs, AttributeObject(e, x));
      if ok.Err? {
        return;
      }
      attributes := attributes - {x};
    }
    var attachments := AttachmentIds(cs, e);
    while attachments != {}
      invariant attachments <= AttachmentIds(cs, e)
      invariant forall x :: x in AttachmentIds(cs, e) - attachments ==> !Twice(cs, AttachmentObject(e, x))
    {
      var x :| x in attachments;
      ok := CheckObject(cs, AttachmentObject(e, x));
      if ok.Err? {
        return;
      }
      attachments := attachments - {x};
    }
    forall r | IsHolder(r) && r.entry == e ensures !Twice(cs, r) {
      ObjectIds(cs, e, if r.AttributeObject? then r.attribute else r.attachment);
    }
    ok := Ok(());
  }

  /** A second creation of an object that is there once. */
  lemma TwiceAfter(cs: Changes, a: Actor, c: Change, r: Register)
    requires UniqueObjects(cs) && a !in cs && IsObject(r)
    ensures Twice(cs[a := c], r) <==> r in c.puts && Written(cs, r)
  {
    var ds := cs[a := c];
    UniqueIsNotTwice(cs, r);
    if r in c.puts && Written(cs, r) {
      var b :| b in cs && r in cs[b].puts;
      assert a in ds && b in ds && r in ds[b].puts;
    }
  }

  // ----- owners

  /** The identities of one kind that some entries own. */
  function AttributesOwned(cs: Changes, entries: set<EntryId>): set<AttributeId>
  {
    set a, r | a in cs && r in cs[a].puts && r.AttributeObject? && r.entry in entries :: r.attribute
  }

  function AttachmentsOwned(cs: Changes, entries: set<EntryId>): set<AttachmentId>
  {
    set a, r | a in cs && r in cs[a].puts && r.AttachmentObject? && r.entry in entries :: r.attachment
  }

  lemma OwnedBy(cs: Changes, entries: set<EntryId>, x: string)
    ensures x in AttributesOwned(cs, entries) <==> exists e :: e in entries && x in AttributeIds(cs, e)
    ensures x in AttachmentsOwned(cs, entries) <==> exists e :: e in entries && x in AttachmentIds(cs, e)
  {
    if x in AttributesOwned(cs, entries) {
      var a, r :| a in cs && r in cs[a].puts && r.AttributeObject? && r.entry in entries && r.attribute == x;
      assert x in AttributeIds(cs, r.entry);
    }
    if x in AttachmentsOwned(cs, entries) {
      var a, r :| a in cs && r in cs[a].puts && r.AttachmentObject? && r.entry in entries && r.attachment == x;
      assert x in AttachmentIds(cs, r.entry);
    }
  }

  /** The entry owns nothing that the others own. */
  predicate Disjoint(cs: Changes, entries: set<EntryId>, e: EntryId)
  {
    AttributeIds(cs, e) !! AttributesOwned(cs, entries) && AttachmentIds(cs, e) !! AttachmentsOwned(cs, entries)
  }

  /** What the loop over entries has accepted so far. */
  ghost predicate Accepted(cs: Changes, entries: set<EntryId>)
  {
    && (forall r :: IsHolder(r) && r.entry in entries ==> !Twice(cs, r))
    && (forall e, f, x :: e in entries && f in entries && x in AttributeIds(cs, e) && x in AttributeIds(cs, f) ==> e == f)
    && (forall e, f, x :: e in entries && f in entries && x in AttachmentIds(cs, e) && x in AttachmentIds(cs, f) ==> e == f)
  }

  lemma AcceptNext(cs: Changes, entries: set<EntryId>, e: EntryId)
    requires Accepted(cs, entries) && e !in entries && (forall r :: IsHolder(r) && r.entry == e ==> !Twice(cs, r))
    ensures Accepted(cs, entries + {e}) <==> Disjoint(cs, entries, e)
  {
    forall x ensures x in AttributesOwned(cs, entries) <==> exists f :: f in entries && x in AttributeIds(cs, f) {
      OwnedBy(cs, entries, x);
    }
    forall x ensures x in AttachmentsOwned(cs, entries) <==> exists f :: f in entries && x in AttachmentIds(cs, f) {
      OwnedBy(cs, entries, x);
    }
    if !Disjoint(cs, entries, e) {
      if x :| x in AttributeIds(cs, e) && x in AttributesOwned(cs, entries) {
        var f :| f in entries && x in AttributeIds(cs, f);
        assert f in entries + {e} && e in entries + {e};
      } else {
        var x :| x in AttachmentIds(cs, e) && x in AttachmentsOwned(cs, entries);
        var f :| f in entries && x in AttachmentIds(cs, f);
        assert f in entries + {e} && e in entries + {e};
      }
    }
  }

  /** The entries that ever were created. */
  function EntriesOf(cs: Changes): set<EntryId>
  {
    set a, r | a in cs && r in cs[a].puts && r.EntryObject? :: r.entry
  }

  lemma EntriesExist(cs: Changes, e: EntryId)
    ensures e in EntriesOf(cs) <==> EntryIn(cs, e)
  {
  }

  lemma OwnersAgree(cs: Changes, r: Register, q: Register)
    requires OneOwner(cs) && Written(cs, r) && Written(cs, q) && SameIdentity(r, q)
    ensures r.entry == q.entry
  {
    var a :| a in cs && r in cs[a].puts;
    var b :| b in cs && q in cs[b].puts;
    assert !SharedIdentity(cs, a, b, r, q);
  }

  lemma OneOwnerMeans(cs: Changes, e: EntryId, f: EntryId, x: string)
    requires OneOwner(cs)
    ensures x in AttributeIds(cs, e) && x in AttributeIds(cs, f) ==> e == f
    ensures x in AttachmentIds(cs, e) && x in AttachmentIds(cs, f) ==> e == f
  {
    ObjectIds(cs, e, x);
    ObjectIds(cs, f, x);
    if x in AttributeIds(cs, e) && x in AttributeIds(cs, f) {
      OwnersAgree(cs, AttributeObject(e, x), AttributeObject(f, x));
    }
    if x in AttachmentIds(cs, e) && x in AttachmentIds(cs, f) {
      OwnersAgree(cs, AttachmentObject(e, x), AttachmentObject(f, x));
    }
  }

  lemma StructuredIsAccepted(cs: Changes)
    requires UniqueObjects(cs) && OneOwner(cs)
    ensures (forall e :: !Twice(cs, EntryObject(e))) && Accepted(cs, EntriesOf(cs))
  {
    forall r | IsObject(r) ensures !Twice(cs, r) {
      UniqueIsNotTwice(cs, r);
    }
    forall e, f, x
      ensures x in AttributeIds(cs, e) && x in AttributeIds(cs, f) ==> e == f
      ensures x in AttachmentIds(cs, e) && x in AttachmentIds(cs, f) ==> e == f
    {
      OneOwnerMeans(cs, e, f, x);
    }
  }

  lemma AcceptedIsUnique(cs: Changes)
    requires Valid(cs) && (forall e :: !Twice(cs, EntryObject(e))) && Accepted(cs, EntriesOf(cs))
    ensures UniqueObjects(cs)
  {
    forall a, r | a in cs && r in cs[a].puts && IsObject(r) ensures !Twice(cs, r) {
      PutHasRow(cs, a, r);
      EntriesExist(cs, r.entry);
    }
  }

  lemma AcceptedHasOneOwner(cs: Changes)
    requires Valid(cs) && Accepted(cs, EntriesOf(cs))
    ensures OneOwner(cs)
  {
    forall a, b, r, q | a in cs && b in cs && r in cs[a].puts && q in cs[b].puts && SameIdentity(r, q) ensures r.entry == q.entry {
      PutHasRow(cs, a, r);
      PutHasRow(cs, b, q);
      EntriesExist(cs, r.entry);
      EntriesExist(cs, q.entry);
      var x := if r.AttributeObject? then r.attribute else r.attachment;
      ObjectIds(cs, r.entry, x);
      ObjectIds(cs, q.entry, x);
    }
  }

  /** The shells and the entries pass exactly when objects are unique and have one owner each. */
  lemma ObjectsAreAccepted(cs: Changes)
    requires Valid(cs)
    ensures UniqueObjects(cs) && OneOwner(cs) <==> (forall e :: !Twice(cs, EntryObject(e))) && Accepted(cs, EntriesOf(cs))
  {
    if UniqueObjects(cs) && OneOwner(cs) {
      StructuredIsAccepted(cs);
    }
    if (forall e :: !Twice(cs, EntryObject(e))) && Accepted(cs, EntriesOf(cs)) {
      AcceptedIsUnique(cs);
      AcceptedHasOneOwner(cs);
    }
  }

  /** A document without entries has no rows. */
  lemma NoEntriesNoRows(cs: Changes)
    requires Valid(cs) && EntriesOf(cs) == {}
    ensures UniqueRows(cs)
  {
    forall a | a in cs ensures cs[a].row.None? {
      ViewsAreValid(cs, a);
      if cs[a].row.Some? {
        EntriesExist(cs, cs[a].row.value.entry);
        WrittenWithin(cs, a, EntryObject(cs[a].row.value.entry));
      }
    }
  }

  // ----- the loops

  /** `visit_stored_revisions`: every revision has one row. */
  method CheckRows(cs: Changes) returns (ok: Result<(), Error>)
    ensures ok.Ok? <==> UniqueRows(cs)
    ensures ok.Err? ==> ok.error == Conflict
  {
    var pending := cs.Keys;
    var visited: set<RevisionId> := {};
    while pending != {}
      invariant pending <= cs.Keys
      invariant forall a :: a in cs.Keys - pending && cs[a].row.Some? ==> cs[a].row.value.id in visited
      invariant forall x :: x in visited ==> exists a :: a in cs.Keys - pending && cs[a].row.Some? && cs[a].row.value.id == x
      invariant forall a, b :: a !in pending && b !in pending ==> !SharedRow(cs, a, b)
    {
      var a :| a in pending;
      if cs[a].row.Some? {
        if cs[a].row.value.id in visited {
          var b :| b in cs.Keys - pending && cs[b].row.Some? && cs[b].row.value.id == cs[a].row.value.id;
          assert SharedRow(cs, a, b);
          return Err(Conflict);
        }
        visited := visited + {cs[a].row.value.id};
      }
      pending := pending - {a};
    }
    ok := Ok(());
  }

  /** `objects::all`: the shell of every entry. */
  method CheckShells(cs: Changes) returns (ok: Result<(), Error>)
    requires Valid(cs)
    ensures ok == if exists e :: Twice(cs, EntryObject(e)) then Err(DuplicateId) else Ok(())
  {
    var pending := EntriesOf(cs);
    while pending != {}
      invariant pending <= EntriesOf(cs)
      invariant forall e :: e in EntriesOf(cs) - pending ==> !Twice(cs, EntryObject(e))
    {
      var e :| e in pending;
      ok := CheckObject(cs, EntryObject(e));
      if ok.Err? {
        return;
      }
      pending := pending - {e};
    }
    forall e ensures !Twice(cs, EntryObject(e)) {
      EntriesExist(cs, e);
    }
    ok := Ok(());
  }

  /** One entry: reading it meets its objects and all rows, then its owners are compared. */
  method CheckEntry(cs: Changes, ghost seen: set<EntryId>, attributes: set<AttributeId>, attachments: set<AttachmentId>, e: EntryId)
    returns (ok: Result<(), Error>)
    requires Valid(cs) && Accepted(cs, seen) && e !in seen
    requires attributes == AttributesOwned(cs, seen) && attachments == AttachmentsOwned(cs, seen)
    ensures ok.Ok? <==> UniqueRows(cs) && Accepted(cs, seen + {e})
    ensures ok.Err? ==> (ok.error == DuplicateId && !Accepted(cs, seen + {e})) || (ok.error == Conflict && !UniqueRows(cs))
  {
    ok := CheckObjects(cs, e);
    if ok.Err? {
      assert e in seen + {e};
      return;
    }
    ok := CheckRows(cs);
    if ok.Err? {
      return;
    }
    AcceptNext(cs, seen, e);
    if !(AttributeIds(cs, e) !! attributes) || !(AttachmentIds(cs, e) !! attachments) {
      return Err(DuplicateId);
    }
  }

  lemma OwnedGrows(cs: Changes, entries: set<EntryId>, e: EntryId)
    ensures AttributesOwned(cs, entries + {e}) == AttributesOwned(cs, entries) + AttributeIds(cs, e)
    ensures AttachmentsOwned(cs, entries + {e}) == AttachmentsOwned(cs, entries) + AttachmentIds(cs, e)
  {
  }

  method CheckEntries(cs: Changes) returns (ok: Result<(), Error>)
    requires Valid(cs)
    ensures ok.Ok? <==> UniqueRows(cs) && Accepted(cs, EntriesOf(cs))
    ensures ok.Err? ==> (ok.error == DuplicateId && !Accepted(cs, EntriesOf(cs))) || (ok.error == Conflict && !UniqueRows(cs))
  {
    var pending := EntriesOf(cs);
    ghost var seen: set<EntryId> := {};
    var attributes: set<AttributeId> := {};
    var attachments: set<AttachmentId> := {};
    while pending != {}
      invariant pending <= EntriesOf(cs) && seen == EntriesOf(cs) - pending && Accepted(cs, seen)
      invariant attributes == AttributesOwned(cs, seen) && attachments == AttachmentsOwned(cs, seen)
      invariant seen != {} ==> UniqueRows(cs)
    {
      var e :| e in pending;
      ok := CheckEntry(cs, seen, attributes, attachments, e);
      if ok.Err? {
        AcceptedPart(cs, seen + {e}, EntriesOf(cs));
        return;
      }
      OwnedGrows(cs, seen, e);
      attributes, attachments := attributes + AttributeIds(cs, e), attachments + AttachmentIds(cs, e);
      pending, seen := pending - {e}, seen + {e};
    }
    assert seen == EntriesOf(cs);
    if EntriesOf(cs) == {} {
      NoEntriesNoRows(cs);
    }
    ok := Ok(());
  }

  lemma AcceptedPart(cs: Changes, few: set<EntryId>, many: set<EntryId>)
    requires few <= many
    ensures Accepted(cs, many) ==> Accepted(cs, few)
  {
  }

  /**
   `validate_v1_structure`: accepts exactly the structured documents. Only doubled rows are
   reported as a conflict, only doubled objects and shared identities as a duplicate.
   */
  method ValidateStructure(cs: Changes) returns (ok: Result<(), Error>)
    requires Valid(cs)
    ensures ok.Ok? <==> Structured(cs)
    ensures ok.Err? ==>
              (ok.error == DuplicateId && !(UniqueObjects(cs) && OneOwner(cs))) || (ok.error == Conflict && !UniqueRows(cs))
  {
    ObjectsAreAccepted(cs);
    ok := CheckShells(cs);
    if ok.Err? {
      return;
    }
    ok := CheckEntries(cs);
  }
}
