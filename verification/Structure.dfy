/**
 What a document must satisfy beyond its changes being sound, from `validate_v1_structure` in
 taypeer-document/src/lifecycle/mod.rs: every row and every object is there once, and no
 attribute or attachment belongs to two entries. Local operations keep it; a union of two
 documents may break it, and is then refused.
 */
module Structure {
  import opened Wrappers
  import opened Operations
  import opened Entries
  import opened CausalDocument
  import opened Soundness

  predicate IsObject(r: Register)
  {
    r.EntryObject? || IsHolder(r)
  }

  /** Two attributes, or two attachments, of one identity. */
  predicate SameIdentity(r: Register, q: Register)
  {
    (r.AttributeObject? && q.AttributeObject? && r.attribute == q.attribute)
    || (r.AttachmentObject? && q.AttachmentObject? && r.attachment == q.attachment)
  }

  /** Two changes hold the row of one revision. */
  predicate SharedRow(cs: Changes, a: Actor, b: Actor)
  {
    a in cs && b in cs && a != b && cs[a].row.Some? && cs[b].row.Some? && cs[a].row.value.id == cs[b].row.value.id
  }

  /** Two changes create one object. */
  predicate SharedObject(cs: Changes, a: Actor, b: Actor, r: Register)
  {
    a in cs && b in cs && a != b && r in cs[a].puts && r in cs[b].puts && IsObject(r)
  }

  /** Two entries own one identity. */
  predicate SharedIdentity(cs: Changes, a: Actor, b: Actor, r: Register, q: Register)
  {
    a in cs && b in cs && r in cs[a].puts && q in cs[b].puts && SameIdentity(r, q) && r.entry != q.entry
  }

  ghost predicate UniqueRows(cs: Changes)
  {
    forall a, b :: !SharedRow(cs, a, b)
  }

  ghost predicate UniqueObjects(cs: Changes)
  {
    forall a, b, r :: !SharedObject(cs, a, b, r)
  }

  ghost predicate OneOwner(cs: Changes)
  {
    forall a, b, r, q :: !SharedIdentity(cs, a, b, r, q)
  }

  ghost predicate Structured(cs: Changes)
  {
    UniqueRows(cs) && UniqueObjects(cs) && OneOwner(cs)
  }

  // ----- identities

  function AttachmentsElsewhere(cs: Changes, e: EntryId): set<AttachmentId>
  {
    set a, r | a in cs && r in cs[a].puts && r.AttachmentObject? && r.entry != e :: r.attachment
  }

  function AttributesElsewhere(cs: Changes, e: EntryId): set<AttributeId>
  {
    set a, r | a in cs && r in cs[a].puts && r.AttributeObject? && r.entry != e :: r.attribute
  }

  /** Another entry owns the identity of the object. */
  ghost predicate Claimed(cs: Changes, r: Register)
  {
    exists a, q :: a in cs && q in cs[a].puts && SameIdentity(r, q) && q.entry != r.entry
  }

  lemma ClaimedElsewhere(cs: Changes, e: EntryId, x: string)
    ensures Claimed(cs, AttributeObject(e, x)) <==> x in AttributesElsewhere(cs, e)
    ensures Claimed(cs, AttachmentObject(e, x)) <==> x in AttachmentsElsewhere(cs, e)
  {
    if Claimed(cs, AttributeObject(e, x)) {
      var a, q :| a in cs && q in cs[a].puts && SameIdentity(AttributeObject(e, x), q) && q.entry != e;
      assert q.attribute == x;
    }
    if x in AttributesElsewhere(cs, e) {
      var a, q :| a in cs && q in cs[a].puts && q.AttributeObject? && q.entry != e && q.attribute == x;
      assert SameIdentity(AttributeObject(e, x), q);
    }
    if Claimed(cs, AttachmentObject(e, x)) {
      var a, q :| a in cs && q in cs[a].puts && SameIdentity(AttachmentObject(e, x), q) && q.entry != e;
      assert q.attachment == x;
    }
    if x in AttachmentsElsewhere(cs, e) {
      var a, q :| a in cs && q in cs[a].puts && q.AttachmentObject? && q.entry != e && q.attachment == x;
      assert SameIdentity(AttachmentObject(e, x), q);
    }
  }

  /** An object that may be created in `cs`: it is not there, and no other entry owns its identity. */
  ghost predicate Unclaimed(cs: Changes, r: Register)
  {
    !Written(cs, r) && !Claimed(cs, r)
  }

  /** A change that brings only unclaimed objects of one entry, and a row that is not there. */
  ghost predicate BringsNew(cs: Changes, c: Change)
  {
    && (c.row.Some? ==> !RowIn(cs, c.row.value.id))
    && (forall r :: r in c.puts && IsObject(r) ==> Unclaimed(cs, r))
    && (forall r, q :: r in c.puts && q in c.puts && SameIdentity(r, q) ==> r.entry == q.entry)
  }

  // ----- what keeps the structure

  lemma NewRowIsUnique(cs: Changes, a: Actor, c: Change)
    requires UniqueRows(cs) && a !in cs && (c.row.Some? ==> !RowIn(cs, c.row.value.id))
    ensures UniqueRows(cs[a := c])
  {
    var ds := cs[a := c];
    forall x, y ensures !SharedRow(ds, x, y) {
      assert !SharedRow(cs, x, y);
    }
  }

  lemma NewObjectIsUnique(cs: Changes, a: Actor, c: Change)
    requires UniqueObjects(cs) && a !in cs && forall r :: r in c.puts && IsObject(r) ==> !Written(cs, r)
    ensures UniqueObjects(cs[a := c])
  {
    var ds := cs[a := c];
    forall x, y, r ensures !SharedObject(ds, x, y, r) {
      assert !SharedObject(cs, x, y, r);
    }
  }

  lemma NewObjectHasOneOwner(cs: Changes, a: Actor, c: Change)
    requires OneOwner(cs) && a !in cs && forall r :: r in c.puts && IsObject(r) ==> !Claimed(cs, r)
    requires forall r, q :: r in c.puts && q in c.puts && SameIdentity(r, q) ==> r.entry == q.entry
    ensures OneOwner(cs[a := c])
  {
    var ds := cs[a := c];
    forall x, y, r, q ensures !SharedIdentity(ds, x, y, r, q) {
      assert !SharedIdentity(cs, x, y, r, q);
      if x == a && y != a && r in c.puts && IsObject(r) {
        assert !Claimed(cs, r);
      } else if y == a && x != a && q in c.puts && IsObject(q) {
        assert !Claimed(cs, q) && SameIdentity(q, r) == SameIdentity(r, q);
      }
    }
  }

  /** What a change brings new keeps the structure of the whole document. */
  lemma ExtendKeepsStructured(cs: Changes, a: Actor, c: Change)
    requires Structured(cs) && a !in cs && BringsNew(cs, c)
    ensures Structured(cs[a := c])
  {
    NewRowIsUnique(cs, a, c);
    NewObjectIsUnique(cs, a, c);
    NewObjectHasOneOwner(cs, a, c);
  }

  /** Any part of a structured document is structured. */
  lemma PartIsStructured(cs: Changes, ds: Changes)
    requires Structured(ds) && forall a :: a in cs ==> a in ds && cs[a] == ds[a]
    ensures Structured(cs)
  {
    forall a, b ensures !SharedRow(cs, a, b) {
      assert !SharedRow(ds, a, b);
    }
    forall a, b, r ensures !SharedObject(cs, a, b, r) {
      assert !SharedObject(ds, a, b, r);
    }
    forall a, b, r, q ensures !SharedIdentity(cs, a, b, r, q) {
      assert !SharedIdentity(ds, a, b, r, q);
    }
  }

  // ----- unions

  /** Two changes of two documents that no document may hold together. */
  ghost predicate Collide(cs: Changes, ds: Changes, a: Actor, b: Actor)
  {
    var u := cs + ds;
    || SharedRow(u, a, b) || (exists r :: SharedObject(u, a, b, r)) || (exists r, q :: SharedIdentity(u, a, b, r, q))
  }

  /** Nothing that one side has and the other has not collides with what the other brings. */
  ghost predicate Compatible(cs: Changes, ds: Changes)
  {
    forall a, b :: a in cs && a !in ds && b in ds && b !in cs ==> !Collide(cs, ds, a, b)
  }

  lemma SharedBothWays(u: Changes, a: Actor, b: Actor, r: Register, q: Register)
    ensures SharedRow(u, a, b) <==> SharedRow(u, b, a)
    ensures SharedObject(u, a, b, r) <==> SharedObject(u, b, a, r)
    ensures SharedIdentity(u, a, b, r, q) <==> SharedIdentity(u, b, a, q, r)
  {
  }

  /** What a pair of changes of one document shares, the union shares, and conversely. */
  lemma SharedInside(cs: Changes, u: Changes, a: Actor, b: Actor, r: Register, q: Register)
    requires a in cs && b in cs && a in u && b in u && u[a] == cs[a] && u[b] == cs[b]
    ensures SharedRow(u, a, b) <==> SharedRow(cs, a, b)
    ensures SharedObject(u, a, b, r) <==> SharedObject(cs, a, b, r)
    ensures SharedIdentity(u, a, b, r, q) <==> SharedIdentity(cs, a, b, r, q)
  {
  }

  lemma NothingShared(cs: Changes, ds: Changes, a: Actor, b: Actor, r: Register, q: Register)
    requires Agree(cs, ds) && Structured(cs) && Structured(ds) && Compatible(cs, ds)
    ensures !SharedRow(cs + ds, a, b) && !SharedObject(cs + ds, a, b, r) && !SharedIdentity(cs + ds, a, b, r, q)
  {
    var u := cs + ds;
    if a in cs && b in cs {
      SharedInside(cs, u, a, b, r, q);
    } else if a in ds && b in ds {
      SharedInside(ds, u, a, b, r, q);
    } else if a in cs && b in ds {
      assert !Collide(cs, ds, a, b);
    } else if b in cs && a in ds {
      assert !Collide(cs, ds, b, a);
      SharedBothWays(u, a, b, r, q);
    }
  }

  /**
   A union of two structured documents is structured exactly when nothing one side brings
   collides with something the other brings.
   */
  lemma UnionIsStructured(cs: Changes, ds: Changes)
    requires Agree(cs, ds) && Structured(cs) && Structured(ds)
    ensures Structured(cs + ds) <==> Compatible(cs, ds)
  {
    if Compatible(cs, ds) {
      var u := cs + ds;
      var any := EntryObject("");
      forall a, b ensures !SharedRow(u, a, b) {
        NothingShared(cs, ds, a, b, any, any);
      }
      forall a, b, r ensures !SharedObject(u, a, b, r) {
        NothingShared(cs, ds, a, b, r, any);
      }
      forall a, b, r, q ensures !SharedIdentity(u, a, b, r, q) {
        NothingShared(cs, ds, a, b, r, q);
      }
    }
  }
}
