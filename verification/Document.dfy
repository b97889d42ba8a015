/**
 The document's operations on entries, from taypeer-document/src/lib.rs, operations.rs and
 source.rs. Each one works on a candidate and replaces the replicated state only when it succeeds.
 */
module EntryDocument {
  import Text
  import opened Sorting
  import opened Wrappers
  import opened Operations
  import opened Entries
  import opened CausalDocument
  import opened Selection
  import opened Projection
  import opened Soundness
  import opened Structure
  import opened Drafts
  import opened Confirmations
  import opened Laws
  import opened Runs
  import opened Transactions
  import opened Committing
  import opened Validating
  import opened Saving
  import opened SavingLaws
  import opened ConfirmationLaws
  import opened Resolving
  import opened Reading
  import Metadata

  // ----- history

  /** Display time first, then identity. */
  predicate RevisionLess(a: StoredRevision, b: StoredRevision)
  {
    a.savedAt < b.savedAt || (a.savedAt == b.savedAt && Text.Less(a.id, b.id))
  }

  /** The earlier display time, or at equal times the identity that is smaller at the first difference. */
  ghost predicate Older(a: StoredRevision, b: StoredRevision)
  {
    a.savedAt < b.savedAt || (a.savedAt == b.savedAt && Text.Earlier(a.id, b.id))
  }

  lemma RevisionLessMeans(a: StoredRevision, b: StoredRevision)
    ensures RevisionLess(a, b) <==> Older(a, b)
  {
    Text.LessMeans(a.id, b.id);
  }

  lemma RevisionStrict()
    ensures Strict(RevisionLess)
  {
    TextStrict();
  }

  lemma RevisionsOrder(s: seq<StoredRevision>)
    requires forall i, j :: 0 <= i < j < |s| ==> s[i].id != s[j].id
    ensures Orders(RevisionLess, s)
  {
    RevisionStrict();
    forall x, y | x in s && y in s ensures x == y || RevisionLess(x, y) || RevisionLess(y, x) {
      Text.Total(x.id, y.id);
    }
  }

  /** The rows of an entry that no purge names. */
  ghost predicate Shown(cs: Changes, e: EntryId, row: StoredRevision)
  {
    row.entry == e && row.id !in PurgedIds(cs) && exists a :: a in cs && cs[a].row == Some(row)
  }

  lemma ShownIsVisible(cs: Changes, e: EntryId, x: RevisionId)
    ensures x in VisibleHistory(cs, e) <==> exists row :: Shown(cs, e, row) && row.id == x
  {
    if x in VisibleHistory(cs, e) {
      var a :| a in cs && cs[a].row.Some? && cs[a].row.value.entry == e && cs[a].row.value.id == x;
      assert Shown(cs, e, cs[a].row.value);
    }
  }

  /** `history` for a lifetime that is not purged: every confirmation once, by time and identity. */
  method ReadHistory(cs: Changes, e: EntryId) returns (result: Result<seq<StoredRevision>, Error>)
    ensures result.Err? <==> !UniqueRows(cs)
    ensures result.Err? ==> result.error == Conflict
    ensures result.Ok? ==> StrictlySorted(RevisionLess, result.value) && forall row :: row in result.value <==> Shown(cs, e, row)
    ensures result.Ok? ==> forall i, j :: 0 <= i < j < |result.value| ==> Older(result.value[i], result.value[j])
  {
    var unique := CheckRows(cs);
    if unique.Err? {
      return Err(Conflict);
    }
    var rows: seq<StoredRevision> := [];
    var pending := cs.Keys;
    while pending != {}
      invariant pending <= cs.Keys
      invariant forall i, j :: 0 <= i < j < |rows| ==> rows[i].id != rows[j].id
      invariant forall row :: row in rows <==>
                  row.entry == e && row.id !in PurgedIds(cs) && exists a :: a in cs.Keys - pending && cs[a].row == Some(row)
    {
      var a :| a in pending;
      forall b | b in cs.Keys - pending ensures !SharedRow(cs, a, b) {
      }
      if cs[a].row.Some? && cs[a].row.value.entry == e && cs[a].row.value.id !in PurgedIds(cs) {
        rows := rows + [cs[a].row.value];
      }
      pending := pending - {a};
    }
    RevisionsOrder(rows);
    SortSorts(RevisionLess, rows);
    result := Ok(Sort(RevisionLess, rows));
    forall i, j | 0 <= i < j < |result.value| ensures Older(result.value[i], result.value[j]) {
      RevisionLessMeans(result.value[i], result.value[j]);
    }
  }

  // ----- the whole invariant

  /** Every change is sound, and the whole has the structure that validation demands. */
  ghost predicate Whole(cs: Changes)
  {
    Sound(cs) && Structured(cs)
  }

  /** What validation reports: doubled rows, or doubled objects and shared identities. */
  ghost predicate Faults(cs: Changes, error: Error)
  {
    (error == DuplicateId && !(UniqueObjects(cs) && OneOwner(cs))) || (error == Conflict && !UniqueRows(cs))
  }

  /** The heads a move starts from. */
  function Reviewed(cs: Changes, review: Option<set<Actor>>): set<Actor>
  {
    match review
    case Some(heads) => heads
    case None => Heads(cs)
  }

  /** The confirmation of a move; under review it is a resolution. */
  function MoveOf(e: EntryId, group: GroupId, revision: RevisionId, base: set<Actor>, reviewed: bool): Confirmation
  {
    Confirmation(e, revision, base, if reviewed then Resolve else Save, map[], Some(group), {})
  }

  /** A view read at its own heads is that view. */
  lemma HeadsOfView(cs: Changes, heads: set<Actor>)
    requires Causal(cs) && heads <= cs.Keys
    ensures Heads(At(cs, heads)) <= cs.Keys && At(cs, Heads(At(cs, heads))) == At(cs, heads)
  {
    var p := At(cs, heads);
    DownIsClosed(cs, heads);
    HeadsSeeAll(p);
    DownWithin(cs, p, Heads(p));
  }

  lemma MoveIsConfirmable(cs: Changes, e: EntryId, group: GroupId, revision: RevisionId, base: set<Actor>, reviewed: bool)
    requires EntryIn(At(cs, base), e) && !RowIn(cs, revision)
    ensures Confirmable(At(cs, base), MoveOf(e, group, revision, base, reviewed)) && Original(cs, MoveOf(e, group, revision, base, reviewed))
  {
    var p := At(cs, base);
    assert forall a :: a in p ==> a in cs && p[a] == cs[a];
  }

  /** Two documents of one world agree. */
  lemma MergeKeepsSound(cs: Changes, ds: Changes)
    requires Sound(cs) && Sound(ds) && Agree(cs, ds)
    ensures Sound(cs + ds)
  {
    UnionKeepsValid(cs, ds);
    UnionKeepsFaithful(cs, ds);
  }

  /** A purge hides rows and touches nothing else. */
  lemma PurgeMeans(cs: Changes, a: Actor, c: Change)
    requires Causal(cs) && a !in cs && c.puts == map[] && c.row == None
    ensures forall x :: VisibleHistory(cs[a := c], x) == VisibleHistory(cs, x) - c.purged
    ensures forall r :: Visible(cs[a := c], r) == Visible(cs, r)
    ensures forall x :: Rows(cs[a := c], x) == Rows(cs, x)
  {
    forall x
      ensures VisibleHistory(cs[a := c], x) == VisibleHistory(cs, x) - c.purged
      ensures Rows(cs[a := c], x) == Rows(cs, x)
    {
      HistoryAfter(cs, a, c, x);
      HistoryGrows(cs, a, c, x);
    }
    forall r ensures Visible(cs[a := c], r) == Visible(cs, r) {
      PutEffect(cs, a, c, r);
    }
  }

  /** Who holds the row of a confirmed draft. */
  lemma HoldersMean(cs: Changes, d: EntryDraft)
    requires UniqueRows(cs)
    ensures Holders(cs, d.revision) == {} <==> !RowIn(cs, d.revision)
    ensures forall b :: b in cs && cs[b].row.Some? && cs[b].row.value.id == d.revision ==>
              Holders(cs, d.revision) == {b} && (AlreadyConfirmed(cs, d) <==> Confirms(cs[b].row.value, d))
  {
    HolderMeansRow(cs, d.revision);
    forall b | b in cs && cs[b].row.Some? && cs[b].row.value.id == d.revision
      ensures Holders(cs, d.revision) == {b} && (AlreadyConfirmed(cs, d) <==> Confirms(cs[b].row.value, d))
    {
      StoredOnce(cs, b, d.revision);
      ConfirmedMeans(cs, d, b);
    }
  }

  // ----- the document

  class Document {
    const database: string
    var changes: Changes

    ghost predicate Valid()
      reads this
    {
      Whole(changes)
    }

    constructor (database: string, changes: Changes)
      requires Whole(changes)
      ensures Valid() && this.database == database && this.changes == changes
    {
      this.database, this.changes := database, changes;
    }

    method BeginCreateEntry(entry: EntryId, group: GroupId, revision: RevisionId, listed: bool) returns (result: Result<EntryDraft, Error>)
      requires Valid()
      ensures result.Err? <==> !listed
      ensures result.Err? ==> result.error == NotFound
      ensures result.Ok? ==> BeginsCreate(changes, result.value) && DraftOk(changes, result.value)
                             && result.value.entry == entry && result.value.group == group && result.value.revision == revision
                             && result.value.database == database
                             && result.value.fields == EntryFields("", None, None, None, None, {}, None, DefaultIcon, None, None, map[], map[])
    {
      if !listed {
        return Err(NotFound);
      }
      var empty := EntryFields("", None, None, None, None, {}, None, DefaultIcon, None, None, map[], map[]);
      result := Ok(EntryDraft(database, entry, group, revision, Heads(changes), None, empty));
      BeginEstablishes(changes, result.value);
    }

    /** The entry is active; its selected form becomes the draft's original. */
    method BeginEditEntry(entry: EntryId, group: GroupId, revision: RevisionId, active: Result<(), Error>) returns (result: Result<EntryDraft, Error>)
      requires Valid() && (active.Ok? ==> EntryIn(changes, entry))
      ensures active.Err? ==> result == Err(active.error)
      ensures active.Ok? ==> result.Ok? && BeginsEdit(changes, result.value) && DraftOk(changes, result.value)
                             && ShowsForm(changes, entry, result.value.fields) && result.value.original == Some(result.value.fields)
                             && result.value.base == Heads(changes)
                             && result.value.entry == entry && result.value.group == group && result.value.revision == revision
                             && result.value.database == database
    {
      if active.Err? {
        return Err(active.error);
      }
      var fields := ReadEntry(changes, entry);
      result := Ok(EntryDraft(database, entry, group, revision, Heads(changes), Some(fields.value), fields.value));
      ProjectionMeans(changes, entry, fields.value);
      BeginEstablishes(changes, result.value);
    }

    /** Only the confirmed revision's own change becomes the next base. */
    method ContinueEntryDraft(confirmed: EntryDraft, newer: EntryFields, revision: RevisionId, active: Result<(), Error>)
      returns (result: Result<EntryDraft, Error>)
      requires Valid() && confirmed.base <= changes.Keys && DraftOk(changes, confirmed)
      ensures confirmed.database != database ==> result == Err(InvalidContext)
      ensures confirmed.database == database && active.Err? ==> result == Err(active.error)
      ensures confirmed.database == database && active.Ok? ==>
                && (result.Ok? <==> exists next :: Continues(changes, confirmed, newer, next))
                && (result.Ok? <==> if RowIn(changes, confirmed.revision) then AlreadyConfirmed(changes, confirmed)
                                    else confirmed.original == Some(confirmed.fields))
                && (result.Err? ==> result.error == InvalidContext)
      ensures result.Ok? ==> result.value.entry == confirmed.entry && result.value.group == confirmed.group && result.value.database == database
                             && result.value.original == Some(confirmed.fields) && result.value.fields == newer
      ensures result.Ok? && !RowIn(changes, confirmed.revision) ==> result.value.base == confirmed.base
      ensures forall b :: result.Ok? && b in changes && changes[b].row.Some? && changes[b].row.value.id == confirmed.revision ==>
                result.value.base == {b}
      ensures result.Ok? ==> Continues(changes, confirmed, newer, result.value) && DraftOk(changes, result.value) && result.value.revision == revision
    {
      if confirmed.database != database {
        return Err(InvalidContext);
      }
      if active.Err? {
        return Err(active.error);
      }
      HoldersMean(changes, confirmed);
      var stored := Holders(changes, confirmed.revision);
      var base: set<Actor>;
      if stored == {} && confirmed.original == Some(confirmed.fields) {
        base := confirmed.base;
      } else if exists a :: a in stored && stored == {a} {
        var a :| a in stored && stored == {a};
        if !Confirms(changes[a].row.value, confirmed) {
          return Err(InvalidContext);
        }
        base := {a};
      } else {
        return Err(InvalidContext);
      }
      result := Ok(EntryDraft(database, confirmed.entry, confirmed.group, revision, base, Some(confirmed.fields), newer));
      assert Continues(changes, confirmed, newer, result.value);
      ContinuePreserves(changes, confirmed, newer, result.value);
    }

    /** `save_entry`: replays and unchanged forms leave the document alone; everything else is one change. */
    method SaveEntry(d: EntryDraft, now: Timestamp, clone: bool, life: Lifecycle, a: Actor) returns (result: Result<EntryId, Error>)
      requires Valid() && a !in changes && (clone ==> d.original.None?)
      requires d.base <= changes.Keys ==> DraftOk(changes, d)
      modifies this
      ensures Valid() && (result.Ok? ==> result.value == d.entry)
      ensures d.database != database ==> result == Err(InvalidContext)
      ensures d.database == database && !life.listed ==> result == Err(NotFound)
      ensures d.database == database && life.listed && !ValidForm(d.fields) ==> result == Err(Validation)
      ensures d.database == database && life.listed && ValidForm(d.fields) && !(d.base <= old(changes).Keys) ==> result == Err(InvalidContext)
      ensures Presented(old(changes), database, d, life) && RowIn(old(changes), d.revision) ==>
                result == if AlreadyConfirmed(old(changes), d) then Ok(d.entry) else Err(DuplicateId)
      ensures Presented(old(changes), database, d, life) && !RowIn(old(changes), d.revision) ==>
                && (!LifetimeOpen(d, life) ==> result == Err(ClosedBecause(d, life)))
                && (LifetimeOpen(d, life) && d.original == Some(d.fields) ==> result == Ok(d.entry))
                && (LifetimeOpen(d, life) && d.original != Some(d.fields) ==>
                      result == if InUse(old(changes), d) then Err(DuplicateId) else Ok(d.entry))
      ensures !Writes(old(changes), database, d, life) ==> changes == old(changes)
      ensures Writes(old(changes), database, d, life) ==> SavedForm(old(changes), changes, d, now, clone, a)
      ensures Writes(old(changes), database, d, life) ==> exists c :: Saved(old(changes), changes, d, now, KindOf(d, clone), a, c)
    {
      AdmissionMeans(changes, database, d, life);
      TakenMeans(changes, d);
      var admitted := Admit(changes, database, d, life);
      if admitted.Err? {
        return Err(admitted.error);
      }
      if admitted.value != Proceed {
        return Ok(d.entry);
      }
      var written := WriteDraft(changes, d, now, KindOf(d, clone), a);
      if written.Err? {
        return Err(written.error);
      }
      SaveKeepsSound(changes, changes[a := written.value], d, now, KindOf(d, clone), a, written.value);
      SaveKeepsStructured(changes, changes[a := written.value], d, now, KindOf(d, clone), a, written.value);
      SaveMeans(changes, changes[a := written.value], d, now, clone, a, written.value);
      changes := changes[a := written.value];
      result := Ok(d.entry);
    }

    /** `merge`: the union, if it passes validation; otherwise nothing. */
    method Merge(database: string, other: Changes) returns (result: Result<(), Error>)
      requires Valid() && Whole(other) && Agree(changes, other)
      modifies this
      ensures Valid()
      ensures result.Ok? <==> database == this.database && Structured(old(changes) + other)
      ensures result.Ok? <==> database == this.database && Compatible(old(changes), other)
      ensures result.Err? ==> if database != this.database then result.error == InvalidContext else Faults(old(changes) + other, result.error)
      ensures changes == if result.Ok? then old(changes) + other else old(changes)
    {
      if database != this.database {
        return Err(InvalidContext);
      }
      MergeKeepsSound(changes, other);
      UnionIsStructured(changes, other);
      var candidate := changes + other;
      result := ValidateStructure(candidate);
      if result.Err? {
        return;
      }
      changes := candidate;
    }

    /** `apply_sources`: all of a dependency-complete batch that leaves the structure intact, or nothing. */
    method ApplySources(batch: Changes, ghost world: Changes) returns (result: Result<(), Error>)
      requires Valid() && Sound(world) && Within(changes, world) && Within(batch, world)
      modifies this
      ensures Valid() && Within(changes, world)
      ensures result.Ok? <==> Delivers(old(changes), batch)
      ensures result.Err? ==>
                if exists a :: a in batch && !(batch[a].deps <= old(changes).Keys + batch.Keys)
                then result.error == InvalidContext else Faults(old(changes) + batch, result.error)
      ensures changes == if result.Ok? then old(changes) + batch else old(changes)
    {
      var pending := batch.Keys;
      while pending != {}
        invariant pending <= batch.Keys
        invariant forall a :: a in batch.Keys - pending ==> batch[a].deps <= changes.Keys + batch.Keys
      {
        var a :| a in pending;
        var dependencies := batch[a].deps;
        while dependencies != {}
          invariant dependencies <= batch[a].deps && batch[a].deps - dependencies <= changes.Keys + batch.Keys
        {
          var dependency :| dependency in dependencies;
          if dependency !in batch && dependency !in changes {
            return Err(InvalidContext);
          }
          dependencies := dependencies - {dependency};
        }
        pending := pending - {a};
      }
      BatchKeepsSound(changes, batch, world);
      var candidate := changes + batch;
      result := ValidateStructure(candidate);
      if result.Err? {
        return;
      }
      changes := candidate;
    }

    /** `at_source`: an isolated document of one change and everything it had seen. */
    method AtSource(a: Actor) returns (result: Result<Document, Error>)
      requires Valid()
      ensures result.Err? <==> a !in changes
      ensures result.Err? ==> result.error == NotFound
      ensures result.Ok? ==> fresh(result.value) && result.value.Valid() && result.value.database == database
                             && result.value.changes == Upto(changes, a)
    {
      if a !in changes {
        return Err(NotFound);
      }
      BelowOne(changes, a);
      AtKeepsValid(changes, {a});
      AtKeepsFaithful(changes, {a});
      PartIsStructured(At(changes, {a}), changes);
      var selected := new Document(database, At(changes, {a}));
      result := Ok(selected);
    }

    /** `edit_fields`: scalar updates at the current heads; values already selected are not written. */
    method EditFields(e: EntryId, updates: map<EntryField, FieldValue>, now: Timestamp, revision: RevisionId, active: Result<(), Error>, a: Actor)
      returns (result: Result<EntryId, Error>)
      requires Valid() && a !in changes && !RowIn(changes, revision) && (active.Ok? ==> EntryIn(changes, e))
      modifies this
      ensures Valid() && (result.Ok? ==> result.value == e)
      ensures result.Err? <==> active.Err? || exists f :: f in updates && !(IsScalar(f) && ValidField(f, updates[f]))
      ensures active.Err? ==> result == Err(active.error)
      ensures active.Ok? && result.Err? ==> exists f :: f in updates && !(IsScalar(f) && ValidField(f, updates[f]))
                                              && result.error == if IsScalar(f) then FieldError(f, updates[f]) else InvalidDocument
      ensures result.Err? ==> changes == old(changes)
      ensures result.Ok? ==> Edited(old(changes), changes, e, updates, revision, now, a)
      ensures result.Ok? && changes != old(changes) ==>
                exists c :: Confirmed(old(changes), changes,
                                      Confirmation(e, revision, Heads(old(changes)), Save, Changing(old(changes), e, updates), None, {}), now, a, c)
    {
      if active.Err? {
        return Err(active.error);
      }
      var checked := CheckUpdates(updates);
      if checked.Err? {
        return Err(checked.error);
      }
      var values := ReadValues(changes, e);
      var kept := KeepChanging(changes, e, values, updates);
      if kept == [] {
        NothingToEdit(changes, e, updates, revision, now, a);
        return Ok(e);
      }
      ValuesOfList(kept);
      assert kept[0].field in Values(kept);
      HeadsSeeAll(changes);
      var q := Confirmation(e, revision, Heads(changes), Save, Values(kept), None, {});
      EditIsConfirmable(changes, q);
      forall i | 0 <= i < |kept| ensures IsScalar(kept[i].field) && ValidField(kept[i].field, kept[i].value) {
        assert kept[i].field in Values(kept);
      }
      var written := WriteResolution(changes, q, kept, now, a);
      EditMeans(changes, changes[a := written.value], q, updates, now, a, written.value);
      ConfirmKeepsSound(changes, changes[a := written.value], q, now, a, written.value);
      ConfirmKeepsStructured(changes, changes[a := written.value], q, now, a, written.value);
      changes := changes[a := written.value];
      result := Ok(e);
    }

    /** `confirm_resolution` for reviewed fields: at the reviewed heads, whatever arrived since. */
    method ResolveFields(context: string, e: EntryId, heads: set<Actor>, fields: seq<Resolution>, now: Timestamp, revision: RevisionId,
                         active: Result<(), Error>, a: Actor)
      returns (result: Result<EntryId, Error>)
      requires Valid() && a !in changes && !RowIn(changes, revision)
      requires active.Ok? && heads <= changes.Keys ==> EntryIn(At(changes, heads), e)
      modifies this
      ensures Valid() && (result.Ok? ==> result.value == e)
      ensures result.Ok? <==> context == database && fields != [] && heads <= changes.Keys && heads != {} && active.Ok?
                              && EachOnce(fields) && (forall i :: 0 <= i < |fields| ==> ValidField(fields[i].field, fields[i].value))
                              && Placed(At(old(changes), heads), e, {}, fields)
      ensures context != database || fields == [] || !(heads <= old(changes).Keys) || heads == {} ==> result == Err(InvalidContext)
      ensures context == database && fields != [] && heads <= old(changes).Keys && heads != {} && active.Err? ==> result == Err(active.error)
      ensures result.Err? ==> changes == old(changes)
      ensures result.Ok? ==> Resolved(old(changes), changes, e, heads, fields, revision, now, a)
      ensures result.Ok? ==> exists c :: Confirmed(old(changes), changes, Confirmation(e, revision, heads, Resolve, Values(fields), None, {}), now, a, c)
    {
      if context != database || fields == [] || !(heads <= changes.Keys) || heads == {} {
        return Err(InvalidContext);
      }
      if active.Err? {
        return Err(active.error);
      }
      var checked := CheckResolutions(fields);
      if checked.Err? {
        return Err(checked.error);
      }
      var q := Confirmation(e, revision, heads, Resolve, Values(fields), None, {});
      AtKeepsValid(changes, heads);
      if Placed(At(changes, heads), e, {}, fields) {
        ResolutionIsConfirmable(changes, q, fields);
      }
      var written := WriteResolution(changes, q, fields, now, a);
      if written.Err? {
        return Err(written.error);
      }
      ResolutionMeans(changes, changes[a := written.value], q, fields, now, a, written.value);
      ConfirmKeepsSound(changes, changes[a := written.value], q, now, a, written.value);
      ConfirmKeepsStructured(changes, changes[a := written.value], q, now, a, written.value);
      changes := changes[a := written.value];
      result := Ok(e);
    }

    /**
     `move_entry`: the placement at the reviewed or current heads, confirmed by a row that lists it.
     An entry that stands there already is not confirmed again.
     */
    method MoveEntry(e: EntryId, group: GroupId, review: Option<set<Actor>>, now: Timestamp, revision: RevisionId, allowed: Result<(), Error>, a: Actor)
      returns (result: Result<EntryId, Error>)
      requires Valid() && a !in changes && !RowIn(changes, revision)
      requires allowed.Ok? && Reviewed(changes, review) <= changes.Keys ==> EntryIn(At(changes, Reviewed(changes, review)), e)
      modifies this
      ensures Valid() && (result.Ok? ==> result.value == e)
      ensures result.Ok? <==> Reviewed(old(changes), review) <= old(changes).Keys && Reviewed(old(changes), review) != {} && allowed.Ok?
      ensures result.Err? ==>
                result.error == if Reviewed(old(changes), review) <= old(changes).Keys && Reviewed(old(changes), review) != {} && allowed.Err?
                                then allowed.error else InvalidContext
      ensures result.Ok? && Chosen(At(old(changes), Reviewed(old(changes), review)), Home(e)) != Some(HomeRef(group)) ==>
                Moved(old(changes), changes, e, group, Heads(At(old(changes), Reviewed(old(changes), review))),
                      if review.Some? then Resolve else Save, revision, now, a)
      ensures result.Err? || Chosen(At(old(changes), Reviewed(old(changes), review)), Home(e)) == Some(HomeRef(group)) ==> changes == old(changes)
      ensures result.Ok? && Chosen(At(old(changes), Reviewed(old(changes), review)), Home(e)) != Some(HomeRef(group)) ==>
                exists c :: Confirmed(old(changes), changes,
                                      MoveOf(e, group, revision, Heads(At(old(changes), Reviewed(old(changes), review))), review.Some?), now, a, c)
    {
      var heads := Reviewed(changes, review);
      if heads == {} || !(heads <= changes.Keys) {
        return Err(InvalidContext);
      }
      if allowed.Err? {
        return Err(allowed.error);
      }
      var before := Metadata.ReadDetail(At(changes, heads), Home(e));
      if before == Some(HomeRef(group)) {
        return Ok(e);
      }
      var base := Heads(At(changes, heads));
      HeadsOfView(changes, heads);
      var q := MoveOf(e, group, revision, base, review.Some?);
      MoveIsConfirmable(changes, e, group, revision, base, review.Some?);
      var written := WriteResolution(changes, q, [], now, a);
      MoveMeans(changes, changes[a := written.value], q, group, now, a, written.value);
      ConfirmKeepsSound(changes, changes[a := written.value], q, now, a, written.value);
      ConfirmKeepsStructured(changes, changes[a := written.value], q, now, a, written.value);
      changes := changes[a := written.value];
      result := Ok(e);
    }

    /** `restore_revision`: a visible confirmation becomes the selected form again, exactly. */
    method RestoreRevision(e: EntryId, revision: RevisionId, group: GroupId, now: Timestamp, next: RevisionId, listed: bool,
                           active: Result<(), Error>, a: Actor)
      returns (result: Result<EntryId, Error>)
      requires Valid() && a !in changes && !RowIn(changes, next) && (active.Ok? ==> EntryIn(changes, e))
      modifies this
      ensures Valid() && (result.Ok? ==> result.value == e)
      ensures result.Err? ==> changes == old(changes)
      ensures result.Ok? ==> Restored(old(changes), changes, e, revision, group, now, a)
      ensures !listed || revision !in VisibleHistory(old(changes), e) ==> result == Err(NotFound)
      ensures listed && revision in VisibleHistory(old(changes), e) && result.Err? ==>
                result.error == if active.Err? then active.error else DuplicateId
      ensures result.Ok? ==> AddsRow(old(changes), changes, a, e, next, Restore, Heads(old(changes)), now)
                             && forall r: Register :: r.entry != e ==> Visible(changes, r) == Visible(old(changes), r)
      ensures result.Ok? <==> listed && active.Ok?
                              && exists row :: Shown(old(changes), e, row) && row.id == revision && !Foreign(old(changes), e, row.snapshot)
    {
      if !listed {
        return Err(NotFound);
      }
      ShownIsVisible(changes, e, revision);
      var history := ReadHistory(changes, e);
      var i := 0;
      while i < |history.value| && history.value[i].id != revision
        invariant 0 <= i <= |history.value|
        invariant forall j :: 0 <= j < i ==> history.value[j].id != revision
      {
        i := i + 1;
      }
      if i == |history.value| {
        assert forall row :: Shown(changes, e, row) ==> row in history.value;
        return Err(NotFound);
      }
      if active.Err? {
        return Err(active.error);
      }
      var row := history.value[i];
      assert row in history.value;
      ShownIsValid(changes, e, row);
      ShownIsUnique(changes, e, row);
      ghost var cs := changes;
      var written, q := WriteRestoration(changes, e, row.snapshot, group, next, now, a);
      if written.Err? {
        return Err(written.error);
      }
      ConfirmKeepsSound(changes, changes[a := written.value], q, now, a, written.value);
      ConfirmKeepsStructured(changes, changes[a := written.value], q, now, a, written.value);
      RestorationIsExact(changes, changes[a := written.value], q, row.snapshot, now, a, written.value);
      ConfirmAddsRow(changes, changes[a := written.value], q, now, a, written.value);
      ConfirmLeavesTheRest(changes, changes[a := written.value], q, now, a, written.value);
      assert forall r: Register :: r.entry != e ==> !Concerned(q, r);
      changes := changes[a := written.value];
      assert Restores(cs, q, row.snapshot) && Confirmed(cs, changes, q, now, a, written.value);
      result := Ok(e);
    }

    /** `purge_history`: hides exactly the chosen confirmations, all of which must be visible. */
    method PurgeHistory(e: EntryId, revisions: set<RevisionId>, a: Actor) returns (result: Result<(), Error>)
      requires Valid() && a !in changes
      modifies this
      ensures Valid()
      ensures result.Ok? <==> revisions != {} && revisions <= VisibleHistory(old(changes), e)
      ensures result.Err? ==> changes == old(changes)
      ensures result.Ok? ==> exists c :: Purges(old(changes), a, c) && c.purged == revisions && changes == old(changes)[a := c]
      ensures result.Err? ==> result.error == NotFound
      ensures result.Ok? ==> (forall x :: VisibleHistory(changes, x) == VisibleHistory(old(changes), x) - revisions)
                             && (forall r :: Visible(changes, r) == Visible(old(changes), r))
                             && forall x :: Rows(changes, x) == Rows(old(changes), x)
    {
      var history := ReadHistory(changes, e);
      var existing := set i | 0 <= i < |history.value| :: history.value[i].id;
      HistoryIds(changes, e, history.value);
      if revisions == {} || !(revisions <= existing) {
        return Err(NotFound);
      }
      var c := Change(Heads(changes), changes.Keys, map[], None, revisions);
      PurgeKeepsSound(changes, a, c);
      PurgeMeans(changes, a, c);
      changes := changes[a := c];
      result := Ok(());
    }
  }

  /** The restored document shows exactly the confirmed form, alone in every field. */
  ghost predicate Restored(cs: Changes, ds: Changes, e: EntryId, revision: RevisionId, group: GroupId, now: Timestamp, a: Actor)
  {
    exists q: Confirmation, row: StoredRevision, c: Change ::
      && Shown(cs, e, row) && row.id == revision && Project(ds, e) == row.snapshot && Chosen(ds, Home(e)) == Some(HomeRef(group))
      && q.entry == e && q.home == Some(group) && Restores(cs, q, row.snapshot) && Confirmed(cs, ds, q, now, a, c)
  }

  lemma HistoryIds(cs: Changes, e: EntryId, rows: seq<StoredRevision>)
    requires forall row :: row in rows <==> Shown(cs, e, row)
    ensures (set i | 0 <= i < |rows| :: rows[i].id) == VisibleHistory(cs, e)
  {
    var ids := set i | 0 <= i < |rows| :: rows[i].id;
    forall x ensures x in ids <==> x in VisibleHistory(cs, e) {
      ShownIsVisible(cs, e, x);
      if row :| Shown(cs, e, row) && row.id == x {
        assert row in rows;
      }
      if i :| 0 <= i < |rows| && rows[i].id == x {
        assert rows[i] in rows;
      }
    }
  }

  /** Every stored snapshot is a valid form. */
  lemma ShownIsValid(cs: Changes, e: EntryId, row: StoredRevision)
    requires Sound(cs) && Shown(cs, e, row)
    ensures ValidForm(row.snapshot)
  {
    var a :| a in cs && cs[a].row == Some(row);
    ViewsAreValid(cs, a);
    assert RowTrue(Upto(cs, a), a);
    ProjectIsValidForm(Upto(cs, a), e);
  }

  lemma ShownIsUnique(cs: Changes, e: EntryId, row: StoredRevision)
    requires UniqueRows(cs) && Shown(cs, e, row)
    ensures forall other :: Shown(cs, e, other) && other.id == row.id ==> other == row
  {
    var a :| a in cs && cs[a].row == Some(row);
    forall b | b in cs && b != a ensures !SharedRow(cs, a, b) {
    }
  }
}
