/**
 When an entry was last modified, from taypeer-document/src/projection.rs: one pass over all
 stored rows serves every entry of a query, and gives what rescanning one entry's rows gives.
 */
module Times {
  import opened Wrappers
  import opened Operations
  import opened Entries
  import opened CausalDocument
  import opened Selection
  import opened Projection
  import opened Soundness
  import opened Reading
  import opened Confirmations

  /** `changed_operations` of a stored row, as texts. */
  function Changed(row: StoredRevision): set<string>
  {
    set o | o in row.changed :: Render(o)
  }

  /** The texts of the visible operations of a register. */
  function Texts(v: Changes, r: Register): set<string>
  {
    set a | a in v && r in v[a].puts && Uncovered(v, r, a) :: Render(OpId(v[a].puts[r].counter, a))
  }

  /** `times` holds exactly the operations of the entry's rows among `seen`, each with its row's time. */
  ghost predicate TimesAre(times: map<string, Timestamp>, cs: Changes, seen: set<Actor>, e: EntryId)
  {
    && (forall a, x {:trigger Wrote(cs, a, e, x)} :: a in seen && Wrote(cs, a, e, x) ==>
          x in times && times[x] == cs[a].row.value.savedAt)
    && (forall x :: x in times ==> exists a :: a in seen && Wrote(cs, a, e, x))
  }

  predicate HasRow(cs: Changes, a: Actor, e: EntryId)
  {
    a in cs && cs[a].row.Some? && cs[a].row.value.entry == e
  }

  /** The row of `a` is about the entry and lists the operation `x`. */
  ghost predicate Wrote(cs: Changes, a: Actor, e: EntryId, x: string)
  {
    HasRow(cs, a, e) && x in Changed(cs[a].row.value)
  }

  /** An operation names its change. */
  lemma ChangedOnce(cs: Changes, e: EntryId, a: Actor, b: Actor, x: string)
    requires Faithful(cs) && Wrote(cs, a, e, x) && Wrote(cs, b, e, x)
    ensures a == b
  {
    var r := ChangedBy(cs, a, e, x);
    var q := ChangedBy(cs, b, e, x);
    RankOfRender(OpId(cs[a].puts[r].counter, a));
    RankOfRender(OpId(cs[b].puts[q].counter, b));
  }

  /** A listed operation is a put of its own change, in a field or in the placement. */
  lemma ChangedBy(cs: Changes, a: Actor, e: EntryId, x: string) returns (r: Register)
    requires Faithful(cs) && Wrote(cs, a, e, x)
    ensures r in cs[a].puts && (r.Field? || r.Home?) && x == Render(OpId(cs[a].puts[r].counter, a))
    ensures OpId(cs[a].puts[r].counter, a) in cs[a].row.value.changed
  {
    assert RowTrue(Upto(cs, a), a);
    var o :| o in cs[a].row.value.changed && Render(o) == x;
    r :| r in cs[a].puts && (r.Field? || r.Home?) && OpId(cs[a].puts[r].counter, a) == o;
  }

  lemma TimeWithin(one: map<string, Timestamp>, two: map<string, Timestamp>, cs: Changes, seen: set<Actor>, e: EntryId, x: string)
    requires TimesAre(one, cs, seen, e) && TimesAre(two, cs, seen, e) && x in one
    ensures x in two && one[x] == two[x]
  {
    var a :| a in seen && Wrote(cs, a, e, x);
  }

  /** The rows determine the times, in whatever order they are visited. */
  lemma TimesUnique(one: map<string, Timestamp>, two: map<string, Timestamp>, cs: Changes, seen: set<Actor>, e: EntryId)
    requires TimesAre(one, cs, seen, e) && TimesAre(two, cs, seen, e)
    ensures one == two
  {
    forall x ensures x in one ==> x in two && one[x] == two[x] {
      if x in one {
        TimeWithin(one, two, cs, seen, e, x);
      }
    }
    forall x ensures x in two ==> x in one {
      if x in two {
        TimeWithin(two, one, cs, seen, e, x);
      }
    }
  }

  /** The inner loop: insert every operation of one row. */
  method InsertAll(times: map<string, Timestamp>, operations: set<string>, savedAt: Timestamp) returns (more: map<string, Timestamp>)
    ensures more.Keys == times.Keys + operations
    ensures forall x :: x in more ==> more[x] == if x in operations then savedAt else times[x]
  {
    more := times;
    var pending := operations;
    while pending != {}
      invariant pending <= operations && more.Keys == times.Keys + (operations - pending)
      invariant forall x :: x in more ==> more[x] == if x in operations - pending then savedAt else times[x]
    {
      var x :| x in pending;
      more := more[x := savedAt];
      pending := pending - {x};
    }
  }

  lemma RowInserted(times: map<string, Timestamp>, more: map<string, Timestamp>, cs: Changes, seen: set<Actor>, e: EntryId, a: Actor)
    requires Faithful(cs) && TimesAre(times, cs, seen, e) && seen <= cs.Keys && HasRow(cs, a, e)
    requires more.Keys == times.Keys + Changed(cs[a].row.value)
    requires forall x :: x in more ==> more[x] == if x in Changed(cs[a].row.value) then cs[a].row.value.savedAt else times[x]
    ensures TimesAre(more, cs, seen + {a}, e)
  {
    forall b, x | b in seen + {a} && Wrote(cs, b, e, x)
      ensures x in more && more[x] == cs[b].row.value.savedAt
    {
      if Wrote(cs, a, e, x) {
        ChangedOnce(cs, e, a, b, x);
      }
    }
    forall x | x in more ensures exists b :: b in seen + {a} && Wrote(cs, b, e, x) {
      if x in Changed(cs[a].row.value) {
        assert Wrote(cs, a, e, x);
      } else {
        var b :| b in seen && Wrote(cs, b, e, x);
      }
    }
  }

  lemma RowElsewhere(times: map<string, Timestamp>, cs: Changes, seen: set<Actor>, e: EntryId, a: Actor)
    requires TimesAre(times, cs, seen, e) && !HasRow(cs, a, e)
    ensures TimesAre(times, cs, seen + {a}, e)
  {
  }

  /** The times of an entry in the cache; an entry without rows has none. */
  function TimesOf(entries: map<EntryId, map<string, Timestamp>>, e: EntryId): map<string, Timestamp>
  {
    if e in entries then entries[e] else map[]
  }

  ghost predicate CacheIs(entries: map<EntryId, map<string, Timestamp>>, cs: Changes, seen: set<Actor>)
  {
    forall e :: TimesAre(TimesOf(entries, e), cs, seen, e)
  }

  /** One more row goes to the times of its own entry. */
  lemma CacheNext(entries: map<EntryId, map<string, Timestamp>>, more: map<string, Timestamp>, cs: Changes, seen: set<Actor>, a: Actor, entry: EntryId)
    requires Faithful(cs) && CacheIs(entries, cs, seen) && seen <= cs.Keys && HasRow(cs, a, entry)
    requires more.Keys == TimesOf(entries, entry).Keys + Changed(cs[a].row.value)
    requires forall x :: x in more ==>
               more[x] == if x in Changed(cs[a].row.value) then cs[a].row.value.savedAt else TimesOf(entries, entry)[x]
    ensures CacheIs(entries[entry := more], cs, seen + {a})
  {
    RowInserted(TimesOf(entries, entry), more, cs, seen, entry, a);
    var after, known := entries[entry := more], seen + {a};
    forall e ensures TimesAre(TimesOf(after, e), cs, known, e) {
      if e != entry {
        RowElsewhere(TimesOf(entries, e), cs, seen, e, a);
      }
    }
  }

  lemma CacheSkips(entries: map<EntryId, map<string, Timestamp>>, cs: Changes, seen: set<Actor>, a: Actor)
    requires CacheIs(entries, cs, seen) && a in cs && cs[a].row.None?
    ensures CacheIs(entries, cs, seen + {a})
  {
    forall e ensures TimesAre(TimesOf(entries, e), cs, seen + {a}, e) {
      RowElsewhere(TimesOf(entries, e), cs, seen, e, a);
    }
  }

  /** `SavedOperationTimes::read`: the times of every entry that has a row, in one pass. */
  method ReadTimes(cs: Changes) returns (entries: map<EntryId, map<string, Timestamp>>)
    requires Faithful(cs)
    ensures forall e :: TimesAre(TimesOf(entries, e), cs, cs.Keys, e)
  {
    entries := map[];
    var pending := cs.Keys;
    ghost var seen: set<Actor> := {};
    while pending != {}
      invariant pending <= cs.Keys && seen == cs.Keys - pending && CacheIs(entries, cs, seen)
    {
      var a :| a in pending;
      if cs[a].row.Some? {
        var entry := cs[a].row.value.entry;
        var more := InsertAll(TimesOf(entries, entry), Changed(cs[a].row.value), cs[a].row.value.savedAt);
        CacheNext(entries, more, cs, seen, a, entry);
        entries := entries[entry := more];
      } else {
        CacheSkips(entries, cs, seen, a);
      }
      pending, seen := pending - {a}, seen + {a};
    }
    assert seen == cs.Keys;
  }

  /** The uncached branch of `modification_time`: only the rows of one entry. */
  method Rescan(cs: Changes, e: EntryId) returns (times: map<string, Timestamp>)
    requires Faithful(cs)
    ensures TimesAre(times, cs, cs.Keys, e)
  {
    times := map[];
    var pending := cs.Keys;
    while pending != {}
      invariant pending <= cs.Keys && TimesAre(times, cs, cs.Keys - pending, e)
    {
      var a :| a in pending;
      ghost var seen := cs.Keys - pending;
      if cs[a].row.Some? && cs[a].row.value.entry == e {
        var more := InsertAll(times, Changed(cs[a].row.value), cs[a].row.value.savedAt);
        RowInserted(times, more, cs, seen, e, a);
        times := more;
      } else {
        RowElsewhere(times, cs, seen, e, a);
      }
      pending := pending - {a};
      assert cs.Keys - pending == seen + {a};
    }
    assert cs.Keys - pending == cs.Keys;
  }

  // ----- the modification time

  /** The operations a listing shows. */
  function OriginsIn(values: seq<FieldState>): set<string>
  {
    set i, j, k | 0 <= i < |values| && 0 <= j < |values[i].variants| && 0 <= k < |values[i].variants[j].origins| ::
      values[i].variants[j].origins[k]
  }

  lemma StateTexts(v: Changes, e: EntryId, state: FieldState, x: string)
    requires Shows(v, e, state)
    ensures x in Texts(v, Field(e, state.field)) <==>
            exists j, k :: 0 <= j < |state.variants| && 0 <= k < |state.variants[j].origins| && state.variants[j].origins[k] == x
  {
    var r := Field(e, state.field);
    var sources := Sources(v, r);
    if x in Texts(v, r) {
      var a :| a in v && r in v[a].puts && Uncovered(v, r, a) && Render(OpId(v[a].puts[r].counter, a)) == x;
      var s := SourceOf(v, r, a);
      assert s in sources;
      var j :| 0 <= j < |state.variants| && state.variants[j].value == s.value;
      assert x in OriginsOf(sources, s.value);
      assert x in state.variants[j].origins;
    }
    if j, k :| 0 <= j < |state.variants| && 0 <= k < |state.variants[j].origins| && state.variants[j].origins[k] == x {
      assert x in state.variants[j].origins;
      assert x in OriginsOf(sources, state.variants[j].value);
      var s :| s in sources && s.value == state.variants[j].value && Render(s.operation) == x;
      var a :| a in v && r in v[a].puts && Uncovered(v, r, a) && SourceOf(v, r, a) == s;
    }
  }

  /** One of the change's field operations is visible in a listed field. */
  ghost predicate ShowsField(v: Changes, e: EntryId, a: Actor)
  {
    exists f :: Listed(v, e, f) && a in Visible(v, Field(e, f))
  }

  /** The change's placement is visible and its row lists it: a move, not a creation or a restoration. */
  ghost predicate ShowsMove(v: Changes, e: EntryId, a: Actor)
  {
    && a in Visible(v, Home(e)) && v[a].row.Some?
    && OpId(v[a].puts[Home(e)].counter, a) in v[a].row.value.changed
  }

  ghost predicate ShowsIn(v: Changes, e: EntryId, a: Actor)
  {
    ShowsField(v, e, a) || ShowsMove(v, e, a)
  }

  /** The latest saved time of the changes that show. */
  ghost predicate Latest(v: Changes, e: EntryId, time: Timestamp)
  {
    && (exists a :: ShowsIn(v, e, a) && HasRow(v, a, e) && v[a].row.value.savedAt == time)
    && (forall a :: ShowsIn(v, e, a) ==> HasRow(v, a, e) && v[a].row.value.savedAt <= time)
  }

  /** A visible field operation has the time of its row. */
  lemma FieldTextHasTime(v: Changes, e: EntryId, times: map<string, Timestamp>, f: EntryField, a: Actor)
    requires Sound(v) && TimesAre(times, v, v.Keys, e) && a in Visible(v, Field(e, f))
    ensures var x := Render(OpId(v[a].puts[Field(e, f)].counter, a));
            x in times && HasRow(v, a, e) && times[x] == v[a].row.value.savedAt
  {
    PutHasRow(v, a, Field(e, f));
    assert RowTrue(Upto(v, a), a);
    assert OpId(v[a].puts[Field(e, f)].counter, a) in v[a].row.value.changed;
    assert Wrote(v, a, e, Render(OpId(v[a].puts[Field(e, f)].counter, a)));
  }

  lemma SameOperation(v: Changes, a: Actor, r: Register, q: Register)
    requires Valid(v) && a in v && r in v[a].puts && q in v[a].puts && v[a].puts[r].counter == v[a].puts[q].counter
    ensures r == q
  {
    ViewsAreValid(v, a);
  }

  /** A visible placement has the time of its row exactly when the row lists it. */
  lemma HomeTextHasTime(v: Changes, e: EntryId, times: map<string, Timestamp>, a: Actor)
    requires Sound(v) && TimesAre(times, v, v.Keys, e) && a in Visible(v, Home(e))
    ensures var x := Render(OpId(v[a].puts[Home(e)].counter, a));
            (x in times <==> ShowsMove(v, e, a)) && (x in times ==> HasRow(v, a, e) && times[x] == v[a].row.value.savedAt)
  {
    var x := Render(OpId(v[a].puts[Home(e)].counter, a));
    PutHasRow(v, a, Home(e));
    if ShowsMove(v, e, a) {
      assert Wrote(v, a, e, x);
    }
    if x in times {
      var b :| b in v && Wrote(v, b, e, x);
      var r := ChangedBy(v, b, e, x);
      RankOfRender(OpId(v[a].puts[Home(e)].counter, a));
      RankOfRender(OpId(v[b].puts[r].counter, b));
      SameOperation(v, a, Home(e), r);
    }
  }

  /** A visible placement counts exactly when a move wrote it; a creation, a clone or a restoration does not count. */
  lemma OnlyMovesCount(v: Changes, e: EntryId, a: Actor)
    requires Sound(v) && a in Visible(v, Home(e))
    ensures v[a].row.Some? && (ShowsMove(v, e, a) <==> v[a].row.value.kind == Save || v[a].row.value.kind == Resolve)
  {
    PutHasRow(v, a, Home(e));
    assert RowTrue(Upto(v, a), a);
    if ShowsMove(v, e, a) {
      var r :| r in v[a].puts && (r.Field? || (r.Home? && (v[a].row.value.kind == Save || v[a].row.value.kind == Resolve)))
        && v[a].puts[r].counter == v[a].puts[Home(e)].counter;
      SameOperation(v, a, r, Home(e));
    }
  }

  lemma OriginIsShown(v: Changes, e: EntryId, values: seq<FieldState>, x: string) returns (f: EntryField, a: Actor)
    requires Reads(v, e, values) && (forall f :: HasField(values, f) <==> Listed(v, e, f)) && x in OriginsIn(values)
    ensures Listed(v, e, f) && a in Visible(v, Field(e, f)) && x == Render(OpId(v[a].puts[Field(e, f)].counter, a))
  {
    var i, j, k :| 0 <= i < |values| && 0 <= j < |values[i].variants| && 0 <= k < |values[i].variants[j].origins|
      && values[i].variants[j].origins[k] == x;
    f := values[i].field;
    assert HasField(values, f);
    StateTexts(v, e, values[i], x);
    a :| a in v && Field(e, f) in v[a].puts && Uncovered(v, Field(e, f), a) && Render(OpId(v[a].puts[Field(e, f)].counter, a)) == x;
  }

  lemma ShownIsOrigin(v: Changes, e: EntryId, values: seq<FieldState>, f: EntryField, a: Actor)
    requires Reads(v, e, values) && (forall f :: HasField(values, f) <==> Listed(v, e, f))
    requires Listed(v, e, f) && a in Visible(v, Field(e, f))
    ensures Render(OpId(v[a].puts[Field(e, f)].counter, a)) in OriginsIn(values)
  {
    var x := Render(OpId(v[a].puts[Field(e, f)].counter, a));
    assert HasField(values, f);
    var i :| 0 <= i < |values| && values[i].field == f;
    assert x in Texts(v, Field(e, f));
    StateTexts(v, e, values[i], x);
    var j, k :| 0 <= j < |values[i].variants| && 0 <= k < |values[i].variants[j].origins| && values[i].variants[j].origins[k] == x;
  }

  /** The greatest saved time among some operations; the given default if none has one. */
  method Greatest(origins: set<string>, times: map<string, Timestamp>, createdAt: Timestamp) returns (time: Timestamp)
    ensures origins !! times.Keys ==> time == createdAt
    ensures !(origins !! times.Keys) ==> exists x :: x in origins && x in times && times[x] == time
    ensures forall x :: x in origins && x in times ==> times[x] <= time
  {
    var found: Option<Timestamp> := None;
    var pending := origins;
    while pending != {}
      invariant pending <= origins
      invariant found.None? ==> (origins - pending) !! times.Keys
      invariant found.Some? ==> exists x :: x in origins && x in times && times[x] == found.value
      invariant found.Some? ==> forall x :: x in origins - pending && x in times ==> times[x] <= found.value
    {
      var x :| x in pending;
      pending := pending - {x};
      if x in times && (found.None? || found.value < times[x]) {
        found := Some(times[x]);
      }
    }
    time := if found.Some? then found.value else createdAt;
  }

  /**
   `modification_time`: the latest saved time among the changes whose field operations or moves
   still show. An existing entry always shows some, so the creation time is never the answer.
   */
  method ModificationTime(v: Changes, e: EntryId, values: seq<FieldState>, createdAt: Timestamp, times: map<string, Timestamp>)
    returns (time: Timestamp)
    requires Sound(v) && EntryIn(v, e) && TimesAre(times, v, v.Keys, e)
    requires Reads(v, e, values) && forall f :: HasField(values, f) <==> Listed(v, e, f)
    ensures Latest(v, e, time)
  {
    var origins := OriginsIn(values) + Texts(v, Home(e));
    time := Greatest(origins, times, createdAt);
    LatestIsGreatest(v, e, values, origins, times, createdAt, time);
  }

  lemma SomethingShows(v: Changes, e: EntryId) returns (a: Actor)
    requires Valid(v) && EntryIn(v, e)
    ensures Listed(v, e, Title) && a in Visible(v, Field(e, Title))
  {
    ListedIsVisible(v, e, Title);
    a :| a in Visible(v, Field(e, Title));
  }

  /** What shows is an origin with the time of its row. */
  lemma ShownHasTime(v: Changes, e: EntryId, values: seq<FieldState>, origins: set<string>, times: map<string, Timestamp>, a: Actor)
    returns (x: string)
    requires Sound(v) && TimesAre(times, v, v.Keys, e) && origins == OriginsIn(values) + Texts(v, Home(e)) && ShowsIn(v, e, a)
    requires Reads(v, e, values) && forall f :: HasField(values, f) <==> Listed(v, e, f)
    ensures x in origins && x in times && HasRow(v, a, e) && times[x] == v[a].row.value.savedAt
  {
    if ShowsField(v, e, a) {
      var f :| Listed(v, e, f) && a in Visible(v, Field(e, f));
      FieldTextHasTime(v, e, times, f, a);
      ShownIsOrigin(v, e, values, f, a);
      x := Render(OpId(v[a].puts[Field(e, f)].counter, a));
    } else {
      HomeTextHasTime(v, e, times, a);
      x := Render(OpId(v[a].puts[Home(e)].counter, a));
    }
  }

  /** An origin with a time belongs to a change that shows. */
  lemma TimedIsShown(v: Changes, e: EntryId, values: seq<FieldState>, origins: set<string>, times: map<string, Timestamp>, x: string)
    returns (a: Actor)
    requires Sound(v) && TimesAre(times, v, v.Keys, e) && origins == OriginsIn(values) + Texts(v, Home(e))
    requires Reads(v, e, values) && forall f :: HasField(values, f) <==> Listed(v, e, f)
    requires x in origins && x in times
    ensures ShowsIn(v, e, a) && HasRow(v, a, e) && times[x] == v[a].row.value.savedAt
  {
    if x in OriginsIn(values) {
      var f;
      f, a := OriginIsShown(v, e, values, x);
      FieldTextHasTime(v, e, times, f, a);
    } else {
      a :| a in v && Home(e) in v[a].puts && Uncovered(v, Home(e), a) && Render(OpId(v[a].puts[Home(e)].counter, a)) == x;
      assert a in Visible(v, Home(e));
      HomeTextHasTime(v, e, times, a);
    }
  }

  lemma LatestIsGreatest(v: Changes, e: EntryId, values: seq<FieldState>, origins: set<string>, times: map<string, Timestamp>,
                         createdAt: Timestamp, time: Timestamp)
    requires Sound(v) && EntryIn(v, e) && TimesAre(times, v, v.Keys, e)
    requires Reads(v, e, values) && forall f :: HasField(values, f) <==> Listed(v, e, f)
    requires origins == OriginsIn(values) + Texts(v, Home(e))
    requires !(origins !! times.Keys) ==> exists x :: x in origins && x in times && times[x] == time
    requires forall x :: x in origins && x in times ==> times[x] <= time
    ensures Latest(v, e, time)
  {
    forall a | ShowsIn(v, e, a) ensures HasRow(v, a, e) && v[a].row.value.savedAt <= time {
      var x := ShownHasTime(v, e, values, origins, times, a);
    }
    var first := SomethingShows(v, e);
    assert ShowsField(v, e, first);
    var y := ShownHasTime(v, e, values, origins, times, first);
    var x :| x in origins && x in times && times[x] == time;
    var a := TimedIsShown(v, e, values, origins, times, x);
  }

  lemma LatestUnique(v: Changes, e: EntryId, one: Timestamp, two: Timestamp)
    requires Latest(v, e, one) && Latest(v, e, two)
    ensures one == two
  {
  }

  /** The time of one entry as a query with the one-pass cache gives it, and as rescanning its own rows does. */
  method BothTimes(v: Changes, e: EntryId, values: seq<FieldState>, createdAt: Timestamp) returns (cached: Timestamp, rescanned: Timestamp)
    requires Sound(v) && EntryIn(v, e)
    requires Reads(v, e, values) && forall f :: HasField(values, f) <==> Listed(v, e, f)
    ensures cached == rescanned && Latest(v, e, cached)
  {
    var entries := ReadTimes(v);
    cached := ModificationTime(v, e, values, createdAt, TimesOf(entries, e));
    var times := Rescan(v, e);
    rescanned := ModificationTime(v, e, values, createdAt, times);
    LatestUnique(v, e, cached, rescanned);
  }

  /** A move counts: right after it the modification time is not before the move's. */
  lemma MoveIsModification(cs: Changes, ds: Changes, q: Confirmation, now: Timestamp, a: Actor, c: Change, time: Timestamp)
    requires Sound(cs) && Confirmed(cs, ds, q, now, a, c) && (q.kind == Save || q.kind == Resolve)
    requires Home(q.entry) in c.puts && Latest(ds, q.entry, time)
    ensures now <= time
  {
    ConfirmKeepsSound(cs, ds, q, now, a, c);
    PutEffect(cs, a, c, Home(q.entry));
    MovedIsListed(c, a, q.entry, q.kind);
    assert ShowsMove(ds, q.entry, a);
  }

  lemma MovedIsListed(c: Change, a: Actor, e: EntryId, kind: Kind)
    requires Home(e) in c.puts && (kind == Save || kind == Resolve)
    ensures OpId(c.puts[Home(e)].counter, a) in ChangedOperations(c.puts, a, kind)
  {
  }
}
