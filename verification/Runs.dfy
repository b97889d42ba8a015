/**
 Whole runs: any number of replicas of one database and any drafts in flight, under saves at
 any base, moves, scalar edits, resolutions, restorations, patches, purges, merges, deliveries and
 forks in any order.
 */
module Runs {
  import opened Wrappers
  import opened Operations
  import opened Entries
  import opened CausalDocument
  import opened Projection
  import opened Soundness
  import opened Structure
  import opened Drafts
  import opened Confirmations
  import opened Laws

  type ReplicaId = nat

  datatype State = State(replicas: map<ReplicaId, Changes>, drafts: set<EntryDraft>)

  datatype Action =
    | BeginEdit(at: ReplicaId, draft: EntryDraft)
    | BeginCreate(at: ReplicaId, draft: EntryDraft)
    | Type(draft: EntryDraft, fields: EntryFields)
    | Continue(at: ReplicaId, draft: EntryDraft, newer: EntryFields, revision: RevisionId)
    | SaveDraft(at: ReplicaId, draft: EntryDraft, now: Timestamp, kind: Kind, actor: Actor, change: Change)
    | Confirm(at: ReplicaId, confirmation: Confirmation, now: Timestamp, actor: Actor, change: Change)
    | Patch(at: ReplicaId, actor: Actor, change: Change)
    | Purge(at: ReplicaId, actor: Actor, change: Change)
    | Merge(at: ReplicaId, from: ReplicaId)
    | Deliver(at: ReplicaId, from: ReplicaId, batch: set<Actor>)
    | Fork(at: ReplicaId, copy: ReplicaId)

  // ----- drafts over time

  /** `begin_edit_entry`. */
  ghost predicate BeginsEdit(cs: Changes, d: EntryDraft)
  {
    EntryIn(cs, d.entry) && d.base == Heads(cs) && d.original == Some(Project(cs, d.entry)) && d.fields == d.original.value
  }

  /** `begin_create_entry`. */
  ghost predicate BeginsCreate(cs: Changes, d: EntryDraft)
  {
    d.base == Heads(cs) && d.original == None
  }

  /** The changes that hold the row of a revision. */
  function Holders(cs: Changes, revision: RevisionId): set<Actor>
  {
    set a | a in cs && cs[a].row.Some? && cs[a].row.value.id == revision
  }

  /** The base `continue_entry_draft` moves to: only the confirmed revision's own change. */
  ghost predicate Continues(cs: Changes, confirmed: EntryDraft, newer: EntryFields, next: EntryDraft)
  {
    && next.entry == confirmed.entry && next.group == confirmed.group && next.database == confirmed.database
    && next.original == Some(confirmed.fields) && next.fields == newer
    && ((Holders(cs, confirmed.revision) == {} && confirmed.original == Some(confirmed.fields) && next.base == confirmed.base)
        || exists b ::
             && Holders(cs, confirmed.revision) == {b} && next.base == {b}
             && cs[b].row.value.entry == confirmed.entry && cs[b].row.value.submitted == Some(confirmed.fields)
             && cs[b].row.value.base == confirmed.base)
  }

  lemma BeginEstablishes(cs: Changes, d: EntryDraft)
    requires Valid(cs) && (BeginsEdit(cs, d) || BeginsCreate(cs, d))
    ensures DraftOk(cs, d)
  {
    HeadsSeeAll(cs);
  }

  /** The view of a saved form is the base of its continuation. */
  lemma ContinuePreserves(cs: Changes, confirmed: EntryDraft, newer: EntryFields, next: EntryDraft)
    requires Valid(cs) && Faithful(cs) && (confirmed.base <= cs.Keys ==> DraftOk(cs, confirmed))
    requires confirmed.base <= cs.Keys && Continues(cs, confirmed, newer, next)
    ensures DraftOk(cs, next)
  {
    if Holders(cs, confirmed.revision) != {} {
      var b :| Holders(cs, confirmed.revision) == {b} && next.base == {b}
        && cs[b].row.value.entry == confirmed.entry && cs[b].row.value.submitted == Some(confirmed.fields)
        && cs[b].row.value.base == confirmed.base;
      assert b in Holders(cs, confirmed.revision);
      ContinuedFromRow(cs, b, confirmed);
    }
  }

  lemma ContinuedFromRow(cs: Changes, b: Actor, confirmed: EntryDraft)
    requires Valid(cs) && Faithful(cs) && b in cs && cs[b].row.Some?
    requires cs[b].row.value.entry == confirmed.entry && cs[b].row.value.submitted == Some(confirmed.fields)
    ensures EntryIn(At(cs, {b}), confirmed.entry) && Project(At(cs, {b}), confirmed.entry) == confirmed.fields
  {
    BelowOne(cs, b);
    ViewsAreValid(cs, b);
    assert RowTrue(Upto(cs, b), b);
  }

  /** A draft stays what it is in every replica that knows its base. */
  lemma DraftTravels(cs: Changes, ds: Changes, d: EntryDraft)
    requires Valid(cs) && Valid(ds) && Agree(cs, ds) && DraftOk(cs, d) && d.base <= ds.Keys
    ensures DraftOk(ds, d)
  {
    DownWithin(cs, ds, d.base);
  }

  // ----- steps

  predicate Fresh(s: State, a: Actor)
  {
    forall i :: i in s.replicas ==> a !in s.replicas[i]
  }

  ghost predicate Step(s: State, action: Action, t: State)
  {
    match action
    case BeginEdit(i, d) =>
      i in s.replicas && BeginsEdit(s.replicas[i], d) && t == s.(drafts := s.drafts + {d})
    case BeginCreate(i, d) =>
      i in s.replicas && BeginsCreate(s.replicas[i], d) && t == s.(drafts := s.drafts + {d})
    case Type(d, fields) =>
      d in s.drafts && t == s.(drafts := s.drafts + {d.(fields := fields)})
    case Continue(i, d, newer, revision) =>
      i in s.replicas && d in s.drafts && d.base <= s.replicas[i].Keys
      && exists next :: Continues(s.replicas[i], d, newer, next) && next.revision == revision && t == s.(drafts := s.drafts + {next})
    case SaveDraft(i, d, now, kind, a, c) =>
      i in s.replicas && d in s.drafts && Fresh(s, a)
      && exists ds :: Saved(s.replicas[i], ds, d, now, kind, a, c) && t == s.(replicas := s.replicas[i := ds])
    case Confirm(i, q, now, a, c) =>
      i in s.replicas && Fresh(s, a)
      && exists ds :: Confirmed(s.replicas[i], ds, q, now, a, c) && t == s.(replicas := s.replicas[i := ds])
    case Patch(i, a, c) =>
      i in s.replicas && Fresh(s, a) && Patches(s.replicas[i], a, c)
      && t == s.(replicas := s.replicas[i := s.replicas[i][a := c]])
    case Purge(i, a, c) =>
      i in s.replicas && Fresh(s, a) && Purges(s.replicas[i], a, c)
      && t == s.(replicas := s.replicas[i := s.replicas[i][a := c]])
    case Merge(i, j) =>
      i in s.replicas && j in s.replicas && Structured(s.replicas[i] + s.replicas[j])
      && t == s.(replicas := s.replicas[i := s.replicas[i] + s.replicas[j]])
    case Deliver(i, j, batch) =>
      i in s.replicas && j in s.replicas && Delivers(s.replicas[i], Restrict(s.replicas[j], batch))
      && t == s.(replicas := s.replicas[i := s.replicas[i] + Restrict(s.replicas[j], batch)])
    case Fork(i, k) =>
      i in s.replicas && k !in s.replicas && t == s.(replicas := s.replicas[k := s.replicas[i]])
  }

  /** What `apply_sources` accepts: a batch that brings its dependencies and leaves the structure intact. */
  ghost predicate Delivers(cs: Changes, batch: Changes)
  {
    (forall a :: a in batch ==> batch[a].deps <= cs.Keys + batch.Keys) && Structured(cs + batch)
  }

  ghost predicate OnlyDetails(wanted: map<Register, Scalar>)
  {
    forall r :: r in wanted ==> r.Detail? && Fits(r, wanted[r])
  }

  /** A patch of group or database details, at any base. */
  ghost predicate Patches(cs: Changes, a: Actor, c: Change)
  {
    && c.row == None && c.purged == {}
    && exists wanted :: Committed(cs, a, c, c.deps, wanted) && OnlyDetails(wanted)
  }

  lemma PatchKeepsSound(cs: Changes, a: Actor, c: Change)
    requires Valid(cs) && Faithful(cs) && Patches(cs, a, c)
    ensures Valid(cs[a := c]) && Faithful(cs[a := c])
    ensures Structured(cs) ==> Structured(cs[a := c])
  {
    var wanted :| Committed(cs, a, c, c.deps, wanted) && OnlyDetails(wanted);
    DetailsKeepValid(cs, a, c, c.deps, wanted);
    if Structured(cs) {
      NoObjectsKeepStructured(cs, a, c);
    }
  }

  /** A change without rows and objects keeps the structure. */
  lemma NoObjectsKeepStructured(cs: Changes, a: Actor, c: Change)
    requires Structured(cs) && a !in cs && c.row == None && forall r :: r in c.puts ==> r.Detail?
    ensures Structured(cs[a := c])
  {
    ExtendKeepsStructured(cs, a, c);
  }

  /** `purge_history`: a change at the current heads that writes no entry, only purge keys. */
  ghost predicate Purges(cs: Changes, a: Actor, c: Change)
  {
    a !in cs && c.deps == Heads(cs) && c.past == cs.Keys && c.puts == map[] && c.row == None
    && forall x :: x in c.purged ==> exists e :: x in VisibleHistory(cs, e)
  }

  lemma PurgeKeepsSound(cs: Changes, a: Actor, c: Change)
    requires Valid(cs) && Faithful(cs) && Purges(cs, a, c)
    ensures Valid(cs[a := c]) && Faithful(cs[a := c])
    ensures Structured(cs) ==> Structured(cs[a := c])
  {
    if Structured(cs) {
      NoObjectsKeepStructured(cs, a, c);
    }
    HeadsSeeAll(cs);
    var v := Restrict(cs, c.past)[a := c];
    assert Restrict(cs, c.past) == cs && v - {a} == cs;
    assert Down(cs, c.deps) == cs.Keys by {
      assert At(cs, Heads(cs)).Keys == cs.Keys;
    }
    ExtendKeepsValid(cs, a, c);
    ExtendKeepsFaithful(cs, a, c);
  }

  // ----- the invariant of a run

  ghost predicate Replicated(s: State)
  {
    && (forall i :: i in s.replicas ==> Valid(s.replicas[i]) && Faithful(s.replicas[i]) && Structured(s.replicas[i]))
    && (forall i, j :: i in s.replicas && j in s.replicas ==> Agree(s.replicas[i], s.replicas[j]))
  }

  ghost predicate Grounded(s: State, d: EntryDraft)
  {
    exists i :: i in s.replicas && DraftOk(s.replicas[i], d)
  }

  ghost predicate Inv(s: State)
  {
    Replicated(s) && forall d :: d in s.drafts ==> Grounded(s, d)
  }

  /** A replica grows by one fresh change or by another replica's changes. */
  ghost predicate Grows(s: State, i: ReplicaId, ds: Changes)
  {
    && i in s.replicas && Valid(ds) && Faithful(ds) && Structured(ds)
    && (forall a :: a in s.replicas[i] ==> a in ds && ds[a] == s.replicas[i][a])
    && (forall j :: j in s.replicas ==> Agree(ds, s.replicas[j]))
  }

  lemma GrowthKeepsInv(s: State, i: ReplicaId, ds: Changes)
    requires Inv(s) && Grows(s, i, ds)
    ensures Inv(s.(replicas := s.replicas[i := ds]))
  {
    var t := s.(replicas := s.replicas[i := ds]);
    assert Agree(ds, ds);
    forall j, k | j in t.replicas && k in t.replicas ensures Agree(t.replicas[j], t.replicas[k]) {
      if k == i && j != i {
        assert Agree(ds, s.replicas[j]);
      }
    }
    forall d | d in t.drafts ensures Grounded(t, d) {
      var j :| j in s.replicas && DraftOk(s.replicas[j], d);
      if j == i {
        DraftTravels(s.replicas[i], ds, d);
        assert DraftOk(t.replicas[i], d);
      } else {
        assert DraftOk(t.replicas[j], d);
      }
    }
  }

  /** Every draft in flight is grounded in each replica that knows its base. */
  lemma GroundedAnywhere(s: State, d: EntryDraft, i: ReplicaId)
    requires Inv(s) && d in s.drafts && i in s.replicas && d.base <= s.replicas[i].Keys
    ensures DraftOk(s.replicas[i], d)
  {
    var j :| j in s.replicas && DraftOk(s.replicas[j], d);
    DraftTravels(s.replicas[j], s.replicas[i], d);
  }

  lemma ChangeGrows(s: State, i: ReplicaId, a: Actor, c: Change)
    requires Inv(s) && i in s.replicas && Fresh(s, a)
    requires Valid(s.replicas[i][a := c]) && Faithful(s.replicas[i][a := c]) && Structured(s.replicas[i][a := c])
    ensures Grows(s, i, s.replicas[i][a := c])
  {
    var ds := s.replicas[i][a := c];
    forall j | j in s.replicas ensures Agree(ds, s.replicas[j]) {
      assert Agree(s.replicas[i], s.replicas[j]);
    }
  }

  lemma MergeGrows(s: State, i: ReplicaId, j: ReplicaId)
    requires Inv(s) && i in s.replicas && j in s.replicas && Structured(s.replicas[i] + s.replicas[j])
    ensures Grows(s, i, s.replicas[i] + s.replicas[j])
  {
    var cs, os := s.replicas[i], s.replicas[j];
    assert Agree(cs, os);
    UnionKeepsValid(cs, os);
    UnionKeepsFaithful(cs, os);
    forall k | k in s.replicas ensures Agree(cs + os, s.replicas[k]) {
      assert Agree(cs, s.replicas[k]) && Agree(os, s.replicas[k]);
    }
  }

  lemma DeliveryGrows(s: State, i: ReplicaId, j: ReplicaId, batch: set<Actor>)
    requires Inv(s) && i in s.replicas && j in s.replicas && Delivers(s.replicas[i], Restrict(s.replicas[j], batch))
    ensures Grows(s, i, s.replicas[i] + Restrict(s.replicas[j], batch))
  {
    var cs, os := s.replicas[i], s.replicas[j];
    var part := Restrict(os, batch);
    assert Agree(cs, os);
    UnionKeepsValid(cs, os);
    UnionKeepsFaithful(cs, os);
    BatchKeepsSound(cs, part, cs + os);
    forall k | k in s.replicas ensures Agree(cs + part, s.replicas[k]) {
      assert Agree(cs, s.replicas[k]) && Agree(os, s.replicas[k]);
    }
  }

  lemma NewDraftKeepsInv(s: State, d: EntryDraft, i: ReplicaId)
    requires Inv(s) && i in s.replicas && DraftOk(s.replicas[i], d)
    ensures Inv(s.(drafts := s.drafts + {d}))
  {
    var t := s.(drafts := s.drafts + {d});
    forall x | x in t.drafts ensures Grounded(t, x) {
      if x != d {
        var j :| j in s.replicas && DraftOk(s.replicas[j], x);
        assert DraftOk(t.replicas[j], x);
      } else {
        assert DraftOk(t.replicas[i], x);
      }
    }
  }

  lemma ForkKeepsInv(s: State, i: ReplicaId, k: ReplicaId)
    requires Inv(s) && i in s.replicas && k !in s.replicas
    ensures Inv(s.(replicas := s.replicas[k := s.replicas[i]]))
  {
    var t := s.(replicas := s.replicas[k := s.replicas[i]]);
    forall j, l | j in t.replicas && l in t.replicas ensures Agree(t.replicas[j], t.replicas[l]) {
      assert Agree(s.replicas[if j == k then i else j], s.replicas[if l == k then i else l]);
    }
    forall d | d in t.drafts ensures Grounded(t, d) {
      var j :| j in s.replicas && DraftOk(s.replicas[j], d);
      assert DraftOk(t.replicas[j], d);
    }
  }

  lemma StepKeepsInv(s: State, action: Action, t: State)
    requires Inv(s) && Step(s, action, t)
    ensures Inv(t)
  {
    match action
    case BeginEdit(i, d) =>
      BeginEstablishes(s.replicas[i], d);
      NewDraftKeepsInv(s, d, i);
    case BeginCreate(i, d) =>
      BeginEstablishes(s.replicas[i], d);
      NewDraftKeepsInv(s, d, i);
    case Type(d, fields) =>
      var j :| j in s.replicas && DraftOk(s.replicas[j], d);
      NewDraftKeepsInv(s, d.(fields := fields), j);
    case Continue(i, d, newer, revision) =>
      var next :| Continues(s.replicas[i], d, newer, next) && next.revision == revision && t == s.(drafts := s.drafts + {next});
      GroundedAnywhere(s, d, i);
      ContinuePreserves(s.replicas[i], d, newer, next);
      NewDraftKeepsInv(s, next, i);
    case SaveDraft(i, d, now, kind, a, c) =>
      var ds :| Saved(s.replicas[i], ds, d, now, kind, a, c) && t == s.(replicas := s.replicas[i := ds]);
      GroundedAnywhere(s, d, i);
      SaveKeepsSound(s.replicas[i], ds, d, now, kind, a, c);
      SaveKeepsStructured(s.replicas[i], ds, d, now, kind, a, c);
      ChangeGrows(s, i, a, c);
      GrowthKeepsInv(s, i, ds);
    case Confirm(i, q, now, a, c) =>
      var ds :| Confirmed(s.replicas[i], ds, q, now, a, c) && t == s.(replicas := s.replicas[i := ds]);
      ConfirmKeepsSound(s.replicas[i], ds, q, now, a, c);
      ConfirmKeepsStructured(s.replicas[i], ds, q, now, a, c);
      ChangeGrows(s, i, a, c);
      GrowthKeepsInv(s, i, ds);
    case Patch(i, a, c) =>
      PatchKeepsSound(s.replicas[i], a, c);
      ChangeGrows(s, i, a, c);
      GrowthKeepsInv(s, i, s.replicas[i][a := c]);
    case Purge(i, a, c) =>
      PurgeKeepsSound(s.replicas[i], a, c);
      ChangeGrows(s, i, a, c);
      GrowthKeepsInv(s, i, s.replicas[i][a := c]);
    case Merge(i, j) =>
      MergeGrows(s, i, j);
      GrowthKeepsInv(s, i, s.replicas[i] + s.replicas[j]);
    case Deliver(i, j, batch) =>
      DeliveryGrows(s, i, j, batch);
      GrowthKeepsInv(s, i, s.replicas[i] + Restrict(s.replicas[j], batch));
    case Fork(i, k) =>
      ForkKeepsInv(s, i, k);
  }

  // ----- runs

  ghost predicate Moves(states: seq<State>, actions: seq<Action>, k: nat)
  {
    k < |actions| && k + 1 < |states| && Step(states[k], actions[k], states[k + 1])
  }

  ghost predicate Run(states: seq<State>, actions: seq<Action>)
  {
    |states| == |actions| + 1 && forall k: nat :: k < |actions| ==> Moves(states, actions, k)
  }

  /** Forks of one new database: a first change without entries, and no drafts. */
  ghost predicate Initial(s: State)
  {
    s.drafts == {} && exists g :: forall i :: i in s.replicas ==> s.replicas[i] == map[g := Change({}, {}, map[], None, {})]
  }

  lemma InitialIsSound(s: State)
    requires Initial(s)
    ensures Inv(s)
  {
    var g :| forall i :: i in s.replicas ==> s.replicas[i] == map[g := Change({}, {}, map[], None, {})];
    var cs := map[g := Change({}, {}, map[], None, {})];
    assert Upto(cs, g) == cs && cs - {g} == map[];
    assert Ordered(Upto(cs, g), g) && SoundAt(Upto(cs, g), g) && RowTrue(Upto(cs, g), g);
  }

  lemma MoveKeepsInv(states: seq<State>, actions: seq<Action>, m: nat, n: nat)
    requires Run(states, actions) && n == m + 1 < |states| && Inv(states[m])
    ensures Inv(states[n])
  {
    assert Moves(states, actions, m);
    StepKeepsInv(states[m], actions[m], states[n]);
  }

  /** Every reachable state satisfies the invariant: all laws apply to every replica at every moment. */
  lemma {:induction false} ReachableIsSound(states: seq<State>, actions: seq<Action>, k: nat)
    requires Run(states, actions) && Initial(states[0]) && k < |states|
    ensures Inv(states[k])
  {
    if k == 0 {
      InitialIsSound(states[0]);
    } else {
      ReachableIsSound(states, actions, k - 1);
      MoveKeepsInv(states, actions, k - 1, k);
    }
  }

  ghost predicate Extends(cs: Changes, ds: Changes)
  {
    forall a :: a in cs ==> a in ds && ds[a] == cs[a]
  }

  // ----- what a step does to the replicas

  ghost predicate Adds(s: State, t: State, i: ReplicaId, a: Actor, c: Change)
  {
    i in s.replicas && a !in s.replicas[i] && t.replicas == s.replicas[i := s.replicas[i][a := c]]
  }

  ghost predicate Joins(s: State, t: State, i: ReplicaId, j: ReplicaId, part: Changes)
  {
    && i in s.replicas && j in s.replicas && Agree(s.replicas[i], part) && Extends(part, s.replicas[j])
    && t.replicas == s.replicas[i := s.replicas[i] + part]
  }

  /** The row of a change. */
  predicate HoldsRow(c: Change, e: EntryId, revision: RevisionId, kind: Kind)
  {
    c.purged == {} && c.row.Some? && c.row.value.entry == e && c.row.value.id == revision && c.row.value.kind == kind
  }

  /** The presences a change writes alive are those its confirmation asks for. */
  ghost predicate MarksOnly(c: Change, q: Confirmation)
  {
    forall f :: Field(q.entry, f) in c.puts && c.puts[Field(q.entry, f)].scalar == Mark(true, q.revision) ==>
      f in q.values && q.values[f] == PresenceValue(true)
  }

  /** One step, seen from the replicas: at most one of them changes, by one change or by a join. */
  ghost predicate Shape(s: State, action: Action, t: State)
  {
    match action
    case SaveDraft(i, d, _, kind, a, c) => Adds(s, t, i, a, c) && HoldsRow(c, d.entry, d.revision, kind) && Ordinary(kind)
    case Confirm(i, q, _, a, c) => Adds(s, t, i, a, c) && HoldsRow(c, q.entry, q.revision, q.kind) && MarksOnly(c, q)
    case Patch(i, a, c) => Adds(s, t, i, a, c) && c.row == None && c.purged == {}
    case Purge(i, a, c) => Adds(s, t, i, a, c) && c.row == None
    case Merge(i, j) => i in s.replicas && j in s.replicas && Joins(s, t, i, j, s.replicas[j])
    case Deliver(i, j, batch) => i in s.replicas && j in s.replicas && Joins(s, t, i, j, Restrict(s.replicas[j], batch))
    case Fork(i, k) => i in s.replicas && k !in s.replicas && t.replicas == s.replicas[k := s.replicas[i]]
    case _ => t.replicas == s.replicas
  }

  lemma ConfirmMarksOnly(cs: Changes, ds: Changes, q: Confirmation, now: Timestamp, a: Actor, c: Change)
    requires Confirmed(cs, ds, q, now, a, c)
    ensures MarksOnly(c, q)
  {
    var wanted :| ConfirmAsks(wanted, q) && Committed(cs, a, c, q.base, wanted);
    MarksWanted(cs, q, c, wanted);
  }

  lemma MarksWanted(cs: Changes, q: Confirmation, c: Change, wanted: map<Register, Scalar>)
    requires ConfirmAsks(wanted, q) && Recorded(At(cs, q.base), c, wanted)
    ensures MarksOnly(c, q)
  {
    forall f | Field(q.entry, f) in c.puts && c.puts[Field(q.entry, f)].scalar == Mark(true, q.revision)
      ensures f in q.values && q.values[f] == PresenceValue(true)
    {
      assert Write(wanted, Field(q.entry, f)) == ConfirmWrite(q, Field(q.entry, f));
    }
  }

  lemma StepHasShape(s: State, action: Action, t: State)
    requires Inv(s) && Step(s, action, t)
    ensures Shape(s, action, t)
  {
    if action.Merge? || action.Deliver? {
      assert Agree(s.replicas[action.at], s.replicas[action.from]);
    } else if action.Confirm? {
      var ds :| Confirmed(s.replicas[action.at], ds, action.confirmation, action.now, action.actor, action.change);
      ConfirmMarksOnly(s.replicas[action.at], ds, action.confirmation, action.now, action.actor, action.change);
    }
  }

  lemma ShapeExtends(s: State, action: Action, t: State, i: ReplicaId)
    requires Shape(s, action, t) && i in s.replicas
    ensures i in t.replicas && Extends(s.replicas[i], t.replicas[i])
  {
  }

  lemma MoveExtends(states: seq<State>, actions: seq<Action>, m: nat, i: ReplicaId)
    requires Run(states, actions) && Initial(states[0]) && m < |actions| && i in states[m].replicas
    ensures i in states[m + 1].replicas && Extends(states[m].replicas[i], states[m + 1].replicas[i])
  {
    ReachableIsSound(states, actions, m);
    assert Moves(states, actions, m);
    StepHasShape(states[m], actions[m], states[m + 1]);
    ShapeExtends(states[m], actions[m], states[m + 1], i);
  }

  lemma ExtendsTransitive(cs: Changes, ds: Changes, es: Changes)
    requires Extends(cs, ds) && Extends(ds, es)
    ensures Extends(cs, es)
  {
  }

  lemma ExtendsReflexive(cs: Changes)
    ensures Extends(cs, cs)
  {
  }

  /** A replica never forgets. */
  lemma {:induction false} ReplicasNeverForget(states: seq<State>, actions: seq<Action>, i: ReplicaId, k: nat, l: nat)
    requires Run(states, actions) && Initial(states[0]) && k <= l < |states| && i in states[k].replicas
    ensures i in states[l].replicas && Extends(states[k].replicas[i], states[l].replicas[i])
    decreases l
  {
    if k < l {
      ReplicasNeverForget(states, actions, i, k, l - 1);
      MoveExtends(states, actions, l - 1, i);
      ExtendsTransitive(states[k].replicas[i], states[l - 1].replicas[i], states[l].replicas[i]);
    } else {
      ExtendsReflexive(states[k].replicas[i]);
    }
  }

  // ----- deletion over runs

  /** The only actions that may bring a deletion back: they name the presence and set it. */
  predicate Restorative(action: Action, e: EntryId, f: EntryField)
  {
    && action.Confirm? && (action.confirmation.kind == Restore || action.confirmation.kind == Resolve)
    && action.confirmation.entry == e && f in action.confirmation.values
    && action.confirmation.values[f] == PresenceValue(true)
  }

  ghost predicate Unrevived(s: State, a: Actor, e: EntryId, f: EntryField)
  {
    forall i, b :: i in s.replicas ==> !Revives(s.replicas[i], b, a, e, f)
  }

  /** A change revives what it marks alive, if it knows the deletion and is a restoration or resolution. */
  predicate MarksAlive(c: Change, e: EntryId, f: EntryField)
  {
    && Field(e, f) in c.puts && c.puts[Field(e, f)].scalar.Mark? && c.puts[Field(e, f)].scalar.alive
    && c.row.Some? && (c.row.value.kind == Restore || c.row.value.kind == Resolve)
  }

  lemma ChangeRevivesNothing(cs: Changes, x: Actor, c: Change, a: Actor, e: EntryId, f: EntryField, b: Actor)
    requires x !in cs && !MarksAlive(c, e, f) && !Revives(cs, b, a, e, f)
    ensures !Revives(cs[x := c], b, a, e, f)
  {
  }

  /** What is not restorative does not mark alive what was deleted. */
  lemma ShapeMarksNothing(s: State, action: Action, t: State, e: EntryId, f: EntryField)
    requires Shape(s, action, t) && !Restorative(action, e, f)
    requires action.SaveDraft? || action.Confirm? || action.Patch? || action.Purge?
    requires Inv(t) && action.at in t.replicas && action.actor in t.replicas[action.at]
    ensures !MarksAlive(action.change, e, f)
  {
    var ds := t.replicas[action.at];
    if MarksAlive(action.change, e, f) {
      PutHasRow(ds, action.actor, Field(e, f));
    }
  }

  lemma StepRevivesNothing(s: State, action: Action, t: State, a: Actor, e: EntryId, f: EntryField)
    requires Shape(s, action, t) && Inv(t) && Unrevived(s, a, e, f) && !Restorative(action, e, f)
    ensures Unrevived(t, a, e, f)
  {
    forall i, b | i in t.replicas ensures !Revives(t.replicas[i], b, a, e, f) {
      if (action.SaveDraft? || action.Confirm? || action.Patch? || action.Purge?) && i == action.at {
        ShapeMarksNothing(s, action, t, e, f);
        ChangeRevivesNothing(s.replicas[i], action.actor, action.change, a, e, f, b);
      } else if (action.Merge? || action.Deliver?) && i == action.at {
        assert !Revives(s.replicas[action.at], b, a, e, f) && !Revives(s.replicas[action.from], b, a, e, f);
      } else if action.Fork? && i == action.copy {
        assert !Revives(s.replicas[action.at], b, a, e, f);
      }
    }
  }

  lemma MoveRevivesNothing(states: seq<State>, actions: seq<Action>, m: nat, a: Actor, e: EntryId, f: EntryField)
    requires Run(states, actions) && Initial(states[0]) && m < |actions|
    requires Unrevived(states[m], a, e, f) && !Restorative(actions[m], e, f)
    ensures Unrevived(states[m + 1], a, e, f)
  {
    ReachableIsSound(states, actions, m);
    assert Moves(states, actions, m);
    StepHasShape(states[m], actions[m], states[m + 1]);
    StepKeepsInv(states[m], actions[m], states[m + 1]);
    StepRevivesNothing(states[m], actions[m], states[m + 1], a, e, f);
  }

  lemma {:induction false} RunRevivesNothing(states: seq<State>, actions: seq<Action>, k: nat, l: nat, a: Actor, e: EntryId, f: EntryField)
    requires Run(states, actions) && Initial(states[0]) && k <= l < |states|
    requires Unrevived(states[k], a, e, f) && forall m :: k <= m < l ==> !Restorative(actions[m], e, f)
    ensures Unrevived(states[l], a, e, f)
    decreases l
  {
    if k < l {
      RunRevivesNothing(states, actions, k, l - 1, a, e, f);
      MoveRevivesNothing(states, actions, l - 1, a, e, f);
    }
  }

  /**
   Once a replica holds a deletion that no replica has revived, no run makes the attribute or
   attachment part of its form again unless a restoration or resolution sets that very presence:
   not draft saves at any base, edits, moves, patches, purges, merges, deliveries or forks.
   */
  lemma DeletionOutlastsRuns(states: seq<State>, actions: seq<Action>, i: ReplicaId, k: nat, l: nat, a: Actor, e: EntryId, f: EntryField)
    requires Run(states, actions) && Initial(states[0]) && k <= l < |states| && i in states[k].replicas
    requires IsPresence(f) && Deletes(states[k].replicas[i], a, e, f) && Unrevived(states[k], a, e, f)
    requires forall m :: k <= m < l ==> !Restorative(actions[m], e, f)
    ensures i in states[l].replicas && !InForm(Project(states[l].replicas[i], e), f)
  {
    ReplicasNeverForget(states, actions, i, k, l);
    ReachableIsSound(states, actions, l);
    RunRevivesNothing(states, actions, k, l, a, e, f);
    DeletedStaysAbsent(states[l].replicas[i], e, f, a);
  }

  // ----- history over runs

  /** A purged row never comes back to a replica; an unpurged one is never lost. */
  lemma HistoryIsTwoPhase(states: seq<State>, actions: seq<Action>, i: ReplicaId, k: nat, l: nat, e: EntryId, x: RevisionId)
    requires Run(states, actions) && Initial(states[0]) && k <= l < |states| && i in states[k].replicas
    ensures i in states[l].replicas
    ensures x in PurgedIds(states[k].replicas[i]) ==> x !in VisibleHistory(states[l].replicas[i], e)
    ensures x in VisibleHistory(states[k].replicas[i], e) ==>
              (x in VisibleHistory(states[l].replicas[i], e) <==> x !in PurgedIds(states[l].replicas[i]))
  {
    ReplicasNeverForget(states, actions, i, k, l);
    var cs, ds := states[k].replicas[i], states[l].replicas[i];
    if x in PurgedIds(cs) {
      var a :| a in cs && x in cs[a].purged;
      assert a in ds && x in ds[a].purged;
    }
    if x in Rows(cs, e) {
      var a :| a in cs && cs[a].row.Some? && cs[a].row.value.entry == e && cs[a].row.value.id == x;
      assert a in ds && ds[a] == cs[a];
    }
  }

  function OwnRow(c: Change, e: EntryId): set<RevisionId>
  {
    if c.row.Some? && c.row.value.entry == e then {c.row.value.id} else {}
  }

  lemma HistoryAfter(cs: Changes, a: Actor, c: Change, e: EntryId)
    requires a !in cs
    ensures VisibleHistory(cs[a := c], e) == VisibleHistory(cs, e) + (OwnRow(c, e) - PurgedIds(cs)) - c.purged
  {
    HistoryGrows(cs, a, c, e);
  }

  /** What each action makes of a replica's history. */
  ghost predicate HistoryMoves(s: State, action: Action, t: State, e: EntryId)
    requires Shape(s, action, t)
  {
    match action
    case SaveDraft(i, d, _, _, _, _) =>
      VisibleHistory(t.replicas[i], e) ==
      VisibleHistory(s.replicas[i], e) + if d.entry == e then {d.revision} - PurgedIds(s.replicas[i]) else {}
    case Confirm(i, q, _, _, _) =>
      VisibleHistory(t.replicas[i], e) ==
      VisibleHistory(s.replicas[i], e) + if q.entry == e then {q.revision} - PurgedIds(s.replicas[i]) else {}
    case Patch(i, _, _) => VisibleHistory(t.replicas[i], e) == VisibleHistory(s.replicas[i], e)
    case Purge(i, _, c) => VisibleHistory(t.replicas[i], e) == VisibleHistory(s.replicas[i], e) - c.purged
    case Deliver(i, j, batch) =>
      var part := Restrict(s.replicas[j], batch);
      VisibleHistory(t.replicas[i], e) ==
      (Rows(s.replicas[i], e) + Rows(part, e)) - (PurgedIds(s.replicas[i]) + PurgedIds(part))
    case Merge(i, j) =>
      VisibleHistory(t.replicas[i], e) ==
      (Rows(s.replicas[i], e) + Rows(s.replicas[j], e)) - (PurgedIds(s.replicas[i]) + PurgedIds(s.replicas[j]))
    case _ => forall i :: i in s.replicas ==> i in t.replicas && t.replicas[i] == s.replicas[i]
  }

  lemma ShapeHistory(s: State, action: Action, t: State, e: EntryId)
    requires Shape(s, action, t)
    ensures HistoryMoves(s, action, t, e)
  {
    if action.SaveDraft? || action.Confirm? || action.Patch? || action.Purge? {
      HistoryAfter(s.replicas[action.at], action.actor, action.change, e);
    } else if action.Merge? {
      HistoryMerges(s.replicas[action.at], s.replicas[action.from], e);
    } else if action.Deliver? {
      HistoryMerges(s.replicas[action.at], Restrict(s.replicas[action.from], action.batch), e);
    }
  }

  /** Each confirmation adds one row, a purge removes its revisions, joins unite both sides, nothing else changes. */
  lemma StepHistory(s: State, action: Action, t: State, e: EntryId)
    requires Inv(s) && Step(s, action, t)
    ensures Shape(s, action, t) && HistoryMoves(s, action, t, e)
  {
    StepHasShape(s, action, t);
    ShapeHistory(s, action, t, e);
  }

  // ----- protection, drafts and retention over runs

  /** A save that exposes a value protected at some moment started from a form that showed it protected. */
  lemma ProtectionOutlastsRuns(states: seq<State>, actions: seq<Action>, i: ReplicaId, k: nat, l: nat, a: Actor, e: EntryId, x: AttributeId)
    returns (b: Actor)
    requires Run(states, actions) && Initial(states[0]) && k <= l < |states| && i in states[k].replicas
    requires Conceals(states[k].replicas[i], a, e, x)
    ensures i in states[l].replicas
    ensures DataOf(Selected(states[l].replicas[i], e, AttributeData(x))).concealed || Exposes(states[l].replicas[i], b, a, e, x)
  {
    ReplicasNeverForget(states, actions, i, k, l);
    ReachableIsSound(states, actions, l);
    if !DataOf(Selected(states[l].replicas[i], e, AttributeData(x))).concealed {
      b := ProtectionHolds(states[l].replicas[i], e, x, a);
    } else {
      b := a;
    }
  }

  /** Any chain of begin, typing, saving and continuing yields drafts grounded in their base. */
  lemma DraftsStayGrounded(states: seq<State>, actions: seq<Action>, k: nat, d: EntryDraft, i: ReplicaId)
    requires Run(states, actions) && Initial(states[0]) && k < |states|
    requires d in states[k].drafts && i in states[k].replicas && d.base <= states[k].replicas[i].Keys
    ensures d.original.Some? ==>
              && EntryIn(At(states[k].replicas[i], d.base), d.entry)
              && Project(At(states[k].replicas[i], d.base), d.entry) == d.original.value
  {
    ReachableIsSound(states, actions, k);
    GroundedAnywhere(states[k], d, i);
  }
}
