/**
 Patches of group and database details at reviewed heads, from taypeer-document/src/metadata.rs
 and groups.rs. Only dirty fields are written, and what the author had not seen survives.
 */
module Metadata {
  import opened Wrappers
  import opened Operations
  import opened Entries
  import opened CausalDocument
  import opened Selection
  import opened Projection
  import opened Soundness
  import opened Structure
  import opened Drafts
  import opened Transactions
  import opened Committing
  import Runs

  datatype FieldUpdate<T> = Keep | Set(value: T) | Clear

  datatype Patch = Patch(name: FieldUpdate<string>, description: FieldUpdate<string>, icon: FieldUpdate<IconRef>, parent: FieldUpdate<GroupId>)

  /** The selected details of a group. */
  datatype Details = Details(name: string, description: Option<string>, icon: IconRef, parent: Option<GroupId>)

  function TextIn(s: Option<Scalar>): Option<string>
  {
    if s.Some? && s.value.Data? then TextOf(s.value.value) else None
  }

  function NameIn(s: Option<Scalar>): string
  {
    if TextIn(s).Some? then TextIn(s).value else ""
  }

  function IconIn(s: Option<Scalar>): IconRef
  {
    if s.Some? && s.value.Data? then IconOf(s.value.value) else DefaultIcon
  }

  function ParentIn(s: Option<Scalar>): Option<GroupId>
  {
    if s.Some? && s.value.Placement? then s.value.parent else None
  }

  ghost function DetailsOf(v: Changes, g: GroupId): Details
  {
    Details(
      NameIn(Chosen(v, Detail(g, DetailName))),
      TextIn(Chosen(v, Detail(g, DetailDescription))),
      IconIn(Chosen(v, Detail(g, DetailIcon))),
      ParentIn(Chosen(v, Detail(g, DetailPlacement))))
  }

  /** What a patch means. */
  function Patched(patch: Patch, before: Details): Details
    requires patch.name != Clear
  {
    Details(
      if patch.name.Set? then patch.name.value else before.name,
      match patch.description { case Keep => before.description case Set(text) => Some(text) case Clear => None },
      match patch.icon { case Keep => before.icon case Set(icon) => icon case Clear => DefaultIcon },
      match patch.parent { case Keep => before.parent case Set(parent) => Some(parent) case Clear => None })
  }

  // ----- reading

  lemma BestSoFar(v: Changes, r: Register, a: Actor)
    requires !r.Field? && a in Visible(v, r)
    requires forall b :: b in Visible(v, r) && b != a ==>
               Operations.Precedes(OpId(v[b].puts[r].counter, b), OpId(v[a].puts[r].counter, a))
    ensures Chosen(v, r) == Some(v[a].puts[r].scalar)
  {
    assert SourceOf(v, r, a) in Sources(v, r);
    forall t | t in Sources(v, r) ensures t == SourceOf(v, r, a) || Outranked(Title, t, SourceOf(v, r, a)) {
      var b :| b in v && r in v[b].puts && Uncovered(v, r, b) && SourceOf(v, r, b) == t;
      assert b in Visible(v, r);
    }
    assert IsBest(v, r, a);
    ChosenIsBest(v, r, a);
  }

  /** The scan of `read_group` and `optional_text`: the value of the greatest visible operation. */
  method ReadDetail(v: Changes, r: Register) returns (selected: Option<Scalar>)
    requires !r.Field?
    ensures selected == Chosen(v, r)
  {
    var best: Option<Actor> := None;
    var pending := Visible(v, r);
    while pending != {}
      invariant pending <= Visible(v, r)
      invariant best.None? <==> pending == Visible(v, r)
      invariant best.Some? ==> best.value in Visible(v, r) && forall b :: b in Visible(v, r) - pending && b != best.value ==>
                  Operations.Precedes(OpId(v[b].puts[r].counter, b), OpId(v[best.value].puts[r].counter, best.value))
    {
      var a :| a in pending;
      pending := pending - {a};
      if best.Some? {
        ghost var held := OpId(v[best.value].puts[r].counter, best.value);
        ghost var here := OpId(v[a].puts[r].counter, a);
        Operations.Total(held, here);
        forall b | b in Visible(v, r) && Operations.Precedes(OpId(v[b].puts[r].counter, b), held) && Operations.Precedes(held, here)
          ensures Operations.Precedes(OpId(v[b].puts[r].counter, b), here)
        {
          Operations.Transitive(OpId(v[b].puts[r].counter, b), held, here);
        }
      }
      if best.None? || Operations.Precedes(OpId(v[best.value].puts[r].counter, best.value), OpId(v[a].puts[r].counter, a)) {
        best := Some(a);
      }
    }
    if best.None? {
      return None;
    }
    BestSoFar(v, r, best.value);
    selected := Some(v[best.value].puts[r].scalar);
  }

  // ----- what a patch writes

  function ConfirmedName(update: FieldUpdate<string>, original: string, restoring: bool): Option<string>
  {
    if update.Set? && (restoring || update.value != original) then Some(update.value) else None
  }

  function ConfirmedOptional(update: FieldUpdate<string>, original: Option<string>, restoring: bool): Option<Option<string>>
  {
    match update
    case Keep => None
    case Set(text) => if restoring || original != Some(text) then Some(Some(text)) else None
    case Clear => if restoring || original.Some? then Some(None) else None
  }

  function ConfirmedIcon(update: FieldUpdate<IconRef>, original: IconRef, restoring: bool): Option<IconRef>
  {
    match update
    case Keep => None
    case Set(icon) => if restoring || icon != original then Some(icon) else None
    case Clear => if restoring || original != DefaultIcon then Some(DefaultIcon) else None
  }

  function ConfirmedParent(update: FieldUpdate<GroupId>, original: Option<GroupId>): Option<Option<GroupId>>
  {
    match update
    case Keep => None
    case Set(parent) => if original != Some(parent) then Some(Some(parent)) else None
    case Clear => if original.Some? then Some(None) else None
  }

  /** The scalar a patch writes to one detail, given the details its author reviewed. */
  function DetailWrite(patch: Patch, seen: Details, restoring: bool, order: string, key: DetailKey): Option<Scalar>
  {
    match key
    case DetailName =>
      var name := ConfirmedName(patch.name, seen.name, restoring);
      if name.Some? then Some(Data(TextValue(name))) else None
    case DetailDescription =>
      var description := ConfirmedOptional(patch.description, seen.description, restoring);
      if description.Some? then Some(Data(TextValue(description.value))) else None
    case DetailIcon =>
      var icon := ConfirmedIcon(patch.icon, seen.icon, restoring);
      if icon.Some? then Some(Data(IconValue(icon.value))) else None
    case DetailPlacement =>
      var parent := ConfirmedParent(patch.parent, seen.parent);
      if parent.Some? then Some(Placement(parent.value, order)) else None
  }

  ghost predicate PatchAsks(wanted: map<Register, Scalar>, g: GroupId, patch: Patch, seen: Details, restoring: bool, order: string)
  {
    forall r :: Write(wanted, r) ==
                if r.Detail? && r.entry == g then DetailWrite(patch, seen, restoring, order, r.key) else None
  }

  lemma PatchAsksAt(wanted: map<Register, Scalar>, g: GroupId, patch: Patch, seen: Details, restoring: bool, order: string, key: DetailKey)
    requires PatchAsks(wanted, g, patch, seen, restoring, order)
    ensures Write(wanted, Detail(g, key)) == DetailWrite(patch, seen, restoring, order, key)
  {
  }

  lemma PatchFits(wanted: map<Register, Scalar>, g: GroupId, patch: Patch, seen: Details, restoring: bool, order: string)
    requires PatchAsks(wanted, g, patch, seen, restoring, order) && (patch.name.Set? ==> patch.name.value != "")
    ensures forall r :: r in wanted ==> r.Detail? && r.entry == g && Fits(r, wanted[r])
  {
    forall r | r in wanted ensures r.Detail? && r.entry == g && Fits(r, wanted[r]) {
      assert Write(wanted, r) == Some(wanted[r]);
    }
  }

  // ----- the meaning of a confirmed patch

  /** Reading the transaction's own view gives the reviewed details with the patch applied, and nothing else. */
  lemma PatchRoundTrip(p: Changes, a: Actor, c: Change, g: GroupId, patch: Patch, restoring: bool, order: string, wanted: map<Register, Scalar>)
    requires Causal(p) && a !in p && Recorded(p, c, wanted) && patch.name != Clear
    requires PatchAsks(wanted, g, patch, DetailsOf(p, g), restoring, order)
    ensures DetailsOf(p[a := c], g) == Patched(patch, DetailsOf(p, g))
  {
    forall key
      ensures Chosen(p[a := c], Detail(g, key)) ==
              OrElse(DetailWrite(patch, DetailsOf(p, g), restoring, order, key), Chosen(p, Detail(g, key)))
    {
      PatchAsksAt(wanted, g, patch, DetailsOf(p, g), restoring, order, key);
      CommitChooses(p, a, c, wanted, Detail(g, key));
    }
    PatchOutcome(patch, DetailsOf(p, g), restoring, order,
      Chosen(p, Detail(g, DetailName)), Chosen(p, Detail(g, DetailDescription)), Chosen(p, Detail(g, DetailIcon)), Chosen(p, Detail(g, DetailPlacement)));
  }

  lemma PatchOutcome(patch: Patch, seen: Details, restoring: bool, order: string,
                     name: Option<Scalar>, description: Option<Scalar>, icon: Option<Scalar>, placement: Option<Scalar>)
    requires patch.name != Clear && seen == Details(NameIn(name), TextIn(description), IconIn(icon), ParentIn(placement))
    ensures Patched(patch, seen) ==
            Details(NameIn(OrElse(DetailWrite(patch, seen, restoring, order, DetailName), name)),
                    TextIn(OrElse(DetailWrite(patch, seen, restoring, order, DetailDescription), description)),
                    IconIn(OrElse(DetailWrite(patch, seen, restoring, order, DetailIcon), icon)),
                    ParentIn(OrElse(DetailWrite(patch, seen, restoring, order, DetailPlacement), placement)))
  {
  }

  /** A field the patch leaves alone keeps every value and its selection, whatever arrived since the review. */
  lemma PatchKeepsTheRest(cs: Changes, a: Actor, c: Change, heads: set<Actor>, g: GroupId, patch: Patch, seen: Details,
                          restoring: bool, order: string, wanted: map<Register, Scalar>, r: Register)
    requires Valid(cs) && Committed(cs, a, c, heads, wanted) && PatchAsks(wanted, g, patch, seen, restoring, order)
    requires !(r.Detail? && r.entry == g && DetailWrite(patch, seen, restoring, order, r.key).Some?)
    ensures Visible(cs[a := c], r) == Visible(cs, r) && Chosen(cs[a := c], r) == Chosen(cs, r)
  {
    assert Write(wanted, r) == None;
    CommitConsumesWhatItSaw(cs, a, c, heads, wanted, r);
    SameVisibleSameChosen(cs[a := c], cs, r);
  }

  /** A field it writes keeps exactly the values its author had not seen, beside the new one. */
  lemma PatchKeepsUnseen(cs: Changes, a: Actor, c: Change, heads: set<Actor>, g: GroupId, patch: Patch, seen: Details,
                         restoring: bool, order: string, wanted: map<Register, Scalar>, key: DetailKey)
    requires Valid(cs) && Committed(cs, a, c, heads, wanted) && PatchAsks(wanted, g, patch, seen, restoring, order)
    requires DetailWrite(patch, seen, restoring, order, key).Some?
    ensures var r, s := Detail(g, key), DetailWrite(patch, seen, restoring, order, key).value;
            Visible(cs[a := c], r) ==
            if Elided(At(cs, heads), r, s) then Visible(cs, r) else Visible(cs, r) - Visible(At(cs, heads), r) + {a}
  {
    PatchAsksAt(wanted, g, patch, seen, restoring, order, key);
    CommitConsumesWhatItSaw(cs, a, c, heads, wanted, Detail(g, key));
  }

  // ----- confirming

  /** What the lifecycle and the sibling order say about one patch. */
  datatype Review = Review(listed: bool, sameLifetime: bool, destination: Result<string, Error>)

  /** The order that the destination allocates; without a destination nothing is placed. */
  function OrderIn(review: Review): string
  {
    if review.destination.Ok? then review.destination.value else ""
  }

  function CheckName(update: FieldUpdate<string>): Result<(), Error>
  {
    if update == Clear || update == Set("") then Err(Validation) else Ok(())
  }

  method ReadDetails(v: Changes, g: GroupId) returns (details: Details)
    ensures details == DetailsOf(v, g)
  {
    var name := ReadDetail(v, Detail(g, DetailName));
    var description := ReadDetail(v, Detail(g, DetailDescription));
    var icon := ReadDetail(v, Detail(g, DetailIcon));
    var placement := ReadDetail(v, Detail(g, DetailPlacement));
    details := Details(NameIn(name), TextIn(description), IconIn(icon), ParentIn(placement));
  }

  /** Put one detail if the patch writes it. */
  method PutDetail(tx: Transaction, g: GroupId, key: DetailKey, write: Option<Scalar>)
    requires tx.Valid() && Detail(g, key) !in tx.wanted
    modifies tx
    ensures tx.Valid() && tx.wanted == With(old(tx.wanted), Detail(g, key), write)
  {
    if write.Some? {
      tx.Put(Detail(g, key), write.value);
    }
  }

  /** The details that a patch may write. */
  predicate Touches(patch: Patch, g: GroupId, r: Register)
  {
    && r.Detail? && r.entry == g
    && match r.key {
         case DetailName => patch.name.Set?
         case DetailDescription => !patch.description.Keep?
         case DetailIcon => !patch.icon.Keep?
         case DetailPlacement => !patch.parent.Keep?
       }
  }

  /** The icon is stored, or nothing is and the icon is the default. */
  predicate IsIcon(s: Option<Scalar>, icon: IconRef)
  {
    s == Some(Data(IconValue(icon))) || (s == None && icon == DefaultIcon)
  }

  /** What stands for each detail before and after a patch; a new parent comes with the given order. */
  ghost predicate ShowsPatch(before: DetailKey -> Option<Scalar>, after: DetailKey -> Option<Scalar>, patch: Patch, order: string)
  {
    && (match patch.name
        case Set(name) => after(DetailName) == Some(Data(TextValue(Some(name))))
        case _ => after(DetailName) == before(DetailName))
    && (match patch.description
        case Set(text) => after(DetailDescription) == Some(Data(TextValue(Some(text))))
        case Clear => after(DetailDescription) in {None, Some(Data(TextValue(None)))}
        case Keep => after(DetailDescription) == before(DetailDescription))
    && (match patch.icon
        case Set(icon) => IsIcon(after(DetailIcon), icon)
        case Clear => IsIcon(after(DetailIcon), DefaultIcon)
        case Keep => after(DetailIcon) == before(DetailIcon))
    && ShowsParent(before(DetailPlacement), after(DetailPlacement), patch.parent, order)
  }

  ghost function ChosenDetails(v: Changes, g: GroupId): DetailKey -> Option<Scalar>
  {
    key => Chosen(v, Detail(g, key))
  }

  /** A placement is replaced only if it names another parent. */
  predicate ShowsParent(before: Option<Scalar>, after: Option<Scalar>, update: FieldUpdate<GroupId>, order: string)
  {
    var target := match update { case Keep => None case Set(parent) => Some(Some(parent)) case Clear => Some(None) };
    if target.Some? && target.value != ParentIn(before) then after == Some(Placement(target.value, order)) else after == before
  }

  lemma DetailAfter(p: Changes, a: Actor, c: Change, g: GroupId, patch: Patch, seen: Details, restoring: bool, order: string,
                    wanted: map<Register, Scalar>, key: DetailKey)
    requires Valid(p) && a !in p && Recorded(p, c, wanted) && PatchAsks(wanted, g, patch, seen, restoring, order)
    ensures ChosenDetails(p[a := c], g)(key) == OrElse(DetailWrite(patch, seen, restoring, order, key), ChosenDetails(p, g)(key))
    ensures ChosenDetails(p, g)(key).Some? ==> Fits(Detail("", key), ChosenDetails(p, g)(key).value)
  {
    PatchAsksAt(wanted, g, patch, seen, restoring, order, key);
    CommitChooses(p, a, c, wanted, Detail(g, key));
    ChosenFits(p, Detail(g, key));
  }

  lemma PatchTouches(p: Changes, c: Change, g: GroupId, patch: Patch, seen: Details, restoring: bool, order: string, wanted: map<Register, Scalar>)
    requires Recorded(p, c, wanted) && PatchAsks(wanted, g, patch, seen, restoring, order)
    ensures forall r :: r in c.puts ==> Touches(patch, g, r)
  {
    forall r | r in c.puts ensures Touches(patch, g, r) {
      assert Write(wanted, r) == Some(wanted[r]);
    }
  }

  lemma PatchShows(p: Changes, a: Actor, c: Change, g: GroupId, patch: Patch, seen: Details, restoring: bool, order: string, wanted: map<Register, Scalar>)
    requires Valid(p) && a !in p && Recorded(p, c, wanted) && patch.name != Clear && Chosen(p, Detail(g, DetailName)).Some?
    requires seen == DetailsOf(p, g) && PatchAsks(wanted, g, patch, seen, restoring, order)
    ensures ShowsPatch(ChosenDetails(p, g), ChosenDetails(p[a := c], g), patch, order)
  {
    var before, after := ChosenDetails(p, g), ChosenDetails(p[a := c], g);
    forall key
      ensures after(key) == OrElse(DetailWrite(patch, seen, restoring, order, key), before(key))
      ensures before(key).Some? ==> Fits(Detail("", key), before(key).value)
    {
      DetailAfter(p, a, c, g, patch, seen, restoring, order, wanted, key);
    }
    WritesShow(patch, seen, restoring, order, before, after);
  }

  lemma WritesShow(patch: Patch, seen: Details, restoring: bool, order: string, before: DetailKey -> Option<Scalar>, after: DetailKey -> Option<Scalar>)
    requires patch.name != Clear && before(DetailName).Some?
    requires seen == Details(NameIn(before(DetailName)), TextIn(before(DetailDescription)), IconIn(before(DetailIcon)), ParentIn(before(DetailPlacement)))
    requires forall key :: after(key) == OrElse(DetailWrite(patch, seen, restoring, order, key), before(key))
    requires forall key :: before(key).Some? ==> Fits(Detail("", key), before(key).value)
    ensures ShowsPatch(before, after, patch, order)
  {
    assert after(DetailName) == OrElse(DetailWrite(patch, seen, restoring, order, DetailName), before(DetailName));
    assert after(DetailDescription) == OrElse(DetailWrite(patch, seen, restoring, order, DetailDescription), before(DetailDescription));
    assert after(DetailIcon) == OrElse(DetailWrite(patch, seen, restoring, order, DetailIcon), before(DetailIcon));
    assert after(DetailPlacement) == OrElse(DetailWrite(patch, seen, restoring, order, DetailPlacement), before(DetailPlacement));
  }

  /** Where the change writes it replaces what the author reviewed, and nothing that arrived since. */
  ghost predicate ReplacesReviewed(cs: Changes, a: Actor, c: Change, heads: set<Actor>)
  {
    forall r :: Visible(cs[a := c], r) == if r in c.puts then Visible(cs, r) - Visible(At(cs, heads), r) + {a} else Visible(cs, r)
  }

  /** `c` is the patch's own change at the reviewed heads, and its view shows the patched details. */
  ghost predicate PatchCommits(cs: Changes, a: Actor, c: Change, g: GroupId, patch: Patch, heads: set<Actor>, restoring: bool, order: string, wanted: map<Register, Scalar>)
    requires patch.name != Clear
  {
    && PatchAsks(wanted, g, patch, DetailsOf(At(cs, heads), g), restoring, order)
    && Committed(cs, a, c, heads, wanted) && c.row == None && c.purged == {}
    && DetailsOf(At(cs, heads)[a := c], g) == Patched(patch, DetailsOf(At(cs, heads), g))
  }

  lemma PatchIsSound(cs: Changes, a: Actor, c: Change, g: GroupId, patch: Patch, heads: set<Actor>, restoring: bool, order: string, wanted: map<Register, Scalar>)
    requires Sound(cs) && Committed(cs, a, c, heads, wanted) && c.row == None && c.purged == {}
    requires patch.name != Clear && (patch.name.Set? ==> patch.name.value != "")
    requires PatchAsks(wanted, g, patch, DetailsOf(At(cs, heads), g), restoring, order)
    ensures Sound(cs[a := c]) && PatchCommits(cs, a, c, g, patch, heads, restoring, order, wanted)
    ensures Runs.Patches(cs, a, c) && (Structured(cs) ==> Structured(cs[a := c]))
  {
    DownIsClosed(cs, heads);
    PatchFits(wanted, g, patch, DetailsOf(At(cs, heads), g), restoring, order);
    DetailsKeepValid(cs, a, c, heads, wanted);
    PatchRoundTrip(At(cs, heads), a, c, g, patch, restoring, order, wanted);
    assert Runs.OnlyDetails(wanted);
    Runs.PatchKeepsSound(cs, a, c);
  }

  method PutDetails(tx: Transaction, g: GroupId, patch: Patch, seen: Details, restoring: bool, order: string)
    requires tx.Valid() && tx.wanted == map[]
    modifies tx
    ensures tx.Valid() && PatchAsks(tx.wanted, g, patch, seen, restoring, order)
  {
    PutDetail(tx, g, DetailName, DetailWrite(patch, seen, restoring, order, DetailName));
    PutDetail(tx, g, DetailDescription, DetailWrite(patch, seen, restoring, order, DetailDescription));
    PutDetail(tx, g, DetailIcon, DetailWrite(patch, seen, restoring, order, DetailIcon));
    PutDetail(tx, g, DetailPlacement, DetailWrite(patch, seen, restoring, order, DetailPlacement));
    FourDetails(g, DetailWrite(patch, seen, restoring, order, DetailName), DetailWrite(patch, seen, restoring, order, DetailDescription),
      DetailWrite(patch, seen, restoring, order, DetailIcon), DetailWrite(patch, seen, restoring, order, DetailPlacement), tx.wanted);
  }

  /** The transaction of a patch. */
  method WriteDetails(cs: Changes, g: GroupId, patch: Patch, heads: set<Actor>, seen: Details, restoring: bool, order: string, a: Actor)
    returns (c: Change, ghost wanted: map<Register, Scalar>)
    requires Sound(cs) && a !in cs && heads <= cs.Keys && seen == DetailsOf(At(cs, heads), g)
    requires patch.name != Clear && (patch.name.Set? ==> patch.name.value != "")
    requires Chosen(At(cs, heads), Detail(g, DetailName)).Some?
    ensures Sound(cs[a := c]) && PatchCommits(cs, a, c, g, patch, heads, restoring, order, wanted)
    ensures PatchLeaves(cs, a, c, g, patch, heads, order)
    ensures Runs.Patches(cs, a, c) && (Structured(cs) ==> Structured(cs[a := c]))
  {
    var basis := At(cs, heads);
    var start := NextCounter(basis);
    var tx := new Transaction(basis, start);
    PutDetails(tx, g, patch, seen, restoring, order);
    wanted := tx.wanted;
    c := Change(heads, Down(cs, heads), tx.puts, None, {});
    CollectedIsRecorded(basis, tx.next, c, wanted);
    PatchIsSound(cs, a, c, g, patch, heads, restoring, order, wanted);
    PatchMeans(cs, a, c, g, patch, heads, restoring, order, wanted);
  }

  /** What the change of a patch leaves behind, in the details themselves. */
  ghost predicate PatchLeaves(cs: Changes, a: Actor, c: Change, g: GroupId, patch: Patch, heads: set<Actor>, order: string)
  {
    && c.deps == heads && c.past == Down(cs, heads) && c.row == None && c.purged == {}
    && (forall r :: r in c.puts ==> Touches(patch, g, r))
    && ShowsPatch(ChosenDetails(At(cs, heads), g), ChosenDetails(At(cs, heads)[a := c], g), patch, order)
    && ReplacesReviewed(cs, a, c, heads)
  }

  lemma PatchMeans(cs: Changes, a: Actor, c: Change, g: GroupId, patch: Patch, heads: set<Actor>, restoring: bool, order: string, wanted: map<Register, Scalar>)
    requires Valid(cs) && Committed(cs, a, c, heads, wanted) && c.row == None && c.purged == {} && patch.name != Clear
    requires PatchAsks(wanted, g, patch, DetailsOf(At(cs, heads), g), restoring, order) && Chosen(At(cs, heads), Detail(g, DetailName)).Some?
    ensures PatchLeaves(cs, a, c, g, patch, heads, order)
  {
    AtKeepsValid(cs, heads);
    PatchShows(At(cs, heads), a, c, g, patch, DetailsOf(At(cs, heads), g), restoring, order, wanted);
    PatchTouches(At(cs, heads), c, g, patch, DetailsOf(At(cs, heads), g), restoring, order, wanted);
    forall r ensures Visible(cs[a := c], r) == if r in c.puts then Visible(cs, r) - Visible(At(cs, heads), r) + {a} else Visible(cs, r) {
      CommitConsumesWhatItSaw(cs, a, c, heads, wanted, r);
    }
  }

  /** Whether the patch leaves every detail as it is. */
  predicate Idle(patch: Patch, seen: Details, restoring: bool)
  {
    && ConfirmedName(patch.name, seen.name, restoring).None?
    && ConfirmedOptional(patch.description, seen.description, restoring).None?
    && ConfirmedIcon(patch.icon, seen.icon, restoring).None?
    && ConfirmedParent(patch.parent, seen.parent).None?
  }

  /** An idle patch is exactly one that means no change, unless it restores. */
  lemma IdleMeansNothing(patch: Patch, seen: Details)
    requires patch.name != Clear
    ensures Idle(patch, seen, false) <==> Patched(patch, seen) == seen
    ensures Idle(patch, seen, true) ==> Patched(patch, seen) == seen
  {
  }

  lemma IdleExactly(patch: Patch, seen: Details, restoring: bool)
    requires patch.name != Clear
    ensures Idle(patch, seen, restoring) <==> NothingNew(patch, seen, restoring)
    ensures ConfirmedParent(patch.parent, seen.parent).Some? <==> Reparents(patch, seen.parent)
  {
  }

  /** What `confirm_group_metadata` refuses, in its order. */
  ghost function Refused(cs: Changes, g: GroupId, patch: Patch, heads: set<Actor>, review: Review): Option<Error>
  {
    if CheckName(patch.name).Err? then Some(Validation)
    else if !review.listed then Some(NotFound)
    else if heads == {} || !(heads <= cs.Keys) then Some(InvalidContext)
    else if Chosen(At(cs, heads), Detail(g, DetailName)).None? then Some(NotFound)
    else if !review.sameLifetime then Some(InvalidContext)
    else if review.destination.Err? && ConfirmedParent(patch.parent, DetailsOf(At(cs, heads), g).parent).Some?
    then Some(review.destination.error) else None
  }

  /** The patch names another parent than the reviewed one. */
  predicate Reparents(patch: Patch, parent: Option<GroupId>)
  {
    (patch.parent.Set? && parent != Some(patch.parent.value)) || (patch.parent.Clear? && parent.Some?)
  }

  /** Nothing to confirm: no detail would become another one, and a restoration names none besides the parent. */
  predicate NothingNew(patch: Patch, seen: Details, restoring: bool)
    requires patch.name != Clear
  {
    Patched(patch, seen) == seen && (restoring ==> patch.name.Keep? && patch.description.Keep? && patch.icon.Keep?)
  }

  /**
   `confirm_group_metadata`: at most one change, at the reviewed heads. The change is a step of a
   run, and the validation of the whole document after it always succeeds.
   */
  method ConfirmGroup(cs: Changes, g: GroupId, patch: Patch, heads: set<Actor>, restoring: bool, receipted: bool, review: Review, a: Actor)
    returns (result: Result<Option<Change>, Error>, ghost wanted: map<Register, Scalar>)
    requires Sound(cs) && a !in cs
    ensures result.Err? <==> Refused(cs, g, patch, heads, review).Some?
    ensures result.Err? ==> Some(result.error) == Refused(cs, g, patch, heads, review)
    ensures result.Ok? ==> (result.value.None? <==> !receipted && Idle(patch, DetailsOf(At(cs, heads), g), restoring))
    ensures var p := At(cs, heads);
            if patch.name == Clear || patch.name == Set("") then result == Err(Validation)
            else if !review.listed then result == Err(NotFound)
            else if heads == {} || !(heads <= cs.Keys) then result == Err(InvalidContext)
            else if !Written(p, Detail(g, DetailName)) then result == Err(NotFound)
            else if !review.sameLifetime then result == Err(InvalidContext)
            else if Reparents(patch, DetailsOf(p, g).parent) && review.destination.Err? then result == Err(review.destination.error)
            else result.Ok? && (result.value.None? <==> !receipted && NothingNew(patch, DetailsOf(p, g), restoring))
    ensures result.Ok? && result.value.Some? ==>
              && Sound(cs[a := result.value.value])
              && PatchCommits(cs, a, result.value.value, g, patch, heads, restoring, OrderIn(review), wanted)
              && PatchLeaves(cs, a, result.value.value, g, patch, heads, match review.destination { case Ok(order) => order case Err(_) => "" })
              && Runs.Patches(cs, a, result.value.value) && (Structured(cs) ==> Structured(cs[a := result.value.value]))
  {
    wanted := map[];
    if CheckName(patch.name).Err? {
      return Err(Validation), wanted;
    }
    if !review.listed {
      return Err(NotFound), wanted;
    }
    if heads == {} || !(heads <= cs.Keys) {
      return Err(InvalidContext), wanted;
    }
    AtKeepsValid(cs, heads);
    ChosenFits(At(cs, heads), Detail(g, DetailName));
    IdleExactly(patch, DetailsOf(At(cs, heads), g), restoring);
    var known := ReadDetail(At(cs, heads), Detail(g, DetailName));
    if known.None? {
      return Err(NotFound), wanted;
    }
    if !review.sameLifetime {
      return Err(InvalidContext), wanted;
    }
    var seen := ReadDetails(At(cs, heads), g);
    if ConfirmedParent(patch.parent, seen.parent).Some? && review.destination.Err? {
      return Err(review.destination.error), wanted;
    }
    if Idle(patch, seen, restoring) && !receipted {
      return Ok(None), wanted;
    }
    var c;
    c, wanted := WriteDetails(cs, g, patch, heads, seen, restoring, OrderIn(review), a);
    result := Ok(Some(c));
  }

  lemma FourDetails(g: GroupId, name: Option<Scalar>, description: Option<Scalar>, icon: Option<Scalar>, placement: Option<Scalar>,
                    wanted: map<Register, Scalar>)
    requires wanted == With(With(With(With(map[], Detail(g, DetailName), name), Detail(g, DetailDescription), description),
                                 Detail(g, DetailIcon), icon), Detail(g, DetailPlacement), placement)
    ensures forall r :: Write(wanted, r) ==
                        if r.Detail? && r.entry == g
                        then match r.key { case DetailName => name case DetailDescription => description case DetailIcon => icon case DetailPlacement => placement }
                        else None
  {
  }
}
