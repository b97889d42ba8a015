/**
 Field states and the selected value, from taypeer-document/src/fields.rs. Visible operations
 are grouped by value with their origins sorted as texts; the selected value is the one
 whose operation ranks highest, protection and deletion first.
 */
module Selection {
  import Text
  import opened Wrappers
  import opened Operations
  import opened Entries
  import opened Sorting

  datatype ValueVariant = ValueVariant(value: FieldValue, origins: seq<string>)
  datatype FieldState = FieldState(field: EntryField, variants: seq<ValueVariant>)

  /** One visible operation with its decoded value. */
  datatype Source = Source(value: FieldValue, operation: OpId)

  /** Protection of an attribute and deletion of an attribute or attachment take priority. */
  predicate Favoured(f: EntryField, value: FieldValue)
  {
    match f
    case AttributeData(_) => value.DataValue? && value.data.concealed
    case AttributePresence(_) => value.PresenceValue? && !value.present
    case AttachmentPresence(_) => value.PresenceValue? && !value.present
    case _ => false
  }

  /** `b` is preferred to `a`. */
  predicate Outranked(f: EntryField, a: Source, b: Source)
  {
    (!Favoured(f, a.value) && Favoured(f, b.value))
    || (Favoured(f, a.value) == Favoured(f, b.value) && Operations.Precedes(a.operation, b.operation))
  }

  /** A protected value of an attribute, or a presence that deletes: the values that take priority. */
  ghost predicate TakesPriority(f: EntryField, value: FieldValue)
  {
    (f.AttributeData? && exists text :: value == DataValue(AttributeValue(text, true)))
    || ((f.AttributePresence? || f.AttachmentPresence?) && value == PresenceValue(false))
  }

  /** The operation of `b` has the greater counter, or at equal counters the greater actor text. */
  ghost predicate Later(a: OpId, b: OpId)
  {
    a.counter < b.counter || (a.counter == b.counter && Text.Earlier(a.actor, b.actor))
  }

  /** Priority first, then the numbers and characters of the operations. */
  lemma OutrankedMeans(f: EntryField, a: Source, b: Source)
    ensures Outranked(f, a, b) <==>
            if TakesPriority(f, a.value) == TakesPriority(f, b.value) then Later(a.operation, b.operation) else TakesPriority(f, b.value)
  {
    Operations.PrecedesMeans(a.operation, b.operation);
    assert forall value :: Favoured(f, value) <==> TakesPriority(f, value) by {
      forall value ensures Favoured(f, value) <==> TakesPriority(f, value) {
        if Favoured(f, value) && f.AttributeData? {
          assert value == DataValue(AttributeValue(value.data.text, true));
        }
      }
    }
  }

  lemma OutrankedTransitive(f: EntryField, a: Source, b: Source, c: Source)
    requires Outranked(f, a, b) && Outranked(f, b, c)
    ensures Outranked(f, a, c)
  {
    if Operations.Precedes(a.operation, b.operation) && Operations.Precedes(b.operation, c.operation) {
      Operations.Transitive(a.operation, b.operation, c.operation);
    }
  }

  lemma OutrankedTotal(f: EntryField, a: Source, b: Source)
    requires a.operation != b.operation
    ensures Outranked(f, a, b) != Outranked(f, b, a)
  {
    Operations.Total(a.operation, b.operation);
    if Operations.Precedes(a.operation, b.operation) && Operations.Precedes(b.operation, a.operation) {
      Operations.Transitive(a.operation, b.operation, a.operation);
      Operations.Irreflexive(a.operation);
    }
  }

  /** The plain argmax over raw visible operations. */
  ghost predicate Champion(f: EntryField, sources: set<Source>, s: Source)
  {
    s in sources && forall t :: t in sources ==> t == s || Outranked(f, t, s)
  }

  function SetOf(listed: seq<Source>): set<Source>
  {
    set s | s in listed
  }

  /** An operation has one value. */
  ghost predicate Distinct(sources: set<Source>)
  {
    forall s, t :: s in sources && t in sources && s.operation == t.operation ==> s == t
  }

  lemma {:induction false} ChampionExists(f: EntryField, sources: set<Source>) returns (s: Source)
    requires sources != {} && Distinct(sources)
    ensures Champion(f, sources, s)
  {
    s :| s in sources;
    if sources != {s} {
      var t := ChampionExists(f, sources - {s});
      OutrankedTotal(f, s, t);
      if Outranked(f, t, s) {
        forall u | u in sources ensures u == s || Outranked(f, u, s) {
          if u != s && u != t {
            OutrankedTransitive(f, u, t, s);
          }
        }
      } else {
        s := t;
      }
    }
  }

  lemma ChampionUnique(f: EntryField, sources: set<Source>, s: Source, t: Source)
    requires Distinct(sources) && Champion(f, sources, s) && Champion(f, sources, t)
    ensures s == t
  {
    if s != t {
      OutrankedTotal(f, s, t);
    }
  }

  // ----- the canonical field state

  predicate OriginsLess(a: seq<string>, b: seq<string>)
  {
    b != [] && (a == [] || Text.Less(a[0], b[0]) || (a[0] == b[0] && OriginsLess(a[1..], b[1..])))
  }

  predicate VariantLess(a: ValueVariant, b: ValueVariant)
  {
    OriginsLess(a.origins, b.origins)
  }

  lemma TextStrict()
    ensures Strict(Text.Less)
  {
    forall x, y, z | Text.Less(x, y) && Text.Less(y, z) ensures Text.Less(x, z) {
      Text.Transitive(x, y, z);
    }
    forall x, y | Text.Less(x, y) ensures !Text.Less(y, x) {
      Asymmetric(x, y);
    }
  }

  lemma Asymmetric(x: string, y: string)
    requires Text.Less(x, y)
    ensures !Text.Less(y, x)
  {
    if Text.Less(y, x) {
      Text.Transitive(x, y, x);
      Text.Irreflexive(x);
    }
  }

  lemma {:induction false} OriginsTransitive(a: seq<string>, b: seq<string>, c: seq<string>)
    requires OriginsLess(a, b) && OriginsLess(b, c)
    ensures OriginsLess(a, c)
  {
    if a != [] {
      Text.Irreflexive(b[0]);
      if a[0] == b[0] == c[0] {
        OriginsTransitive(a[1..], b[1..], c[1..]);
      } else if Text.Less(a[0], b[0]) && Text.Less(b[0], c[0]) {
        Text.Transitive(a[0], b[0], c[0]);
      }
    }
  }

  lemma {:induction false} OriginsIrreflexive(a: seq<string>)
    ensures !OriginsLess(a, a)
  {
    if a != [] {
      Text.Irreflexive(a[0]);
      OriginsIrreflexive(a[1..]);
    }
  }

  lemma VariantStrict()
    ensures Strict(VariantLess)
  {
    forall x, y, z | VariantLess(x, y) && VariantLess(y, z) ensures VariantLess(x, z) {
      OriginsTransitive(x.origins, y.origins, z.origins);
    }
    forall x, y | VariantLess(x, y) ensures !VariantLess(y, x) {
      if VariantLess(y, x) {
        OriginsTransitive(x.origins, y.origins, x.origins);
        OriginsIrreflexive(x.origins);
      }
    }
  }

  /** The origins of one value. */
  ghost function OriginsOf(sources: set<Source>, value: FieldValue): set<string>
  {
    set s | s in sources && s.value == value :: Render(s.operation)
  }

  /** A list of variants says exactly what the operations say, whatever its order. */
  ghost predicate Groups(variants: seq<ValueVariant>, sources: set<Source>)
  {
    && (forall i, j :: 0 <= i < j < |variants| ==> variants[i].value != variants[j].value)
    && (forall i :: 0 <= i < |variants| ==>
          variants[i].origins != [] && forall o :: o in variants[i].origins <==> o in OriginsOf(sources, variants[i].value))
    && (forall s :: s in sources ==> exists i :: 0 <= i < |variants| && variants[i].value == s.value)
  }

  /** The list `read_field` returns: grouped, and sorted inside and outside. */
  ghost predicate Canonical(variants: seq<ValueVariant>, sources: set<Source>)
  {
    && Groups(variants, sources)
    && (forall i :: 0 <= i < |variants| ==> StrictlySorted(Text.Less, variants[i].origins))
    && StrictlySorted(VariantLess, variants)
  }

  /** The order of a list in plain terms: origins by their characters, variants by their first origins. */
  ghost predicate InTextOrder(variants: seq<ValueVariant>)
  {
    && (forall i, k, l :: 0 <= i < |variants| && 0 <= k < l < |variants[i].origins| ==> Text.Earlier(variants[i].origins[k], variants[i].origins[l]))
    && (forall i, j :: 0 <= i < j < |variants| ==>
          variants[i].origins != [] && variants[j].origins != [] && Text.Earlier(variants[i].origins[0], variants[j].origins[0]))
  }

  /** Origins name operations, so no two variants share one. */
  lemma OriginsDiffer(variants: seq<ValueVariant>, sources: set<Source>, i: nat, j: nat)
    requires Distinct(sources) && Groups(variants, sources) && i < j < |variants|
    ensures variants[i].origins[0] != variants[j].origins[0]
  {
    if variants[i].origins[0] == variants[j].origins[0] {
      var o := variants[i].origins[0];
      assert o in variants[i].origins && o in variants[j].origins;
      var s :| s in sources && s.value == variants[i].value && Render(s.operation) == o;
      var t :| t in sources && t.value == variants[j].value && Render(t.operation) == o;
      RankOfRender(s.operation);
      RankOfRender(t.operation);
    }
  }

  lemma CanonicalInTextOrder(variants: seq<ValueVariant>, sources: set<Source>)
    requires Distinct(sources) && Canonical(variants, sources)
    ensures InTextOrder(variants)
  {
    forall i, k, l | 0 <= i < |variants| && 0 <= k < l < |variants[i].origins|
      ensures Text.Earlier(variants[i].origins[k], variants[i].origins[l])
    {
      Text.LessMeans(variants[i].origins[k], variants[i].origins[l]);
    }
    forall i, j | 0 <= i < j < |variants|
      ensures variants[i].origins != [] && variants[j].origins != [] && Text.Earlier(variants[i].origins[0], variants[j].origins[0])
    {
      assert VariantLess(variants[i], variants[j]);
      OriginsDiffer(variants, sources, i, j);
      Text.LessMeans(variants[i].origins[0], variants[j].origins[0]);
    }
  }

  /** Replicas that hold the same operations list the same state, however they enumerate them. */
  lemma StatesConverge(a: seq<ValueVariant>, b: seq<ValueVariant>, sources: set<Source>)
    requires Canonical(a, sources) && Canonical(b, sources)
    ensures a == b
  {
    VariantStrict();
    forall v ensures v in a <==> v in b {
      if v in a {
        SameVariant(a, b, sources, v);
      }
      if v in b {
        SameVariant(b, a, sources, v);
      }
    }
    SortedUnique(VariantLess, a, b);
  }

  lemma SameVariant(a: seq<ValueVariant>, b: seq<ValueVariant>, sources: set<Source>, v: ValueVariant)
    requires Canonical(a, sources) && Canonical(b, sources) && v in a
    ensures v in b
  {
    var i :| 0 <= i < |a| && a[i] == v;
    assert v.origins[0] in v.origins;
    var s :| s in sources && s.value == v.value;
    var j :| 0 <= j < |b| && b[j].value == v.value;
    TextStrict();
    SortedUnique(Text.Less, v.origins, b[j].origins);
  }

  // ----- reading

  /** The loop of `read_field` over one enumeration of the visible operations. */
  method ReadField(field: EntryField, listed: seq<Source>) returns (result: Result<FieldState, Error>)
    requires Distinct(SetOf(listed)) && forall i, j :: 0 <= i < j < |listed| ==> listed[i] != listed[j]
    ensures result.Err? <==> listed == []
    ensures result.Ok? ==>
              result.value.field == field && result.value.variants != [] && Canonical(result.value.variants, SetOf(listed))
              && InTextOrder(result.value.variants)
  {
    var variants: seq<ValueVariant> := [];
    var k := 0;
    while k < |listed|
      invariant 0 <= k <= |listed|
      invariant Collected(variants, listed[..k])
      invariant variants == [] <==> k == 0
    {
      var source := listed[k];
      var i := 0;
      while i < |variants| && variants[i].value != source.value
        invariant 0 <= i <= |variants|
        invariant forall j :: 0 <= j < i ==> variants[j].value != source.value
      {
        i := i + 1;
      }
      ghost var before := variants;
      if i < |variants| {
        variants := variants[i := ValueVariant(source.value, variants[i].origins + [Render(source.operation)])];
      } else {
        variants := variants + [ValueVariant(source.value, [Render(source.operation)])];
      }
      CollectOne(before, variants, listed, k, i);
      k := k + 1;
    }
    assert listed[..k] == listed;
    if variants == [] {
      return Err(InvalidDocument);
    }
    ghost var grouped := variants;
    var i := 0;
    while i < |variants|
      invariant 0 <= i <= |variants| == |grouped|
      invariant forall j :: 0 <= j < |variants| ==> variants[j].value == grouped[j].value
      invariant forall j :: 0 <= j < i ==> variants[j].origins == Sort(Text.Less, grouped[j].origins)
      invariant forall j :: i <= j < |variants| ==> variants[j] == grouped[j]
    {
      variants := variants[i := ValueVariant(variants[i].value, Sort(Text.Less, variants[i].origins))];
      i := i + 1;
    }
    SortedOrigins(grouped, variants, listed);
    SortedVariants(variants, SetOf(listed));
    assert listed[0] in SetOf(listed);
    result := Ok(FieldState(field, Sort(VariantLess, variants)));
    CanonicalInTextOrder(result.value.variants, SetOf(listed));
  }

  /** The groups built from a list of distinct operations; origins are not repeated. */
  ghost predicate Collected(variants: seq<ValueVariant>, listed: seq<Source>)
  {
    && Groups(variants, SetOf(listed))
    && forall i :: 0 <= i < |variants| ==> Repeatless(variants[i].origins)
  }

  ghost predicate Repeatless(s: seq<string>)
  {
    forall i, j :: 0 <= i < j < |s| ==> s[i] != s[j]
  }

  lemma AddSource(sources: set<Source>, s: Source, value: FieldValue)
    requires s !in sources && Distinct(sources + {s})
    ensures OriginsOf(sources + {s}, value) == OriginsOf(sources, value) + if value == s.value then {Render(s.operation)} else {}
    ensures Render(s.operation) !in OriginsOf(sources, value)
  {
    RankOfRender(s.operation);
    if t :| t in sources && t.value == value && Render(t.operation) == Render(s.operation) {
      RankOfRender(t.operation);
    }
  }

  lemma CollectOne(before: seq<ValueVariant>, after: seq<ValueVariant>, listed: seq<Source>, k: nat, i: nat)
    requires k < |listed| && i <= |before| && Collected(before, listed[..k])
    requires Distinct(SetOf(listed)) && forall i, j :: 0 <= i < j < |listed| ==> listed[i] != listed[j]
    requires forall j :: 0 <= j < i ==> before[j].value != listed[k].value
    requires i < |before| ==> before[i].value == listed[k].value
    requires after == if i < |before|
                      then before[i := ValueVariant(listed[k].value, before[i].origins + [Render(listed[k].operation)])]
                      else before + [ValueVariant(listed[k].value, [Render(listed[k].operation)])]
    ensures Collected(after, listed[..k + 1])
  {
    var source := listed[k];
    var known, all := SetOf(listed[..k]), SetOf(listed[..k + 1]);
    assert listed[..k + 1] == listed[..k] + [source];
    assert all == known + {source} && source !in known;
    forall j | 0 <= j < |after|
      ensures after[j].origins != [] && Repeatless(after[j].origins)
      ensures forall o :: o in after[j].origins <==> o in OriginsOf(all, after[j].value)
    {
      AddSource(known, source, after[j].value);
      if j == i == |before| {
        forall t | t in known ensures t.value != source.value {
          var m :| 0 <= m < |before| && before[m].value == t.value;
        }
        assert OriginsOf(known, source.value) == {};
      }
    }
    forall s | s in all ensures exists j :: 0 <= j < |after| && after[j].value == s.value {
      if s in known {
        var j :| 0 <= j < |before| && before[j].value == s.value;
        assert after[j].value == s.value;
      } else {
        assert after[i].value == s.value;
      }
    }
  }

  lemma TextsOrder(s: seq<string>)
    ensures Orders(Text.Less, s)
  {
    TextStrict();
    forall x, y | x in s && y in s ensures x == y || Text.Less(x, y) || Text.Less(y, x) {
      Text.Total(x, y);
    }
  }

  lemma SortedOrigins(grouped: seq<ValueVariant>, sorted: seq<ValueVariant>, listed: seq<Source>)
    requires Collected(grouped, listed) && |sorted| == |grouped|
    requires forall j :: 0 <= j < |sorted| ==>
               sorted[j].value == grouped[j].value && sorted[j].origins == Sort(Text.Less, grouped[j].origins)
    ensures Groups(sorted, SetOf(listed))
    ensures forall j :: 0 <= j < |sorted| ==> StrictlySorted(Text.Less, sorted[j].origins)
  {
    forall j | 0 <= j < |sorted|
      ensures StrictlySorted(Text.Less, sorted[j].origins) && sorted[j].origins != []
      ensures forall o :: o in sorted[j].origins <==> o in grouped[j].origins
    {
      TextsOrder(grouped[j].origins);
      SortSorts(Text.Less, grouped[j].origins);
      assert grouped[j].origins[0] in grouped[j].origins;
    }
  }

  lemma {:induction false} OriginsTotal(a: seq<string>, b: seq<string>)
    ensures OriginsLess(a, b) || a == b || OriginsLess(b, a)
  {
    if a != [] && b != [] {
      Text.Total(a[0], b[0]);
      if a[0] == b[0] {
        OriginsTotal(a[1..], b[1..]);
        assert a == [a[0]] + a[1..] && b == [b[0]] + b[1..];
      }
    }
  }

  /** An origin names one operation, so variants with the same origins are the same. */
  lemma OriginsIdentify(sources: set<Source>, o: string, v: FieldValue, w: FieldValue)
    requires Distinct(sources) && o in OriginsOf(sources, v) && o in OriginsOf(sources, w)
    ensures v == w
  {
    var s :| s in sources && s.value == v && Render(s.operation) == o;
    var t :| t in sources && t.value == w && Render(t.operation) == o;
    RankOfRender(s.operation);
    RankOfRender(t.operation);
  }

  lemma VariantsOrder(variants: seq<ValueVariant>, sources: set<Source>)
    requires Distinct(sources) && Groups(variants, sources)
    ensures Orders(VariantLess, variants)
  {
    VariantStrict();
    forall x, y | x in variants && y in variants ensures x == y || VariantLess(x, y) || VariantLess(y, x) {
      OriginsTotal(x.origins, y.origins);
      if x.origins == y.origins {
        assert x.origins[0] in x.origins && y.origins[0] in y.origins;
        OriginsIdentify(sources, x.origins[0], x.value, y.value);
      }
    }
  }

  lemma SortedVariants(variants: seq<ValueVariant>, sources: set<Source>)
    requires Distinct(sources) && Groups(variants, sources)
    requires forall j :: 0 <= j < |variants| ==> StrictlySorted(Text.Less, variants[j].origins)
    ensures Canonical(Sort(VariantLess, variants), sources)
  {
    VariantsOrder(variants, sources);
    forall i, j | 0 <= i < j < |variants| ensures variants[i] != variants[j] {
      assert variants[i].value != variants[j].value;
    }
    SortSorts(VariantLess, variants);
    var sorted := Sort(VariantLess, variants);
    forall i, j | 0 <= i < j < |sorted| ensures sorted[i].value != sorted[j].value {
      assert VariantLess(sorted[i], sorted[j]) && sorted[i] in variants && sorted[j] in variants;
      OriginsIrreflexive(sorted[i].origins);
    }
    forall i | 0 <= i < |sorted|
      ensures sorted[i].origins != [] && StrictlySorted(Text.Less, sorted[i].origins)
      ensures forall o :: o in sorted[i].origins <==> o in OriginsOf(sources, sorted[i].value)
    {
      assert sorted[i] in variants;
    }
    forall s | s in sources ensures exists i :: 0 <= i < |sorted| && sorted[i].value == s.value {
      var j :| 0 <= j < |variants| && variants[j].value == s.value;
      assert variants[j] in sorted;
    }
  }

  // ----- selecting

  /** The preferred source among those of the first `n` variants. */
  ghost predicate Leads(f: EntryField, variants: seq<ValueVariant>, n: nat, sources: set<Source>, s: Source)
    requires n <= |variants|
  {
    && s in sources
    && forall t, j :: t in sources && 0 <= j < n && variants[j].value == t.value ==> t == s || Outranked(f, t, s)
  }

  /**
   What it is to be selected, on priorities, numbers and characters: every other visible operation
   lacks the priority, or is on the same side and earlier.
   */
  ghost predicate Wins(f: EntryField, sources: set<Source>, s: Source)
  {
    && s in sources
    && forall t :: t in sources && t != s ==>
         if TakesPriority(f, t.value) == TakesPriority(f, s.value) then Later(t.operation, s.operation) else TakesPriority(f, s.value)
  }

  lemma ChampionWins(f: EntryField, sources: set<Source>, s: Source)
    ensures Champion(f, sources, s) <==> Wins(f, sources, s)
  {
    forall t ensures Outranked(f, t, s) <==>
                     if TakesPriority(f, t.value) == TakesPriority(f, s.value) then Later(t.operation, s.operation) else TakesPriority(f, s.value) {
      OutrankedMeans(f, t, s);
    }
  }

  /** The highest rank among the origins of one variant. */
  method HighestRank(origins: seq<string>, ghost sources: set<Source>, ghost value: FieldValue) returns (rank: Option<OpId>, ghost source: Source)
    requires origins != [] && forall o :: o in origins <==> o in OriginsOf(sources, value)
    ensures rank == Some(source.operation) && source in sources && source.value == value
    ensures forall t :: t in sources && t.value == value ==> t.operation == source.operation || Operations.Precedes(t.operation, source.operation)
  {
    rank := None;
    assert origins[0] in origins;
    source :| source in sources && source.value == value;
    var i := 0;
    while i < |origins|
      invariant 0 <= i <= |origins|
      invariant i == 0 ==> rank == None
      invariant i > 0 ==> rank == Some(source.operation) && source in sources && source.value == value
      invariant forall t :: t in sources && t.value == value && Render(t.operation) in origins[..i] ==>
                  t.operation == source.operation || Operations.Precedes(t.operation, source.operation)
    {
      assert origins[i] in origins;
      ghost var s: Source :| s in sources && s.value == value && Render(s.operation) == origins[i];
      RankOfRender(s.operation);
      var next := Rank(origins[i]);
      assert origins[..i + 1] == origins[..i] + [origins[i]];
      ghost var held := source;
      if rank == None || Operations.Precedes(rank.value, next.value) {
        rank := next;
        source := s;
      }
      forall t | t in sources && t.value == value && Render(t.operation) in origins[..i + 1]
        ensures t.operation == source.operation || Operations.Precedes(t.operation, source.operation)
      {
        RankOfRender(t.operation);
        Operations.Total(s.operation, held.operation);
        if Render(t.operation) in origins[..i] && Operations.Precedes(t.operation, held.operation) && Operations.Precedes(held.operation, s.operation) {
          Operations.Transitive(t.operation, held.operation, s.operation);
        }
      }
      i := i + 1;
    }
    assert origins[..i] == origins;
  }

  /** The scan of `selected_variant` finds the variant of the champion. */
  method SelectedVariant(state: FieldState, ghost sources: set<Source>) returns (selected: Result<ValueVariant, Error>, ghost champion: Source)
    requires Distinct(sources) && Groups(state.variants, sources)
    ensures selected.Err? <==> state.variants == []
    ensures selected.Ok? ==>
              && selected.value in state.variants
              && Champion(state.field, sources, champion) && champion.value == selected.value.value
    ensures selected.Ok? ==> Wins(state.field, sources, champion)
  {
    var found: Option<(ValueVariant, bool, OpId)> := None;
    champion := Source(PresenceValue(false), OpId(0, ""));
    var i := 0;
    while i < |state.variants|
      invariant 0 <= i <= |state.variants|
      invariant found == None <==> i == 0
      invariant found.Some? ==>
                  && found.value.0 in state.variants[..i]
                  && champion.value == found.value.0.value
                  && found.value.1 == Favoured(state.field, champion.value)
                  && found.value.2 == champion.operation
                  && Leads(state.field, state.variants, i, sources, champion)
    {
      var variant := state.variants[i];
      ghost var source;
      var rank;
      rank, source := HighestRank(variant.origins, sources, variant.value);
      var priority := Favoured(state.field, variant.value);
      assert state.variants[..i + 1] == state.variants[..i] + [variant];
      LeadOne(state.field, state.variants, i, sources, champion, source);
      if found == None || (!found.value.1 && priority) || (found.value.1 == priority && Operations.Precedes(found.value.2, rank.value)) {
        found := Some((variant, priority, rank.value));
        champion := source;
      }
      i := i + 1;
    }
    if found == None {
      return Err(InvalidDocument), champion;
    }
    assert state.variants[..i] == state.variants;
    ChampionWins(state.field, sources, champion);
    selected := Ok(found.value.0);
  }

  lemma LeadOne(f: EntryField, variants: seq<ValueVariant>, i: nat, sources: set<Source>, held: Source, source: Source)
    requires Distinct(sources) && i < |variants| && Groups(variants, sources)
    requires source in sources && source.value == variants[i].value
    requires forall t :: t in sources && t.value == source.value ==> t.operation == source.operation || Operations.Precedes(t.operation, source.operation)
    requires i > 0 ==> Leads(f, variants, i, sources, held) && exists j :: 0 <= j < i && variants[j].value == held.value
    ensures i == 0 ==> Leads(f, variants, i + 1, sources, source)
    ensures i > 0 ==> Leads(f, variants, i + 1, sources, if Outranked(f, held, source) then source else held)
  {
    forall t | t in sources && t.value == source.value ensures t == source || Outranked(f, t, source) {
    }
    if i > 0 {
      assert held.operation != source.operation;
      OutrankedTotal(f, held, source);
      var best := if Outranked(f, held, source) then source else held;
      forall t, j | t in sources && 0 <= j < i + 1 && variants[j].value == t.value ensures t == best || Outranked(f, t, best) {
        if j < i {
          if t != held && best == source {
            OutrankedTransitive(f, t, held, source);
          }
        } else if t != source && best == held {
          OutrankedTransitive(f, t, source, held);
        }
      }
    }
  }

  // ----- the order on the states that fix it

  /** One variant for each of some operations with different values. */
  function VariantsOf(listed: seq<Source>): seq<ValueVariant>
  {
    seq(|listed|, i requires 0 <= i < |listed| => ValueVariant(listed[i].value, [Render(listed[i].operation)]))
  }

  ghost predicate AllDiffer(listed: seq<Source>)
  {
    forall i, j :: 0 <= i < j < |listed| ==> listed[i].value != listed[j].value && listed[i].operation != listed[j].operation
  }

  lemma ListedOnce(listed: seq<Source>, i: nat, s: Source)
    requires AllDiffer(listed) && i < |listed| && s in SetOf(listed) && (s.value == listed[i].value || s.operation == listed[i].operation)
    ensures s == listed[i]
  {
    var j :| 0 <= j < |listed| && listed[j] == s;
    assert !(i < j) && !(j < i);
  }

  lemma OneOrigin(listed: seq<Source>, i: nat)
    requires AllDiffer(listed) && i < |listed|
    ensures OriginsOf(SetOf(listed), listed[i].value) == {Render(listed[i].operation)}
  {
    assert listed[i] in SetOf(listed);
    forall s | s in SetOf(listed) && s.value == listed[i].value ensures s == listed[i] {
      ListedOnce(listed, i, s);
    }
  }

  lemma ListedAreDistinct(listed: seq<Source>)
    requires AllDiffer(listed)
    ensures Distinct(SetOf(listed))
  {
    forall s, t | s in SetOf(listed) && t in SetOf(listed) && s.operation == t.operation ensures s == t {
      var i :| 0 <= i < |listed| && listed[i] == s;
      ListedOnce(listed, i, t);
    }
  }

  lemma VariantsGroup(listed: seq<Source>)
    requires AllDiffer(listed)
    ensures Distinct(SetOf(listed)) && Groups(VariantsOf(listed), SetOf(listed))
  {
    ListedAreDistinct(listed);
    var variants := VariantsOf(listed);
    forall i | 0 <= i < |variants|
      ensures variants[i].origins != [] && forall o :: o in variants[i].origins <==> o in OriginsOf(SetOf(listed), variants[i].value)
    {
      OneOrigin(listed, i);
    }
    forall s | s in SetOf(listed) ensures exists i :: 0 <= i < |variants| && variants[i].value == s.value {
      var i :| 0 <= i < |listed| && listed[i] == s;
      assert variants[i].value == s.value;
    }
  }

  /** Among plain texts the last one is selected if its operation is later than all the others. */
  method SelectLast(listed: seq<Source>) returns (selected: Result<ValueVariant, Error>)
    requires listed != [] && AllDiffer(listed)
    requires forall i :: 0 <= i < |listed| - 1 ==> Later(listed[i].operation, listed[|listed| - 1].operation)
    ensures selected.Ok? && selected.value.value == listed[|listed| - 1].value
  {
    VariantsGroup(listed);
    ghost var champion;
    selected, champion := SelectedVariant(FieldState(Notes, VariantsOf(listed)), SetOf(listed));
    LastWins(listed, champion);
  }

  lemma LastWins(listed: seq<Source>, champion: Source)
    requires listed != [] && AllDiffer(listed) && Champion(Notes, SetOf(listed), champion)
    requires forall i :: 0 <= i < |listed| - 1 ==> Later(listed[i].operation, listed[|listed| - 1].operation)
    ensures champion == listed[|listed| - 1]
  {
    var last := listed[|listed| - 1];
    ListedAreDistinct(listed);
    assert last in SetOf(listed);
    if champion != last {
      var i :| 0 <= i < |listed| && listed[i] == champion;
      OutrankedMeans(Notes, champion, last);
      OutrankedTotal(Notes, champion, last);
    }
  }

  /** Counters are compared as numbers, then actors: ten beats nine, and the greater actor breaks the tie. */
  method NumericOrder() returns (first: Result<ValueVariant, Error>, second: Result<ValueVariant, Error>)
    ensures first.Ok? && first.value.value == TextValue(Some("PUBLIC ten"))
    ensures second.Ok? && second.value.value == TextValue(Some("PUBLIC tied"))
  {
    var nine, ten, tied := "PUBLIC nine", "PUBLIC ten", "PUBLIC tied";
    assert nine[7] != ten[7] && nine[7] != tied[7] && ten[8] != tied[8];
    assert Text.SmallerAt("00", "01", 1);
    assert OpId(9, "ff") != OpId(10, "00") && OpId(10, "00") != OpId(10, "01");
    first := SelectLast([Source(TextValue(Some(nine)), OpId(9, "ff")), Source(TextValue(Some(ten)), OpId(10, "00"))]);
    second := SelectLast([Source(TextValue(Some(nine)), OpId(9, "ff")), Source(TextValue(Some(ten)), OpId(10, "00")),
                          Source(TextValue(Some(tied)), OpId(10, "01"))]);
  }
}
