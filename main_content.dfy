/**
 * The main form: the project-type selector, whose options are the catalog's types grouped
 * by category in the order of the category table, and the rules for which dimensional
 * inputs are shown.
 */
module MainContent {
  import opened Types
  import opened Catalog
  import Seqs
  import Calculator
  import Sidebar

  /** One `<option>`: the type key and its display name. */
  datatype TypeOption = TypeOption(key: string, name: string)

  /** One `<optgroup>`: the category label, its code and its options. */
  datatype OptionGroup = OptionGroup(caption: string, category: string, options: seq<TypeOption>)

  /** The option for a catalog key. */
  function OptionFor(catalog: Catalog, key: string): TypeOption
    requires key in catalog.types
  {
    TypeOption(key, catalog.types[key].name)
  }

  /** The options of category `c` among `keys`, in the order of `keys`. */
  function TypesIn(catalog: Catalog, keys: seq<string>, c: string): seq<TypeOption>
    requires forall k :: k in keys ==> k in catalog.types
  {
    if keys == [] then []
    else
      var last := keys[|keys| - 1];
      TypesIn(catalog, keys[..|keys| - 1], c) + (if CategoryOf(last) == c then [OptionFor(catalog, last)] else [])
  }

  /** A category's options are exactly the options of the keys with that category. */
  lemma {:induction false} TypesInMembers(catalog: Catalog, keys: seq<string>, c: string)
    requires forall k :: k in keys ==> k in catalog.types
    ensures forall o :: o in TypesIn(catalog, keys, c) ==>
      o.key in keys && CategoryOf(o.key) == c && o == OptionFor(catalog, o.key)
    ensures forall k :: k in keys && CategoryOf(k) == c ==> OptionFor(catalog, k) in TypesIn(catalog, keys, c)
  {
    if keys != [] {
      var init := keys[..|keys| - 1];
      TypesInMembers(catalog, init, c);
      assert keys == init + [keys[|keys| - 1]];
    }
  }

  /** Within a group the options keep the catalog's enumeration order. */
  lemma {:induction false} TypesInConcat(catalog: Catalog, a: seq<string>, b: seq<string>, c: string)
    requires forall k :: k in a + b ==> k in catalog.types
    ensures TypesIn(catalog, a + b, c) == TypesIn(catalog, a, c) + TypesIn(catalog, b, c)
  {
    if b == [] {
      assert a + b == a;
    } else {
      var b' := b[..|b| - 1];
      assert (a + b)[..|a + b| - 1] == a + b';
      TypesInConcat(catalog, a, b', c);
    }
  }

  /** The groups for the categories `cats`, in that order, leaving out categories with no types. */
  function GroupsFor(catalog: Catalog, cats: seq<string>): seq<OptionGroup>
    requires forall k :: k in catalog.order ==> k in catalog.types
    requires forall c :: c in cats ==> c in catalog.categoryNames
  {
    if cats == [] then []
    else
      var c := cats[0];
      var options := TypesIn(catalog, catalog.order, c);
      (if options == [] then [] else [OptionGroup(catalog.categoryNames[c], c, options)])
      + GroupsFor(catalog, cats[1..])
  }

  /** Each group is a listed category with at least one type, captioned from the table. */
  lemma {:induction false} GroupsAreListedCategories(catalog: Catalog, cats: seq<string>)
    requires forall k :: k in catalog.order ==> k in catalog.types
    requires forall c :: c in cats ==> c in catalog.categoryNames
    ensures forall g :: g in GroupsFor(catalog, cats) ==>
      && g.category in cats
      && g.options == TypesIn(catalog, catalog.order, g.category) && g.options != []
      && g.caption == catalog.categoryNames[g.category]
  {
    if cats != [] {
      GroupsAreListedCategories(catalog, cats[1..]);
    }
  }

  /** Every listed category with at least one type has its group. */
  lemma {:induction false} ListedCategoriesHaveGroups(catalog: Catalog, cats: seq<string>)
    requires forall k :: k in catalog.order ==> k in catalog.types
    requires forall c :: c in cats ==> c in catalog.categoryNames
    ensures forall c :: c in cats && TypesIn(catalog, catalog.order, c) != [] ==>
      OptionGroup(catalog.categoryNames[c], c, TypesIn(catalog, catalog.order, c)) in GroupsFor(catalog, cats)
  {
    if cats != [] {
      ListedCategoriesHaveGroups(catalog, cats[1..]);
      assert cats == [cats[0]] + cats[1..];
    }
  }

  /** A category table without repeats yields at most one group per category. */
  lemma {:induction false} GroupsForDistinct(catalog: Catalog, cats: seq<string>)
    requires forall k :: k in catalog.order ==> k in catalog.types
    requires forall c :: c in cats ==> c in catalog.categoryNames
    requires Seqs.Distinct(cats)
    ensures forall i :: 0 <= i < |GroupsFor(catalog, cats)| ==> GroupsFor(catalog, cats)[i].category in cats
    ensures forall i, j :: 0 <= i < j < |GroupsFor(catalog, cats)| ==>
      GroupsFor(catalog, cats)[i].category != GroupsFor(catalog, cats)[j].category
  {
    if cats != [] {
      var tail := cats[1..];
      var rest := GroupsFor(catalog, tail);
      Seqs.DistinctTail(cats);
      GroupsForDistinct(catalog, tail);
      var c := cats[0];
      var options := TypesIn(catalog, catalog.order, c);
      var head := if options == [] then [] else [OptionGroup(catalog.categoryNames[c], c, options)];
      var r := GroupsFor(catalog, cats);
      var d := |head|;
      assert r == head + rest;
      forall i | 0 <= i < |r| ensures r[i].category in cats {
        if i >= d {
          assert r[i] == rest[i - d];
          assert rest[i - d].category in tail;
        }
      }
      forall i, j | 0 <= i < j < |r| ensures r[i].category != r[j].category {
        assert r[j] == rest[j - d];
        assert rest[j - d].category in tail;
        if i >= d {
          assert r[i] == rest[i - d];
        }
      }
    }
  }

  /** Groups of earlier categories of the table come before those of later ones. */
  lemma {:induction false} GroupsForConcat(catalog: Catalog, a: seq<string>, b: seq<string>)
    requires forall k :: k in catalog.order ==> k in catalog.types
    requires forall c :: c in a + b ==> c in catalog.categoryNames
    ensures GroupsFor(catalog, a + b) == GroupsFor(catalog, a) + GroupsFor(catalog, b)
  {
    if a == [] {
      assert a + b == b;
    } else {
      assert (a + b)[0] == a[0];
      assert (a + b)[1..] == a[1..] + b;
      GroupsForConcat(catalog, a[1..], b);
    }
  }

  /** The selector's groups: the category table's order, non-empty categories only. */
  function CuratedGroups(catalog: Catalog): seq<OptionGroup>
    requires forall k :: k in catalog.order ==> k in catalog.types
    requires forall c :: c in catalog.categoryOrder ==> c in catalog.categoryNames
  {
    GroupsFor(catalog, catalog.categoryOrder)
  }

  /** A type of a listed category is offered in its category's group. */
  lemma OwnGroupOffersType(catalog: Catalog, key: string)
    requires forall k :: k in catalog.order ==> k in catalog.types
    requires forall c :: c in catalog.categoryOrder ==> c in catalog.categoryNames
    requires key in catalog.order && CategoryOf(key) in catalog.categoryOrder
    ensures var c := CategoryOf(key);
      && OptionFor(catalog, key) in TypesIn(catalog, catalog.order, c)
      && OptionGroup(catalog.categoryNames[c], c, TypesIn(catalog, catalog.order, c)) in CuratedGroups(catalog)
  {
    TypesInMembers(catalog, catalog.order, CategoryOf(key));
    ListedCategoriesHaveGroups(catalog, catalog.categoryOrder);
  }

  /** A group that offers a type is the group of the type's category. */
  lemma OnlyOwnGroupOffersType(catalog: Catalog, key: string, g: OptionGroup)
    requires forall k :: k in catalog.order ==> k in catalog.types
    requires forall c :: c in catalog.categoryOrder ==> c in catalog.categoryNames
    requires key in catalog.types
    requires g in CuratedGroups(catalog) && OptionFor(catalog, key) in g.options
    ensures g.category == CategoryOf(key)
  {
    GroupsAreListedCategories(catalog, catalog.categoryOrder);
    TypesInMembers(catalog, catalog.order, g.category);
  }

  /**
   * Every catalog type is offered exactly once: in the group of its own category, and in no
   * other group.
   */
  lemma EachTypeInOneGroup(catalog: Catalog, key: string)
    requires catalog.Valid()
    requires key in catalog.types
    ensures var groups := CuratedGroups(catalog);
      var c := CategoryOf(key);
      && OptionGroup(catalog.categoryNames[c], c, TypesIn(catalog, catalog.order, c)) in groups
      && OptionFor(catalog, key) in TypesIn(catalog, catalog.order, c)
      && (forall i :: 0 <= i < |groups| && OptionFor(catalog, key) in groups[i].options ==> groups[i].category == c)
      && (forall i, j :: 0 <= i < j < |groups| ==>
           !(OptionFor(catalog, key) in groups[i].options && OptionFor(catalog, key) in groups[j].options))
  {
    var groups := CuratedGroups(catalog);
    var option := OptionFor(catalog, key);
    assert key in catalog.order && CategoryOf(key) in catalog.categoryOrder;
    OwnGroupOffersType(catalog, key);
    forall i | 0 <= i < |groups| && option in groups[i].options
      ensures groups[i].category == CategoryOf(key)
    {
      OnlyOwnGroupOffersType(catalog, key, groups[i]);
    }
    GroupsForDistinct(catalog, catalog.categoryOrder);
  }

  /** A type whose category is not in the table is offered in no group. */
  lemma UnlistedCategoryNotOffered(catalog: Catalog, key: string)
    requires forall k :: k in catalog.order ==> k in catalog.types
    requires forall c :: c in catalog.categoryOrder ==> c in catalog.categoryNames
    requires key in catalog.types && CategoryOf(key) !in catalog.categoryOrder
    ensures forall g :: g in CuratedGroups(catalog) ==> OptionFor(catalog, key) !in g.options
  {
    GroupsAreListedCategories(catalog, catalog.categoryOrder);
    forall g | g in CuratedGroups(catalog) ensures OptionFor(catalog, key) !in g.options {
      TypesInMembers(catalog, catalog.order, g.category);
    }
  }

  /** Enumerating one more key adds its option to the end of its own category's options. */
  lemma TypesInStep(catalog: Catalog, i: nat, c: string)
    requires forall k :: k in catalog.order ==> k in catalog.types
    requires i < |catalog.order|
    ensures TypesIn(catalog, catalog.order[..i + 1], c) ==
      TypesIn(catalog, catalog.order[..i], c)
      + (if CategoryOf(catalog.order[i]) == c then [OptionFor(catalog, catalog.order[i])] else [])
  {
    assert catalog.order[..i + 1][..i] == catalog.order[..i];
  }

  /** `grouped[c] || []`. */
  function GroupOrEmpty(grouped: map<string, seq<TypeOption>>, c: string): seq<TypeOption> {
    if c in grouped then grouped[c] else []
  }

  /** `grouped` holds, for every category, the options of the first `i` enumerated keys. */
  ghost predicate GroupedUpTo(catalog: Catalog, grouped: map<string, seq<TypeOption>>, i: nat)
    requires forall k :: k in catalog.order ==> k in catalog.types
    requires i <= |catalog.order|
  {
    forall c :: GroupOrEmpty(grouped, c) == TypesIn(catalog, catalog.order[..i], c)
  }

  /** The loop body: `if (!grouped[category]) grouped[category] = []; grouped[category].push(option)`. */
  method AddOption(grouped: map<string, seq<TypeOption>>, category: string, option: TypeOption)
    returns (updated: map<string, seq<TypeOption>>)
    ensures updated == grouped[category := GroupOrEmpty(grouped, category) + [option]]
  {
    updated := grouped;
    if category !in updated {
      updated := updated[category := []];
    }
    updated := updated[category := updated[category] + [option]];
  }

  /** The `for…in` loop of `projectTypeOptions`: each category's options, in enumeration order. */
  method GroupByCategory(catalog: Catalog) returns (grouped: map<string, seq<TypeOption>>)
    requires forall k :: k in catalog.order ==> k in catalog.types
    ensures forall c :: c in grouped ==> grouped[c] != []
    ensures forall c :: GroupOrEmpty(grouped, c) == TypesIn(catalog, catalog.order, c)
  {
    grouped := map[];
    var i := 0;
    while i < |catalog.order|
      invariant 0 <= i <= |catalog.order|
      invariant forall c :: c in grouped ==> grouped[c] != []
      invariant GroupedUpTo(catalog, grouped, i)
    {
      var key := catalog.order[i];
      ghost var before := grouped;
      grouped := AddOption(grouped, CategoryOf(key), OptionFor(catalog, key));
      GroupStep(catalog, i, before, grouped);
      i := i + 1;
    }
    assert catalog.order[..i] == catalog.order;
  }

  /** One iteration of the grouping loop extends the map to the next key. */
  lemma GroupStep(catalog: Catalog, i: nat, before: map<string, seq<TypeOption>>,
                  after: map<string, seq<TypeOption>>)
    requires forall k :: k in catalog.order ==> k in catalog.types
    requires i < |catalog.order|
    requires GroupedUpTo(catalog, before, i)
    requires var category := CategoryOf(catalog.order[i]);
      after == before[category := GroupOrEmpty(before, category) + [OptionFor(catalog, catalog.order[i])]]
    ensures GroupedUpTo(catalog, after, i + 1)
  {
    forall c ensures GroupOrEmpty(after, c) == TypesIn(catalog, catalog.order[..i + 1], c) {
      TypesInStep(catalog, i, c);
    }
  }

  /**
   * `Object.keys(categoryNames).map(...).filter(Boolean)`: a group for each listed category
   * that has an entry in `grouped`, in the order of the table.
   */
  function OptionGroups(catalog: Catalog, grouped: map<string, seq<TypeOption>>, cats: seq<string>): seq<OptionGroup>
    requires forall c :: c in cats ==> c in catalog.categoryNames
  {
    if cats == [] then []
    else
      var c := cats[0];
      (if c in grouped then [OptionGroup(catalog.categoryNames[c], c, grouped[c])] else [])
      + OptionGroups(catalog, grouped, cats[1..])
  }

  /** Built from the grouping loop's map, the groups are the curated groups. */
  lemma {:induction false} OptionGroupsAreCurated(catalog: Catalog, grouped: map<string, seq<TypeOption>>,
                                                  cats: seq<string>)
    requires forall k :: k in catalog.order ==> k in catalog.types
    requires forall c :: c in cats ==> c in catalog.categoryNames
    requires forall c :: c in grouped ==> grouped[c] != []
    requires forall c :: GroupOrEmpty(grouped, c) == TypesIn(catalog, catalog.order, c)
    ensures OptionGroups(catalog, grouped, cats) == GroupsFor(catalog, cats)
  {
    if cats != [] {
      assert GroupOrEmpty(grouped, cats[0]) == TypesIn(catalog, catalog.order, cats[0]);
      OptionGroupsAreCurated(catalog, grouped, cats[1..]);
    }
  }

  /**
   * `projectTypeOptions`: groups the catalog's keys by category, then maps the category
   * table's keys to groups, skipping categories without types.
   */
  method ProjectTypeOptions(catalog: Catalog) returns (groups: seq<OptionGroup>)
    requires forall k :: k in catalog.order ==> k in catalog.types
    requires forall c :: c in catalog.categoryOrder ==> c in catalog.categoryNames
    ensures groups == CuratedGroups(catalog)
  {
    var grouped := GroupByCategory(catalog);
    OptionGroupsAreCurated(catalog, grouped, catalog.categoryOrder);
    groups := OptionGroups(catalog, grouped, catalog.categoryOrder);
  }

  // ---------------------------------------------------------------- visible inputs

  /** The area input: a type is selected and the calculator needs its area. */
  predicate ShowAreaInput(catalog: Catalog, form: FormState)
    ensures ShowAreaInput(catalog, form) <==>
      form.projectType in catalog.types
      && Calculator.NeedsArea(catalog.types[form.projectType], CategoryOf(form.projectType), form.hasCrane)
    ensures form.projectType in catalog.types && !ShowAreaInput(catalog, form) ==>
      Calculator.StageOf(catalog, form).Priced?
  {
    && form.projectType in catalog.types
    && var t := catalog.types[form.projectType];
       (t.strategy == PerArea || (Calculator.IsCraneEligible(CategoryOf(form.projectType)) && form.hasCrane))
  }

  /** The read-only base price: a fixed-price type whose area is not asked for. */
  predicate ShowFixedPriceInfo(catalog: Catalog, form: FormState)
    ensures ShowFixedPriceInfo(catalog, form) ==>
      && form.projectType in catalog.types && !ShowAreaInput(catalog, form) && !ShowWallSections(catalog, form)
    ensures ShowFixedPriceInfo(catalog, form) ==>
      var t := catalog.types[form.projectType];
      && Calculator.StageOf(catalog, form) == Calculator.Priced(t, CategoryOf(form.projectType))
      && Calculator.BasePrice(t, form) == t.basePrice
  {
    form.projectType in catalog.types && catalog.types[form.projectType].strategy == Fixed
    && !ShowAreaInput(catalog, form)
  }

  /** The wall-section and additional-length inputs: a retaining-wall type. */
  predicate ShowWallSections(catalog: Catalog, form: FormState)
    ensures form.projectType in catalog.types ==>
      (ShowWallSections(catalog, form) <==> Calculator.BaseDetailOf(catalog.types[form.projectType], form).WallPrice?)
  {
    form.projectType in catalog.types && catalog.types[form.projectType].strategy == RetainingWall
  }

  /**
   * The area input is shown exactly when the calculator's needs-area rule holds; the fixed
   * price note is never shown with it nor with the wall inputs.
   */
  lemma VisibleInputsAgree(catalog: Catalog, form: FormState)
    ensures ShowAreaInput(catalog, form) <==>
      form.projectType in catalog.types
      && Calculator.NeedsArea(catalog.types[form.projectType], CategoryOf(form.projectType), form.hasCrane)
    ensures !(ShowFixedPriceInfo(catalog, form) && ShowAreaInput(catalog, form))
    ensures !(ShowFixedPriceInfo(catalog, form) && ShowWallSections(catalog, form))
    ensures form.projectType in catalog.types && !ShowAreaInput(catalog, form) ==>
      Calculator.StageOf(catalog, form).Priced?
  {
  }

  /** The number of wall sections as entered: an empty field or 0 gives 1. */
  function WallSectionsFromInput(input: Option<real>): (r: real)
    ensures r != 0.0
    ensures input.Some? && input.value != 0.0 ==> r == input.value
    ensures input.None? || input.value == 0.0 ==> r == 1.0
  {
    Sidebar.NumberOr(input, 1.0)
  }

  /** `other` differs from `form` only in inputs that are not on screen for `form`. */
  predicate DiffersOnlyInHidden(catalog: Catalog, form: FormState, other: FormState) {
    && other.projectType == form.projectType
    && (other.area != form.area ==> !ShowAreaInput(catalog, form))
    && (other.wallSections != form.wallSections || other.additionalLength != form.additionalLength
        ==> !ShowWallSections(catalog, form))
    && (other.hasCrane != form.hasCrane ==> !Sidebar.ShowCraneOption(catalog, form))
    && (other.hasComplexity != form.hasComplexity
        || other.isAccelerated != form.isAccelerated || other.includeSupervision != form.includeSupervision
        ==> !Sidebar.ShowCoefficients(catalog, form))
    && (other.complexityPercentage != form.complexityPercentage ==> !Sidebar.ShowComplexityPercentage(catalog, form))
  }

  /** Hidden inputs cannot change whether the calculation is priced, rejected or incomplete. */
  lemma HiddenInputsKeepStage(catalog: Catalog, form: FormState, other: FormState)
    requires DiffersOnlyInHidden(catalog, form, other)
    ensures Calculator.StageOf(catalog, other) == Calculator.StageOf(catalog, form)
  {
    if form.projectType in catalog.types {
      var t := catalog.types[form.projectType];
      var c := CategoryOf(form.projectType);
      assert Calculator.NeedsArea(t, c, other.hasCrane) == Calculator.NeedsArea(t, c, form.hasCrane);
    }
  }

  /** Hidden inputs cannot change the price after base and crane. */
  lemma HiddenInputsKeepRunningPrice(catalog: Catalog, form: FormState, other: FormState)
    requires DiffersOnlyInHidden(catalog, form, other)
    requires form.projectType in catalog.types
    ensures var t := catalog.types[form.projectType];
      Calculator.AfterCrane(t, other, CategoryOf(form.projectType))
        == Calculator.AfterCrane(t, form, CategoryOf(form.projectType))
  {
    var t := catalog.types[form.projectType];
    var c := CategoryOf(form.projectType);
    match t.strategy {
      case Fixed =>
      case PerArea =>
        assert ShowAreaInput(catalog, form);
      case RetainingWall =>
        assert ShowWallSections(catalog, form);
        assert Calculator.LengthSurchargeAmount(t, other) == Calculator.LengthSurchargeAmount(t, form);
    }
    if Calculator.CraneApplies(form, c) {
      assert ShowAreaInput(catalog, form);
    }
  }

  /** Values left in hidden inputs never change the outcome of the calculation. */
  lemma HiddenInputsAreIgnored(catalog: Catalog, form: FormState, other: FormState)
    requires DiffersOnlyInHidden(catalog, form, other)
    ensures Calculator.StageOf(catalog, other) == Calculator.StageOf(catalog, form)
    ensures Calculator.StageOf(catalog, form).Priced? ==>
      var stage := Calculator.StageOf(catalog, form);
      Calculator.Total(stage.t, other, stage.category) == Calculator.Total(stage.t, form, stage.category)
  {
    HiddenInputsKeepStage(catalog, form, other);
    if form.projectType in catalog.types {
      var t := catalog.types[form.projectType];
      var c := CategoryOf(form.projectType);
      HiddenInputsKeepRunningPrice(catalog, form, other);
      HiddenInputsKeepFactors(catalog, form, other);
    }
  }

  /** Hidden surcharge inputs cannot change the surcharge factors. */
  lemma HiddenInputsKeepFactors(catalog: Catalog, form: FormState, other: FormState)
    requires DiffersOnlyInHidden(catalog, form, other)
    requires form.projectType in catalog.types
    ensures var c := CategoryOf(form.projectType);
      && Calculator.ComplexityFactor(other, c) == Calculator.ComplexityFactor(form, c)
      && Calculator.AccelerationFactor(other, c) == Calculator.AccelerationFactor(form, c)
      && Calculator.SupervisionFactor(other, c) == Calculator.SupervisionFactor(form, c)
  {
  }
}
