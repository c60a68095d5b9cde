/**
 * The price calculator: resolves the selected construction type, validates the area,
 * computes the base price by strategy, adds the crane surcharge and compounds the
 * percentage surcharges on the running price, producing a total, a derivation log and an
 * error flag. Amounts are exact reals in the reference currency (EUR).
 */
module Calculator {
  import opened Types
  import opened Catalog

  const CranePricePerSquareMetre: real := 1.0
  const AccelerationRate: real := 0.5
  const SupervisionRate: real := 0.15
  /** Each whole step of this many metres of additional wall length is charged. */
  const WallLengthStep: real := 10.0
  /** Fraction of the sections price charged per length step. */
  const WallLengthRate: real := 0.2

  /** A surcharge line: what it was computed from and the amount it added. */
  datatype Addition =
    | Crane(area: real, amount: real)
    | Complexity(percentage: real, from: real, amount: real)
    | Acceleration(from: real, amount: real)
    | Supervision(from: real, amount: real)

  datatype LengthSurcharge = LengthSurcharge(additionalLength: real, amount: real)

  /** The base-price line, one shape per strategy. */
  datatype BaseDetail =
    | FixedPrice(typeName: string, price: real)
    | AreaPrice(typeName: string, area: real, unitPrice: real, price: real)
    | WallPrice(sections: real, unitPrice: real, sectionsPrice: real, length: Option<LengthSurcharge>)

  /** Log entries in place of the formatted (and currency-rewritten) text lines. */
  datatype LogEntry =
    | SelectTypePrompt
    | InvalidAreaHeading
    | AreaOutOfRangeNote
    | EnterAreaPrompt
    | Base(categoryLabel: Option<string>, detail: BaseDetail)
    | Additions(items: seq<Addition>)
    | FinalTotal(price: real)

  datatype CalculationResult = CalculationResult(currentTotal: real, log: seq<LogEntry>, error: bool)

  predicate IsCraneEligible(category: string)
    ensures IsCraneEligible(category) ==> CoefficientsApply(category)
  {
    category == "V" || category == "VI"
  }

  /** Categories I and VII are flat-fee categories: no percentage surcharge applies to them. */
  predicate CoefficientsApply(category: string) {
    category != "I" && category != "VII"
  }

  /** The area input takes part in the price: per-area pricing, or a crane hall in V/VI. */
  predicate NeedsArea(t: ConstructionType, category: string, hasCrane: bool)
    ensures t.strategy == PerArea ==> NeedsArea(t, category, hasCrane)
    ensures !hasCrane || !IsCraneEligible(category) ==> (NeedsArea(t, category, hasCrane) <==> t.strategy == PerArea)
  {
    t.strategy == PerArea || (IsCraneEligible(category) && hasCrane)
  }

  /** A bound counts only when it is present and non-zero (a JavaScript-truthy number). */
  predicate BoundActive(bound: Option<real>) {
    bound.Some? && bound.value != 0.0
  }

  predicate OutsideBounds(t: ConstructionType, area: real)
    ensures !BoundActive(t.minArea) && !BoundActive(t.maxArea) ==> !OutsideBounds(t, area)
    ensures (t.minArea.None? || t.minArea.value <= area) && (t.maxArea.None? || area <= t.maxArea.value)
      ==> !OutsideBounds(t, area)
    ensures t.maxArea == Some(0.0) && (t.minArea.None? || t.minArea.value <= area) ==> !OutsideBounds(t, area)
  {
    || (BoundActive(t.minArea) && area < t.minArea.value)
    || (BoundActive(t.maxArea) && area > t.maxArea.value)
  }

  /** Where a calculation ends: nothing selected, a rejected area, a missing area, or a price. */
  datatype Stage = NoSelection | InvalidArea | MissingArea | Priced(t: ConstructionType, category: string)

  function StageOf(catalog: Catalog, inputs: FormState): Stage {
    if inputs.projectType !in catalog.types then NoSelection
    else
      var t := catalog.types[inputs.projectType];
      var category := CategoryOf(inputs.projectType);
      var needsArea := NeedsArea(t, category, inputs.hasCrane);
      if needsArea && inputs.area > 0.0 && OutsideBounds(t, inputs.area) then InvalidArea
      else if needsArea && inputs.area <= 0.0 then MissingArea
      else Priced(t, category)
  }

  /**
   * The number of charged 10 m steps of additional wall length: `floor(length / 10)`,
   * which is zero for anything shorter than 10 m.
   */
  function ChargedLengthSteps(additionalLength: real): (n: int)
    ensures n >= 0
    ensures n > 0 <==> additionalLength >= WallLengthStep
    ensures n > 0 ==> n as real * WallLengthStep <= additionalLength < (n + 1) as real * WallLengthStep
  {
    if additionalLength >= WallLengthStep then (additionalLength / WallLengthStep).Floor else 0
  }

  /** The wall surcharge for additional length: 20% of the sections price per charged 10 m step. */
  function LengthSurchargeAmount(t: ConstructionType, inputs: FormState): real {
    (t.basePrice * inputs.wallSections * WallLengthRate) * ChargedLengthSteps(inputs.additionalLength) as real
  }

  /** The base price by strategy. */
  function BasePrice(t: ConstructionType, inputs: FormState): real {
    match t.strategy
    case Fixed => t.basePrice
    case PerArea => t.basePrice * inputs.area
    case RetainingWall => t.basePrice * inputs.wallSections + LengthSurchargeAmount(t, inputs)
  }

  predicate CraneApplies(inputs: FormState, category: string) {
    inputs.hasCrane && IsCraneEligible(category)
  }

  predicate ComplexityApplies(inputs: FormState, category: string) {
    CoefficientsApply(category) && inputs.hasComplexity && inputs.complexityPercentage > 0.0
  }

  predicate AccelerationApplies(inputs: FormState, category: string) {
    CoefficientsApply(category) && inputs.isAccelerated
  }

  predicate SupervisionApplies(inputs: FormState, category: string) {
    CoefficientsApply(category) && inputs.includeSupervision
  }

  function CraneSurcharge(inputs: FormState, category: string): real {
    if CraneApplies(inputs, category) then inputs.area * CranePricePerSquareMetre else 0.0
  }

  function ComplexityRate(inputs: FormState): real {
    inputs.complexityPercentage / 100.0
  }

  // The running price after each step, as the calculator accumulates it.

  function AfterCrane(t: ConstructionType, inputs: FormState, category: string): real {
    BasePrice(t, inputs) + CraneSurcharge(inputs, category)
  }

  function AfterComplexity(t: ConstructionType, inputs: FormState, category: string): real {
    var p := AfterCrane(t, inputs, category);
    if ComplexityApplies(inputs, category) then p + p * ComplexityRate(inputs) else p
  }

  function AfterAcceleration(t: ConstructionType, inputs: FormState, category: string): real {
    var p := AfterComplexity(t, inputs, category);
    if AccelerationApplies(inputs, category) then p + p * AccelerationRate else p
  }

  function AfterSupervision(t: ConstructionType, inputs: FormState, category: string): real {
    var p := AfterAcceleration(t, inputs, category);
    if SupervisionApplies(inputs, category) then p + p * SupervisionRate else p
  }

  // The same price in closed form: one multiplicative factor per percentage surcharge.

  function ComplexityFactor(inputs: FormState, category: string): real {
    if ComplexityApplies(inputs, category) then 1.0 + ComplexityRate(inputs) else 1.0
  }

  function AccelerationFactor(inputs: FormState, category: string): real {
    if AccelerationApplies(inputs, category) then 1.0 + AccelerationRate else 1.0
  }

  function SupervisionFactor(inputs: FormState, category: string): real {
    if SupervisionApplies(inputs, category) then 1.0 + SupervisionRate else 1.0
  }

  /** The final price: (base + crane) · (1 + p/100) · 1.5 · 1.15, each factor 1 when inactive. */
  function Total(t: ConstructionType, inputs: FormState, category: string): real {
    AfterCrane(t, inputs, category)
      * ComplexityFactor(inputs, category) * AccelerationFactor(inputs, category) * SupervisionFactor(inputs, category)
  }

  /**
   * The surcharge lines in application order; each percentage line is computed on the
   * running price left by the previous steps.
   */
  function AppliedAdditions(t: ConstructionType, inputs: FormState, category: string): seq<Addition> {
    CraneLine(inputs, category) + ComplexityLine(t, inputs, category)
    + AccelerationLine(t, inputs, category) + SupervisionLine(t, inputs, category)
  }

  function CraneLine(inputs: FormState, category: string): seq<Addition> {
    if CraneApplies(inputs, category) then [Crane(inputs.area, CraneSurcharge(inputs, category))] else []
  }

  function ComplexityLine(t: ConstructionType, inputs: FormState, category: string): seq<Addition> {
    var from := AfterCrane(t, inputs, category);
    if ComplexityApplies(inputs, category)
    then [Complexity(inputs.complexityPercentage, from, from * ComplexityRate(inputs))]
    else []
  }

  function AccelerationLine(t: ConstructionType, inputs: FormState, category: string): seq<Addition> {
    var from := AfterComplexity(t, inputs, category);
    if AccelerationApplies(inputs, category) then [Acceleration(from, from * AccelerationRate)] else []
  }

  function SupervisionLine(t: ConstructionType, inputs: FormState, category: string): seq<Addition> {
    var from := AfterAcceleration(t, inputs, category);
    if SupervisionApplies(inputs, category) then [Supervision(from, from * SupervisionRate)] else []
  }

  /** The category label prefixed to the base line, when the table has a non-empty one. */
  function CategoryLabel(catalog: Catalog, category: string): (r: Option<string>)
    ensures r.Some? <==> category in catalog.categoryNames && catalog.categoryNames[category] != ""
    ensures r.Some? ==> r.value == catalog.categoryNames[category]
  {
    if category in catalog.categoryNames && catalog.categoryNames[category] != "" then Some(catalog.categoryNames[category])
    else None
  }

  function BaseDetailOf(t: ConstructionType, inputs: FormState): BaseDetail {
    match t.strategy
    case Fixed => FixedPrice(t.name, t.basePrice)
    case PerArea => AreaPrice(t.name, inputs.area, t.basePrice, BasePrice(t, inputs))
    case RetainingWall =>
      WallPrice(inputs.wallSections, t.basePrice, t.basePrice * inputs.wallSections,
        if ChargedLengthSteps(inputs.additionalLength) > 0
        then Some(LengthSurcharge(inputs.additionalLength, LengthSurchargeAmount(t, inputs)))
        else None)
  }

  /** Base line, then the additions group if any surcharge applied, then the total if it differs from the base. */
  function PricedLog(catalog: Catalog, t: ConstructionType, inputs: FormState, category: string): seq<LogEntry> {
    var additions := AppliedAdditions(t, inputs, category);
    var total := Total(t, inputs, category);
    [Base(CategoryLabel(catalog, category), BaseDetailOf(t, inputs))]
    + (if additions != [] then [Additions(additions)] else [])
    + (if total != BasePrice(t, inputs) && total > 0.0 then [FinalTotal(total)] else [])
  }

  /** The code's test `length > 0 && floor(length / 10) > 0` picks out exactly the charged steps. */
  lemma StepsAreFloor(additionalLength: real, multiplier: int)
    requires additionalLength > 0.0 && multiplier == (additionalLength / WallLengthStep).Floor
    ensures multiplier > 0 <==> ChargedLengthSteps(additionalLength) > 0
    ensures multiplier > 0 ==> multiplier == ChargedLengthSteps(additionalLength)
  {
  }

  /** Without a charged step the additional length adds nothing. */
  lemma NoStepsNoSurcharge(t: ConstructionType, inputs: FormState)
    requires ChargedLengthSteps(inputs.additionalLength) == 0
    ensures LengthSurchargeAmount(t, inputs) == 0.0
  {
  }

  lemma Distributes(from: real, factor: real, rate: real)
    requires factor == 1.0 + rate
    ensures from + from * rate == from * factor
  {
  }

  /**
   * Compounding on the running price is multiplying by one factor per active surcharge:
   * the step-by-step price equals the closed form `Total`.
   */
  lemma RunningPriceIsTotal(t: ConstructionType, inputs: FormState, category: string)
    ensures AfterSupervision(t, inputs, category) == Total(t, inputs, category)
  {
    var p0 := AfterCrane(t, inputs, category);
    var f1 := ComplexityFactor(inputs, category);
    var f2 := AccelerationFactor(inputs, category);
    var f3 := SupervisionFactor(inputs, category);
    if ComplexityApplies(inputs, category) { Distributes(p0, f1, ComplexityRate(inputs)); }
    assert AfterComplexity(t, inputs, category) == p0 * f1;
    if AccelerationApplies(inputs, category) { Distributes(p0 * f1, f2, AccelerationRate); }
    assert AfterAcceleration(t, inputs, category) == p0 * f1 * f2;
    if SupervisionApplies(inputs, category) { Distributes(p0 * f1 * f2, f3, SupervisionRate); }
  }

  /** Two forms that differ at most in the object name and the display currency price alike. */
  lemma NameIsNotPriced(catalog: Catalog, a: FormState, b: FormState)
    requires b == a.(objectName := b.objectName, currencyDisplay := b.currencyDisplay)
    ensures StageOf(catalog, b) == StageOf(catalog, a)
    ensures StageOf(catalog, a).Priced? ==>
      Total(StageOf(catalog, a).t, b, StageOf(catalog, a).category)
        == Total(StageOf(catalog, a).t, a, StageOf(catalog, a).category)
  {
    assert b.projectType == a.projectType && b.area == a.area && b.hasCrane == a.hasCrane;
    if a.projectType in catalog.types {
      var t := catalog.types[a.projectType];
      var c := CategoryOf(a.projectType);
      assert LengthSurchargeAmount(t, b) == LengthSurchargeAmount(t, a);
      assert AfterCrane(t, b, c) == AfterCrane(t, a, c);
      assert ComplexityFactor(b, c) == ComplexityFactor(a, c);
    }
  }

  lemma ScaleUp(price: real, factor: real)
    requires price >= 0.0 && factor >= 1.0
    ensures price <= price * factor
  {
    assert price * factor == price + price * (factor - 1.0);
  }

  lemma NonNegativeProduct(a: real, b: real)
    requires a >= 0.0 && b >= 0.0
    ensures a * b >= 0.0
  {
  }

  /**
   * With a non-negative catalog price and section count, a priced calculation never
   * lowers the price: 0 <= base <= total.
   */
  lemma {:induction false} TotalAtLeastBase(catalog: Catalog, inputs: FormState)
    requires StageOf(catalog, inputs).Priced?
    requires StageOf(catalog, inputs).t.basePrice >= 0.0 && inputs.wallSections >= 0.0
    ensures var Priced(t, category) := StageOf(catalog, inputs);
      0.0 <= BasePrice(t, inputs) <= Total(t, inputs, category)
  {
    var Priced(t, category) := StageOf(catalog, inputs);
    BaseNonNegative(t, inputs);
    var p0 := AfterCrane(t, inputs, category);
    var f1 := ComplexityFactor(inputs, category);
    var f2 := AccelerationFactor(inputs, category);
    var f3 := SupervisionFactor(inputs, category);
    assert CraneApplies(inputs, category) ==> inputs.area > 0.0;
    assert BasePrice(t, inputs) <= p0;
    assert f1 >= 1.0 && f2 >= 1.0 && f3 >= 1.0;
    ScaleUp(p0, f1);
    ScaleUp(p0 * f1, f2);
    ScaleUp(p0 * f1 * f2, f3);
    assert Total(t, inputs, category) == p0 * f1 * f2 * f3;
  }

  /** A base price is never negative when the catalog price, the area and the section count are not. */
  lemma BaseNonNegative(t: ConstructionType, inputs: FormState)
    requires t.basePrice >= 0.0 && inputs.wallSections >= 0.0
    requires t.strategy == PerArea ==> inputs.area > 0.0
    ensures BasePrice(t, inputs) >= 0.0
  {
    match t.strategy {
      case Fixed =>
      case PerArea =>
        NonNegativeProduct(t.basePrice, inputs.area);
      case RetainingWall =>
        NonNegativeProduct(t.basePrice, inputs.wallSections);
        NonNegativeProduct(t.basePrice * inputs.wallSections, WallLengthRate);
        NonNegativeProduct(t.basePrice * inputs.wallSections * WallLengthRate,
                           ChargedLengthSteps(inputs.additionalLength) as real);
    }
  }

  /** Categories I and VII ignore every surcharge flag: the total is the base price and the log is one line. */
  lemma FlatCategoryChargesBase(catalog: Catalog, inputs: FormState)
    requires StageOf(catalog, inputs).Priced?
    requires StageOf(catalog, inputs).category in {"I", "VII"}
    ensures var Priced(t, category) := StageOf(catalog, inputs);
      && Total(t, inputs, category) == BasePrice(t, inputs)
      && AppliedAdditions(t, inputs, category) == []
      && PricedLog(catalog, t, inputs, category) == [Base(CategoryLabel(catalog, category), BaseDetailOf(t, inputs))]
  {
  }

  predicate AnySurchargeApplies(inputs: FormState, category: string) {
    || CraneApplies(inputs, category) || ComplexityApplies(inputs, category)
    || AccelerationApplies(inputs, category) || SupervisionApplies(inputs, category)
  }

  /**
   * Shape of a priced log: the base line first; the additions group present exactly when
   * some surcharge applied; the total line present exactly when the price moved off the
   * base and is positive, and then it is last.
   */
  lemma PricedLogShape(catalog: Catalog, t: ConstructionType, inputs: FormState, category: string)
    ensures var log := PricedLog(catalog, t, inputs, category);
      && 1 <= |log| <= 3
      && log[0] == Base(CategoryLabel(catalog, category), BaseDetailOf(t, inputs))
      && (log[0].categoryLabel.Some? <==>
            category in catalog.categoryNames && catalog.categoryNames[category] != "")
      && (log[0].categoryLabel.Some? ==> log[0].categoryLabel.value == catalog.categoryNames[category])
      && ((exists i :: 0 <= i < |log| && log[i].Additions?) <==> AnySurchargeApplies(inputs, category))
      && ((exists i :: 0 <= i < |log| && log[i].FinalTotal?) <==>
            Total(t, inputs, category) != BasePrice(t, inputs) && Total(t, inputs, category) > 0.0)
      && (log[|log| - 1].FinalTotal? ==> log[|log| - 1] == FinalTotal(Total(t, inputs, category)))
  {
    var log := PricedLog(catalog, t, inputs, category);
    var additions := AppliedAdditions(t, inputs, category);
    assert additions != [] <==> AnySurchargeApplies(inputs, category);
    if additions != [] {
      assert log[1].Additions?;
    }
    var total := Total(t, inputs, category);
    if total != BasePrice(t, inputs) && total > 0.0 {
      assert log[|log| - 1].FinalTotal?;
    }
  }

  /** The worked example: 100 with 10% complexity, acceleration and supervision gives 110, 165, 189.75. */
  lemma CompoundingExample()
    ensures var t := ConstructionType("T", 100.0, Fixed, None, None);
      var inputs := FormState("V.1", 0.0, 1.0, 0.0, "", Eur, false, true, 10.0, true, true);
      && AppliedAdditions(t, inputs, "V")
         == [Complexity(10.0, 100.0, 10.0), Acceleration(110.0, 55.0), Supervision(165.0, 24.75)]
      && Total(t, inputs, "V") == 189.75
  {
  }

  /** Retaining wall: 100 per section, 2 sections; 25 m adds two 20% steps (280), 9 m adds nothing (200). */
  lemma RetainingWallExample()
    ensures var t := ConstructionType("W", 100.0, RetainingWall, None, None);
      && BasePrice(t, FormState("X.1", 0.0, 2.0, 25.0, "", Eur, false, false, 0.0, false, false)) == 280.0
      && BasePrice(t, FormState("X.1", 0.0, 2.0, 9.0, "", Eur, false, false, 0.0, false, false)) == 200.0
  {
    assert ChargedLengthSteps(25.0) == 2;
  }

  /** Bounds 20..100 on a per-area type: 10 and 101 are rejected, 20 is priced. */
  lemma AreaBoundsExample()
    ensures var t := ConstructionType("A", 10.0, PerArea, Some(20.0), Some(100.0));
      var catalog := Catalog(map["II.1" := t], ["II.1"], map[], []);
      var inputs := FormState("II.1", 0.0, 1.0, 0.0, "", Eur, false, false, 0.0, false, false);
      && StageOf(catalog, inputs.(area := 10.0)) == InvalidArea
      && StageOf(catalog, inputs.(area := 20.0)) == Priced(t, "II")
      && StageOf(catalog, inputs.(area := 101.0)) == InvalidArea
      && StageOf(catalog, inputs.(area := 0.0)) == MissingArea
  {
    assert CategoryOf("II.1") == "II";
  }

  /**
   * Computes the price of `inputs` step by step on a running price. Only an area outside
   * the type's bounds is an error; no selection and a missing area are neutral states.
   */
  method Calculate(catalog: Catalog, inputs: FormState) returns (result: CalculationResult)
    ensures result.error <==> StageOf(catalog, inputs).InvalidArea?
    ensures StageOf(catalog, inputs).NoSelection? ==> result == CalculationResult(0.0, [SelectTypePrompt], false)
    ensures StageOf(catalog, inputs).InvalidArea? ==>
      result == CalculationResult(0.0, [InvalidAreaHeading, AreaOutOfRangeNote], true)
    ensures StageOf(catalog, inputs).MissingArea? ==> result == CalculationResult(0.0, [EnterAreaPrompt], false)
    ensures StageOf(catalog, inputs).Priced? ==>
      var Priced(t, category) := StageOf(catalog, inputs);
      result == CalculationResult(Total(t, inputs, category), PricedLog(catalog, t, inputs, category), false)
  {
    var log: seq<LogEntry> := [];
    if inputs.projectType !in catalog.types {
      return CalculationResult(0.0, [SelectTypePrompt], false);
    }
    var t := catalog.types[inputs.projectType];

    var area := inputs.area;
    var category := CategoryOf(inputs.projectType);
    var categoryLabel := CategoryLabel(catalog, category);

    var isCraneEligible := category == "V" || category == "VI";
    var needsAreaForCalc := t.strategy == PerArea || (isCraneEligible && inputs.hasCrane);

    if needsAreaForCalc && (BoundActive(t.minArea) || BoundActive(t.maxArea)) && area > 0.0 {
      if (BoundActive(t.minArea) && area < t.minArea.value) || (BoundActive(t.maxArea) && area > t.maxArea.value) {
        return CalculationResult(0.0, [InvalidAreaHeading, AreaOutOfRangeNote], true);
      }
    }

    if needsAreaForCalc && area <= 0.0 {
      return CalculationResult(0.0, [EnterAreaPrompt], false);
    }
    assert StageOf(catalog, inputs) == Priced(t, category);

    var basePrice, baseEntry := ComputeBasePrice(t, inputs, categoryLabel);
    log := log + [baseEntry];

    var price, additionsLog := ApplyAdditions(t, inputs, category, basePrice);

    if |additionsLog| > 0 {
      log := log + [Additions(additionsLog)];
    }

    RunningPriceIsTotal(t, inputs, category);
    if price != basePrice && price > 0.0 {
      log := log + [FinalTotal(price)];
    }

    assert log == PricedLog(catalog, t, inputs, category);
    result := CalculationResult(price, log, false);
  }

  /** The base price by strategy and its log line, with the wall-length surcharge as a separate clause. */
  method ComputeBasePrice(t: ConstructionType, inputs: FormState, categoryLabel: Option<string>)
    returns (basePrice: real, entry: LogEntry)
    ensures basePrice == BasePrice(t, inputs)
    ensures entry == Base(categoryLabel, BaseDetailOf(t, inputs))
  {
    match t.strategy {
      case Fixed =>
        basePrice := t.basePrice;
        entry := Base(categoryLabel, FixedPrice(t.name, basePrice));
      case PerArea =>
        basePrice := t.basePrice * inputs.area;
        entry := Base(categoryLabel, AreaPrice(t.name, inputs.area, t.basePrice, basePrice));
      case RetainingWall =>
        basePrice := t.basePrice * inputs.wallSections;
        var sectionsPrice := basePrice;
        var lengthLine: Option<LengthSurcharge> := None;
        if inputs.additionalLength > 0.0 {
          var lengthMultiplier := (inputs.additionalLength / WallLengthStep).Floor;
          StepsAreFloor(inputs.additionalLength, lengthMultiplier);
          if lengthMultiplier > 0 {
            var lengthAddition := (t.basePrice * inputs.wallSections * WallLengthRate) * lengthMultiplier as real;
            basePrice := basePrice + lengthAddition;
            lengthLine := Some(LengthSurcharge(inputs.additionalLength, lengthAddition));
            assert lengthAddition == LengthSurchargeAmount(t, inputs);
          }
        }
        if lengthLine.None? {
          NoStepsNoSurcharge(t, inputs);
        }
        entry := Base(categoryLabel, WallPrice(inputs.wallSections, t.basePrice, sectionsPrice, lengthLine));
    }
  }

  /**
   * The crane surcharge, then the complexity, acceleration and supervision surcharges, each
   * computed on the running price; returns the final price and the surcharge lines.
   */
  method ApplyAdditions(t: ConstructionType, inputs: FormState, category: string, basePrice: real)
    returns (price: real, additionsLog: seq<Addition>)
    requires basePrice == BasePrice(t, inputs)
    ensures price == AfterSupervision(t, inputs, category)
    ensures additionsLog == AppliedAdditions(t, inputs, category)
  {
    price := basePrice;
    additionsLog := [];

    if inputs.hasCrane && (category == "V" || category == "VI") {
      var craneAddition := inputs.area * CranePricePerSquareMetre;
      price := price + craneAddition;
      additionsLog := additionsLog + [Crane(inputs.area, craneAddition)];
    }

    assert price == AfterCrane(t, inputs, category);
    assert additionsLog == CraneLine(inputs, category);

    var showCoefficients := category != "I" && category != "VII";

    if showCoefficients {
      if inputs.hasComplexity && inputs.complexityPercentage > 0.0 {
        var priceBeforeComplexity := price;
        var complexityAddition := priceBeforeComplexity * (inputs.complexityPercentage / 100.0);
        price := price + complexityAddition;
        additionsLog := additionsLog + [Complexity(inputs.complexityPercentage, priceBeforeComplexity, complexityAddition)];
      }
      assert price == AfterComplexity(t, inputs, category);
      assert additionsLog == CraneLine(inputs, category) + ComplexityLine(t, inputs, category);

      if inputs.isAccelerated {
        var priceBeforeAcceleration := price;
        var accelerationAddition := priceBeforeAcceleration * AccelerationRate;
        price := price + accelerationAddition;
        additionsLog := additionsLog + [Acceleration(priceBeforeAcceleration, accelerationAddition)];
      }
      assert price == AfterAcceleration(t, inputs, category);
      assert additionsLog == CraneLine(inputs, category) + ComplexityLine(t, inputs, category)
        + AccelerationLine(t, inputs, category);

      if inputs.includeSupervision {
        var priceBeforeSupervision := price;
        var supervisionAddition := priceBeforeSupervision * SupervisionRate;
        price := price + supervisionAddition;
        additionsLog := additionsLog + [Supervision(priceBeforeSupervision, supervisionAddition)];
      }
    } else {
      assert AppliedAdditions(t, inputs, category) == CraneLine(inputs, category) + [] + [] + [];
    }
  }
}
