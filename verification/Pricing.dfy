/**
 * Shipping prices: weight-slab lookup, the booking price with its chain of two-decimal
 * roundings, and the quote that rate.service.js computes with its own copy of both.
 */
module Pricing {
  import opened Prelude
  import opened Rounding
  import opened Sorting

  const VOLUMETRIC_DIVISOR := 5000.0
  const DEFAULT_SUPER_ADMIN_MARKUP := 25.0

  datatype Slab = Slab(upToKg: real, ratePerKg: real, baseRate: Option<real>)

  datatype RateCard = RateCard(weightSlabs: seq<Slab>, fuelSurcharge: real, codCharge: real, codPercent: real,
                               superAdminMarkupPercent: Option<real>)

  datatype MarginConfig = MarginConfig(marginPercent: Option<real>, flatMargin: Option<real>)

  datatype Params = Params(rateCard: RateCard, marginConfig: Option<MarginConfig>, distributorId: Option<string>,
                           declaredWeight: Option<real>,
                           length: Option<real>, breadth: Option<real>, height: Option<real>,
                           isCOD: bool, codAmount: real)

  datatype CostBreakdown = CostBreakdown(volumetricWeight: real, billingWeight: real,
                                         baseCharge: real, fuelCharge: real, codCharge: real,
                                         carrierCost: real, distributorCost: real, merchantCost: real,
                                         vexaroProfit: real, distributorProfit: real)

  datatype PricingError = NoMatchingSlab | SlabUndefined

  // ----- pricing.helpers.js -----

  /** A missing dimension and a zero one count alike. */
  function CalculateVolumetricWeight(length: Option<real>, breadth: Option<real>, height: Option<real>): real {
    var l, b, h := length.GetOr(0.0), breadth.GetOr(0.0), height.GetOr(0.0);
    if l == 0.0 || b == 0.0 || h == 0.0 then 0.0 else ToFixed2(l * b * h / VOLUMETRIC_DIVISOR)
  }

  function CalculateBillingWeight(declaredWeight: Option<real>, volumetricWeight: real): real {
    MaxReal(declaredWeight.GetOr(0.0), volumetricWeight)
  }

  // ----- pricing.rules.js -----

  function Bound(s: Slab): real {
    s.upToKg
  }

  function FirstFit(sorted: seq<Slab>, weight: real): Option<Slab> {
    if sorted == [] then None
    else if weight <= sorted[0].upToKg then Some(sorted[0])
    else FirstFit(sorted[1..], weight)
  }

  function FindMatchingSlab(slabs: seq<Slab>, weight: real): Option<Slab> {
    var sorted := StableSort(slabs, Bound);
    var fit := FirstFit(sorted, weight);
    if fit.Some? || sorted == [] then fit else Some(sorted[|sorted| - 1])
  }

  ghost predicate DistinctBounds(slabs: seq<Slab>) {
    forall i, j | 0 <= i < j < |slabs| :: slabs[i].upToKg != slabs[j].upToKg
  }

  lemma {:induction false} FirstFitIndex(sorted: seq<Slab>, weight: real) returns (i: nat)
    ensures i <= |sorted|
    ensures forall j | 0 <= j < i :: sorted[j].upToKg < weight
    ensures i < |sorted| ==> weight <= sorted[i].upToKg && FirstFit(sorted, weight) == Some(sorted[i])
    ensures i == |sorted| ==> FirstFit(sorted, weight) == None
  {
    if sorted == [] || weight <= sorted[0].upToKg {
      i := 0;
    } else {
      var k := FirstFitIndex(sorted[1..], weight);
      i := k + 1;
      forall j | 0 <= j < i ensures sorted[j].upToKg < weight {
        if j > 0 { assert sorted[j] == sorted[1..][j - 1]; }
      }
    }
  }

  /** Where the first and the last element with a given key stand. */
  lemma {:induction false} WithKeyEnds<T>(xs: seq<T>, key: T -> real, i: nat)
    requires i < |xs|
    ensures var same := WithKey(xs, key, key(xs[i]));
      && same != []
      && ((forall j | 0 <= j < i :: key(xs[j]) != key(xs[i])) ==> same[0] == xs[i])
      && ((forall j | i < j < |xs| :: key(xs[j]) != key(xs[i])) ==> same[|same| - 1] == xs[i])
    decreases |xs|
  {
    var k := key(xs[i]);
    var init, last := xs[..|xs| - 1], xs[|xs| - 1];
    if i < |xs| - 1 {
      WithKeyEnds(init, key, i);
      assert init[i] == xs[i];
      assert (forall j | 0 <= j < i :: key(xs[j]) != k) ==> forall j | 0 <= j < i :: key(init[j]) != k;
      assert (forall j | i < j < |xs| :: key(xs[j]) != k) ==> forall j | i < j < |init| :: key(init[j]) != k;
    } else {
      WithKeyAbsent(init, key, k);
    }
  }

  lemma {:induction false} WithKeyAbsent<T>(xs: seq<T>, key: T -> real, k: real)
    ensures (forall j | 0 <= j < |xs| :: key(xs[j]) != k) ==> WithKey(xs, key, k) == []
  {
    if xs != [] { WithKeyAbsent(xs[..|xs| - 1], key, k); }
  }

  /** FindMatchingSlab reads one position of the sorted slabs. */
  lemma LookupPosition(slabs: seq<Slab>, weight: real) returns (sorted: seq<Slab>, at: nat)
    requires slabs != []
    ensures sorted == StableSort(slabs, Bound) && SortedBy(sorted, Bound) && forall s :: s in sorted <==> s in slabs
    ensures at < |sorted| && FindMatchingSlab(slabs, weight) == Some(sorted[at])
    ensures forall j | 0 <= j < at :: sorted[j].upToKg < weight
    ensures weight <= sorted[at].upToKg || at == |sorted| - 1
  {
    sorted := StableSort(slabs, Bound);
    StableSortFacts(slabs, Bound);
    StableSortMembers(slabs, Bound);
    var i := FirstFitIndex(sorted, weight);
    at := if i < |sorted| then i else |sorted| - 1;
  }

  ghost predicate SomeSlabCarries(slabs: seq<Slab>, weight: real) {
    exists s :: s in slabs && weight <= s.upToKg
  }

  /**
   * What the sort and the search amount to, for slabs stored in any order: the least bound
   * that carries the weight, or else the greatest bound.
   */
  lemma SlabLookup(slabs: seq<Slab>, weight: real)
    ensures FindMatchingSlab(slabs, weight).None? <==> slabs == []
    ensures slabs != [] ==>
      var r := FindMatchingSlab(slabs, weight).value;
      && r in slabs
      && (if SomeSlabCarries(slabs, weight)
          then weight <= r.upToKg && forall s | s in slabs && weight <= s.upToKg :: r.upToKg <= s.upToKg
          else forall s | s in slabs :: s.upToKg <= r.upToKg)
  {
    if slabs != [] {
      var sorted, at := LookupPosition(slabs, weight);
      var r := sorted[at];
      assert r in sorted;
      forall s | s in slabs
        ensures weight <= s.upToKg ==> weight <= r.upToKg <= s.upToKg
        ensures r.upToKg < weight ==> s.upToKg <= r.upToKg
      {
        var j :| 0 <= j < |sorted| && sorted[j] == s;
        assert j < at || j == at || Bound(sorted[at]) <= Bound(sorted[j]);
        assert j > at || j == at || Bound(sorted[j]) <= Bound(sorted[at]);
      }
    }
  }

  /** Among slabs that share the chosen bound it is the one stored first when it carries the weight, else the last. */
  lemma SlabLookupTies(slabs: seq<Slab>, weight: real)
    requires slabs != []
    ensures FindMatchingSlab(slabs, weight).Some?
    ensures var r := FindMatchingSlab(slabs, weight).value;
      var same := WithKey(slabs, Bound, r.upToKg);
      same != [] && r == same[if weight <= r.upToKg then 0 else |same| - 1]
  {
    var sorted, at := LookupPosition(slabs, weight);
    StableSortFacts(slabs, Bound);
    WithKeyEnds(sorted, Bound, at);
    assert Bound(sorted[at]) == sorted[at].upToKg;
  }

  /** With distinct bounds the order in which a card stores its slabs does not matter. */
  lemma SlabLookupIgnoresStorageOrder(slabs: seq<Slab>, stored: seq<Slab>, weight: real)
    requires DistinctBounds(slabs) && forall s :: s in slabs <==> s in stored
    ensures FindMatchingSlab(slabs, weight) == FindMatchingSlab(stored, weight)
  {
    SlabLookup(slabs, weight);
    SlabLookup(stored, weight);
    assert stored != [] ==> stored[0] in stored;
    if slabs != [] {
      assert slabs[0] in stored;
      var r, q := FindMatchingSlab(slabs, weight).value, FindMatchingSlab(stored, weight).value;
      assert SomeSlabCarries(slabs, weight) == SomeSlabCarries(stored, weight);
      var i :| 0 <= i < |slabs| && slabs[i] == r;
      var j :| 0 <= j < |slabs| && slabs[j] == q;
    }
  }

  // ----- pricing.service.js -----

  datatype Charges = Charges(base: real, fuel: real, cod: real) {
    function Total(): real {
      base + fuel + cod
    }
  }

  function BaseCharge(slab: Slab, weight: real): real {
    slab.baseRate.GetOr(0.0) + slab.ratePerKg * weight
  }

  function FuelCharge(card: RateCard, baseCharge: real): real {
    baseCharge * (card.fuelSurcharge / 100.0)
  }

  function CarrierCharges(card: RateCard, slab: Slab, weight: real, isCOD: bool, codAmount: real): Charges {
    var baseCharge := BaseCharge(slab, weight);
    var codCharge := if isCOD then card.codCharge + codAmount * card.codPercent / 100.0 else 0.0;
    Charges(baseCharge, FuelCharge(card, baseCharge), codCharge)
  }

  /** A price times a factor, to two decimals. */
  function MarkUp(price: real, factor: real): (r: real)
    ensures IsPaise(r) && Within(r, price * factor, 0.005)
  {
    ToFixed2(price * factor)
  }

  /** The distributor's own margin: a rounded share of its cost and a flat amount. */
  function AddMargin(distributorCost: real, share: real, flat: real): (r: real)
    ensures IsPaise(r)
    ensures Within(r, distributorCost + MarkUp(distributorCost, share) + flat, 0.005)
  {
    ToFixed2(distributorCost + MarkUp(distributorCost, share) + flat)
  }

  function DistributorCost(p: Params, carrierCost: real): real {
    if p.distributorId.Some? then MarkUp(carrierCost, MarkupFactor(p)) else carrierCost
  }

  function MerchantCost(p: Params, carrierCost: real): real {
    if p.distributorId.Some? && p.marginConfig.Some?
    then AddMargin(DistributorCost(p, carrierCost), MarginFraction(p), FlatMargin(p))
    else MarkUp(carrierCost, MarkupFactor(p))
  }

  function MarkupFactor(p: Params): real {
    1.0 + p.rateCard.superAdminMarkupPercent.GetOr(DEFAULT_SUPER_ADMIN_MARKUP) / 100.0
  }

  function MarginFraction(p: Params): real {
    if p.distributorId.Some? && p.marginConfig.Some? then p.marginConfig.value.marginPercent.GetOr(0.0) / 100.0 else 0.0
  }

  function FlatMargin(p: Params): real {
    if p.distributorId.Some? && p.marginConfig.Some? then p.marginConfig.value.flatMargin.GetOr(0.0) else 0.0
  }

  function CalculateShippingCost(p: Params): Result<CostBreakdown, PricingError> {
    var volumetricWeight := CalculateVolumetricWeight(p.length, p.breadth, p.height);
    var billingWeight := CalculateBillingWeight(p.declaredWeight, volumetricWeight);
    var found := FindMatchingSlab(p.rateCard.weightSlabs, billingWeight);
    if found.None? then Err(NoMatchingSlab)
    else
      var charges := CarrierCharges(p.rateCard, found.value, billingWeight, p.isCOD, p.codAmount);
      var carrierCost := ToFixed2(charges.Total());
      var distributorCost := DistributorCost(p, carrierCost);
      var merchantCost := MerchantCost(p, carrierCost);
      var vexaroProfit := ToFixed2((if p.distributorId.Some? then distributorCost else merchantCost) - carrierCost);
      var distributorProfit := if p.distributorId.Some? then ToFixed2(merchantCost - distributorCost) else 0.0;
      Ok(CostBreakdown(volumetricWeight, billingWeight,
                       ToFixed2(charges.base), ToFixed2(charges.fuel), ToFixed2(charges.cod),
                       carrierCost, distributorCost, merchantCost, vexaroProfit, distributorProfit))
  }

  /** Pricing fails only on a card without slabs. */
  lemma PricedUnlessEmpty(p: Params)
    ensures CalculateShippingCost(p).Ok? <==> p.rateCard.weightSlabs != []
  {
    SlabLookup(p.rateCard.weightSlabs, CalculateBillingWeight(p.declaredWeight, CalculateVolumetricWeight(p.length, p.breadth, p.height)));
  }

  /** No paisa appears or disappears between what the merchant pays and who receives it. */
  lemma {:induction false} CostSplitsExactly(p: Params)
    requires p.rateCard.weightSlabs != []
    ensures CalculateShippingCost(p).Ok?
    ensures var c := CalculateShippingCost(p).value;
      && c.merchantCost == c.carrierCost + c.vexaroProfit + c.distributorProfit
      && (p.distributorId.Some? ==> c.distributorCost == c.carrierCost + c.vexaroProfit)
      && (p.distributorId.None? ==> c.distributorCost == c.carrierCost && c.distributorProfit == 0.0)
      && IsPaise(c.carrierCost) && IsPaise(c.distributorCost) && IsPaise(c.merchantCost)
      && IsPaise(c.vexaroProfit) && IsPaise(c.distributorProfit)
  {
    PricedUnlessEmpty(p);
    var c := CalculateShippingCost(p).value;
    ToFixed2OfDifference(c.distributorCost, c.carrierCost);
    ToFixed2OfDifference(c.merchantCost, c.carrierCost);
    ToFixed2OfDifference(c.merchantCost, c.distributorCost);
    assert 0.0 == Paise(0);
  }

  /** The merchant's price without rounding, from the marked-up price. */
  function UnroundedMerchantCost(price: real, q: real, flat: real): real {
    price * (1.0 + q) + flat
  }

  /** An error of at most e, scaled by f, is an error of at most e * |f|. */
  lemma {:induction false} ScaledError(x: real, y: real, f: real, e: real)
    requires Within(x, y, e)
    ensures Within(x * f, y * f, e * Abs(f))
  {
    var d := x - y;
    assert x * f == y * f + d * f;
    if f >= 0.0 {
      assert -e * f <= d * f <= e * f;
    } else {
      assert -e * -f <= d * -f <= e * -f;
    }
  }

  /** Two roundings after a price that is already off by e. */
  lemma MarginDrift(price: real, q: real, flat: real, dc: real, dm: real, mc: real, e: real)
    requires Within(dc, price, e) && Within(dm, dc * q, 0.005) && Within(mc, dc + dm + flat, 0.005)
    ensures Within(mc, price * (1.0 + q) + flat, 0.01 + e * Abs(1.0 + q))
  {
    ScaledError(dc, price, 1.0 + q, e);
  }

  /** Two roundings behind a price with markup factor f ... */
  function MarkUpBound(f: real): real {
    0.005 + 0.005 * Abs(f)
  }

  /** ... and two more after an error of e, with margin fraction q. */
  function MarginBound(e: real, q: real): real {
    0.01 + e * Abs(1.0 + q)
  }

  /** The unrounded carrier charge behind a booking, and how its price follows from it. */
  ghost function BookedCharge(p: Params): (charge: real)
    requires p.rateCard.weightSlabs != []
    ensures CalculateShippingCost(p).Ok?
    ensures CalculateShippingCost(p).value.carrierCost == ToFixed2(charge)
    ensures CalculateShippingCost(p).value.merchantCost == MerchantCost(p, ToFixed2(charge))
    ensures CalculateShippingCost(p).value.distributorCost == DistributorCost(p, ToFixed2(charge))
  {
    PricedUnlessEmpty(p);
    var weight := CalculateShippingCost(p).value.billingWeight;
    CarrierCharges(p.rateCard, FindMatchingSlab(p.rateCard.weightSlabs, weight).value, weight, p.isCOD, p.codAmount).Total()
  }

  /** The rates of a booking: a markup of 25 percent unless the card has one, and the margin's share and flat part, where a distributor has one. */
  predicate HasRates(p: Params, factor: real, share: real, flat: real) {
    && factor == 1.0 + (if p.rateCard.superAdminMarkupPercent.Some? then p.rateCard.superAdminMarkupPercent.value else 25.0) / 100.0
    && (if p.distributorId.Some? && p.marginConfig.Some?
        then share == p.marginConfig.value.marginPercent.GetOr(0.0) / 100.0 && flat == p.marginConfig.value.flatMargin.GetOr(0.0)
        else share == 0.0 && flat == 0.0)
  }

  /** The unrounded charge: base rate and rate per kilogram, with the fuel surcharge on top, and for cash on delivery a fixed and a proportional part. */
  lemma {:induction false} ChargesTotal(card: RateCard, slab: Slab, weight: real, isCOD: bool, codAmount: real, base: real, fuel: real)
    requires base == slab.baseRate.GetOr(0.0) + slab.ratePerKg * weight && fuel == card.fuelSurcharge / 100.0
    ensures CarrierCharges(card, slab, weight, isCOD, codAmount).Total()
         == base * (1.0 + fuel) + (if isCOD then card.codCharge + codAmount * card.codPercent / 100.0 else 0.0)
  {
    assert base == BaseCharge(slab, weight);
    assert base + FuelCharge(card, base) == base * (1.0 + fuel);
  }

  /** The volumetric weight, in kilograms of 5000 cubic centimetres each. */
  lemma {:induction false} VolumetricWeightIs(length: Option<real>, breadth: Option<real>, height: Option<real>, volume: real)
    requires volume == length.GetOr(0.0) * breadth.GetOr(0.0) * height.GetOr(0.0)
    ensures Within(CalculateVolumetricWeight(length, breadth, height), volume / 5000.0, 0.005)
  {
  }

  /** What a booking is charged for is the larger of the declared and the volumetric weight. */
  lemma {:induction false} BookedChargeIs(p: Params)
    requires p.rateCard.weightSlabs != []
    ensures CalculateShippingCost(p).Ok? && FindMatchingSlab(p.rateCard.weightSlabs, CalculateShippingCost(p).value.billingWeight).Some?
    ensures var c := CalculateShippingCost(p).value;
      && c.volumetricWeight == CalculateVolumetricWeight(p.length, p.breadth, p.height)
      && c.billingWeight == (if p.declaredWeight.GetOr(0.0) > c.volumetricWeight then p.declaredWeight.GetOr(0.0) else c.volumetricWeight)
      && var slab := FindMatchingSlab(p.rateCard.weightSlabs, c.billingWeight).value;
         BookedCharge(p) == CarrierCharges(p.rateCard, slab, c.billingWeight, p.isCOD, p.codAmount).Total()
  {
    PricedUnlessEmpty(p);
  }

  /** How far the chain of roundings can carry the prices from the unrounded formula, for the percentages of the booking. */
  lemma {:induction false} MerchantCostDrift(p: Params, charge: real, price: real)
    requires p.rateCard.weightSlabs != [] && charge == BookedCharge(p) && price == charge * MarkupFactor(p)
    ensures HasRates(p, MarkupFactor(p), MarginFraction(p), FlatMargin(p))
    ensures CalculateShippingCost(p).Ok?
    ensures Within(CalculateShippingCost(p).value.merchantCost,
                   UnroundedMerchantCost(price, MarginFraction(p), FlatMargin(p)),
                   MarginBound(MarkUpBound(MarkupFactor(p)), MarginFraction(p)))
    ensures p.distributorId.Some? ==> Within(CalculateShippingCost(p).value.distributorCost, price, MarkUpBound(MarkupFactor(p)))
  {
    MarkUpDrift(charge, MarkupFactor(p), price);
    DriftFromPrice(p, ToFixed2(charge), price, MarkUpBound(MarkupFactor(p)));
  }

  /** The distributor's price is the carrier's without a distributor, and the merchant's without a margin. */
  lemma {:induction false} CostsCoincide(p: Params)
    requires p.rateCard.weightSlabs != []
    ensures CalculateShippingCost(p).Ok?
    ensures var c := CalculateShippingCost(p).value;
      && Within(c.carrierCost, BookedCharge(p), 0.005)
      && (p.distributorId.None? ==> c.distributorCost == c.carrierCost)
      && (p.distributorId.Some? && p.marginConfig.None? ==> c.merchantCost == c.distributorCost)
  {
  }

  lemma {:induction false} DriftFromPrice(p: Params, cc: real, price: real, e: real)
    requires Within(MarkUp(cc, MarkupFactor(p)), price, e)
    ensures Within(MerchantCost(p, cc), UnroundedMerchantCost(price, MarginFraction(p), FlatMargin(p)),
                   MarginBound(e, MarginFraction(p)))
  {
    if p.distributorId.Some? && p.marginConfig.Some? {
      AddMarginDrift(MarkUp(cc, MarkupFactor(p)), price, MarginFraction(p), FlatMargin(p), e);
    }
  }

  /** For a markup m and a margin q that are not negative, the bound is 0.01 + 0.005 (1 + q) (2 + m). */
  lemma DriftBoundForMarkups(m: real, q: real)
    requires m >= 0.0 && q >= 0.0
    ensures MarginBound(MarkUpBound(1.0 + m), q) == 0.01 + 0.005 * (1.0 + q) * (2.0 + m)
  {
  }

  lemma AddMarginDrift(dc: real, price: real, q: real, flat: real, e: real)
    requires Within(dc, price, e)
    ensures Within(AddMargin(dc, q, flat), UnroundedMerchantCost(price, q, flat), MarginBound(e, q))
  {
    MarginDrift(price, q, flat, dc, MarkUp(dc, q), AddMargin(dc, q, flat), e);
  }

  lemma MarkUpDrift(charge: real, f: real, price: real)
    requires price == charge * f
    ensures Within(MarkUp(ToFixed2(charge), f), price, MarkUpBound(f))
  {
    RoundedMarkUpDrift(charge, f, price, ToFixed2(charge));
  }

  lemma RoundedMarkUpDrift(charge: real, f: real, price: real, cc: real)
    requires price == charge * f && Within(cc, charge, 0.005)
    ensures Within(MarkUp(cc, f), price, MarkUpBound(f))
  {
    TwoRoundings(charge, f, cc, MarkUp(cc, f));
  }

  lemma TwoRoundings(charge: real, f: real, cc: real, dc: real)
    requires Within(cc, charge, 0.005) && Within(dc, cc * f, 0.005)
    ensures Within(dc, charge * f, 0.005 + 0.005 * Abs(f))
  {
    ScaledError(cc, charge, f, 0.005);
  }

  // ----- rate.service.js -----

  datatype Quote = Quote(baseCharge: real, fuelCharge: real, codCharge: real, totalCharge: real)

  function QuoteBound(s: Slab): real {
    s.upToKg
  }

  function QuoteFind(sortedSlabs: seq<Slab>, weight: real): Option<Slab> {
    if sortedSlabs == [] then None
    else if weight <= sortedSlabs[0].upToKg then Some(sortedSlabs[0])
    else QuoteFind(sortedSlabs[1..], weight)
  }

  /** The quote's own copy of the slab lookup. */
  function QuoteSlab(slabs: seq<Slab>, weight: real): Option<Slab> {
    var sortedSlabs := StableSort(slabs, QuoteBound);
    var fit := QuoteFind(sortedSlabs, weight);
    if fit.Some? then fit
    else if |sortedSlabs| == 0 then None
    else Some(sortedSlabs[|sortedSlabs| - 1])
  }

  lemma {:induction false} FindsAgree(sorted: seq<Slab>, weight: real)
    ensures QuoteFind(sorted, weight) == FirstFit(sorted, weight)
  {
    if sorted != [] { FindsAgree(sorted[1..], weight); }
  }

  /** Both copies of the lookup choose the same slab. */
  lemma {:induction false} LookupsAgree(slabs: seq<Slab>, weight: real)
    ensures QuoteSlab(slabs, weight) == FindMatchingSlab(slabs, weight)
  {
    SortBySameKeys(slabs, QuoteBound, Bound);
    FindsAgree(StableSort(slabs, Bound), weight);
  }

  /** The quote's own copy of the charge formulas. */
  function QuoteCharges(card: RateCard, slab: Slab, weight: real, isCOD: bool, codAmount: Option<real>): Charges {
    var baseCharge := slab.baseRate.GetOr(0.0) + (slab.ratePerKg * weight);
    var fuelCharge := baseCharge * (card.fuelSurcharge / 100.0);
    var codCharge := if isCOD then card.codCharge + (codAmount.GetOr(0.0) * card.codPercent / 100.0) else 0.0;
    Charges(baseCharge, fuelCharge, codCharge)
  }

  function WithMargin(total: real, margin: Option<MarginConfig>): real {
    match margin
    case None => total
    case Some(config) => total + total * config.marginPercent.GetOr(0.0) / 100.0 + config.flatMargin.GetOr(0.0)
  }

  /** `margin` is the active margin of the calling merchant's distributor, when there is one. */
  function CalculateRate(card: RateCard, weight: real, isCOD: bool, codAmount: Option<real>,
                         margin: Option<MarginConfig>): Result<Quote, PricingError> {
    var found := QuoteSlab(card.weightSlabs, weight);
    if found.None? then Err(SlabUndefined)
    else
      var charges := QuoteCharges(card, found.value, weight, isCOD, codAmount);
      Ok(Quote(ToFixed2(charges.base), ToFixed2(charges.fuel), ToFixed2(charges.cod), ToFixed2(WithMargin(charges.Total(), margin))))
  }

  lemma SameCharges(card: RateCard, slab: Slab, weight: real, isCOD: bool, codAmount: real)
    ensures QuoteCharges(card, slab, weight, isCOD, Some(codAmount)) == CarrierCharges(card, slab, weight, isCOD, codAmount)
  {
  }

  /**
   * For the weight that booking bills, the quote without a margin is the booking's carrier cost,
   * part by part, and the two fail on the same cards, though with different errors.
   */
  lemma {:induction false} QuoteMatchesBooking(p: Params)
    ensures var weight := CalculateBillingWeight(p.declaredWeight, CalculateVolumetricWeight(p.length, p.breadth, p.height));
      var quote := CalculateRate(p.rateCard, weight, p.isCOD, Some(p.codAmount), None);
      var booking := CalculateShippingCost(p);
      && (quote.Ok? <==> booking.Ok?) && (booking.Err? <==> p.rateCard.weightSlabs == [])
      && (booking.Err? ==> quote.error == SlabUndefined && booking.error == NoMatchingSlab)
      && (booking.Ok? ==> quote.value == Quote(booking.value.baseCharge, booking.value.fuelCharge,
                                               booking.value.codCharge, booking.value.carrierCost))
  {
    var weight := CalculateBillingWeight(p.declaredWeight, CalculateVolumetricWeight(p.length, p.breadth, p.height));
    SlabLookup(p.rateCard.weightSlabs, weight);
    LookupsAgree(p.rateCard.weightSlabs, weight);
    if p.rateCard.weightSlabs != [] {
      SameCharges(p.rateCard, FindMatchingSlab(p.rateCard.weightSlabs, weight).value, weight, p.isCOD, p.codAmount);
    }
  }

  /** The margin that the quote finds for the merchant of a booking */
  function QuotedMargin(p: Params): Option<MarginConfig> {
    if p.distributorId.Some? then p.marginConfig else None
  }

  lemma {:induction false} WithMarginIs(p: Params, total: real, q: real)
    requires q == MarginFraction(p)
    ensures WithMargin(total, QuotedMargin(p)) == UnroundedMerchantCost(total, q, FlatMargin(p))
  {
  }

  /** The quote that a merchant gets for the weight of a booking: from the same charge, with the distributor's margin. */
  lemma {:induction false} QuoteIs(p: Params, weight: real)
    requires p.rateCard.weightSlabs != [] && CalculateShippingCost(p).Ok? && weight == CalculateShippingCost(p).value.billingWeight
    ensures var quote := CalculateRate(p.rateCard, weight, p.isCOD, Some(p.codAmount), QuotedMargin(p));
      quote.Ok? && quote.value.totalCharge == ToFixed2(WithMargin(BookedCharge(p), QuotedMargin(p)))
  {
    SlabLookup(p.rateCard.weightSlabs, weight);
    LookupsAgree(p.rateCard.weightSlabs, weight);
    SameCharges(p.rateCard, FindMatchingSlab(p.rateCard.weightSlabs, weight).value, weight, p.isCOD, p.codAmount);
  }

  /** It lacks the markup: what is booked is dearer by the markup on the charge and on its margin, but for the roundings. */
  lemma {:induction false} QuoteOmitsMarkup(p: Params, weight: real, charge: real, price: real)
    requires p.rateCard.weightSlabs != [] && CalculateShippingCost(p).Ok? && weight == CalculateShippingCost(p).value.billingWeight
    requires charge == BookedCharge(p) && price == charge * MarkupFactor(p)
    ensures var quote := CalculateRate(p.rateCard, weight, p.isCOD, Some(p.codAmount), QuotedMargin(p));
      && quote.Ok?
      && Within(quote.value.totalCharge, UnroundedMerchantCost(charge, MarginFraction(p), FlatMargin(p)), 0.005)
      && Within(CalculateShippingCost(p).value.merchantCost - quote.value.totalCharge,
                UnroundedMerchantCost(price, MarginFraction(p), FlatMargin(p)) - UnroundedMerchantCost(charge, MarginFraction(p), FlatMargin(p)),
                MarginBound(MarkUpBound(MarkupFactor(p)), MarginFraction(p)) + 0.005)
  {
    QuoteIs(p, weight);
    WithMarginIs(p, charge, MarginFraction(p));
    MerchantCostDrift(p, charge, price);
  }
}
