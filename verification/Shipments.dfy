/**
 * The shipment record: its status machine with the history it writes, and the pre-save hook
 * that derives weights and profits a second time.
 */
module Shipments {
  import opened Prelude
  import opened Rounding
  import Pricing

  datatype Status = ORDER_CREATED | PICKED_UP | ARRIVED_AT_HUB | OUT_FOR_DELIVERY | DELIVERED | DELIVERY_FAILED | RTO | CANCELLED

  datatype StatusEvent = StatusEvent(status: Status, updatedBy: Option<string>, note: Option<string>)

  datatype TransitionError = InvalidTransition(from: Status, to: Status)

  /** STATUS_TRANSITIONS */
  function Allowed(from: Status): seq<Status> {
    match from
    case ORDER_CREATED => [PICKED_UP, CANCELLED]
    case PICKED_UP => [ARRIVED_AT_HUB]
    case ARRIVED_AT_HUB => [OUT_FOR_DELIVERY]
    case OUT_FOR_DELIVERY => [DELIVERED, DELIVERY_FAILED]
    case DELIVERY_FAILED => [OUT_FOR_DELIVERY, RTO]
    case DELIVERED => []
    case RTO => []
    case CANCELLED => []
  }

  /** The fields that the save hook reads or writes. */
  datatype Costs = Costs(weight: Option<real>, declaredWeight: Option<real>,
                         length: Option<real>, breadth: Option<real>, height: Option<real>,
                         volumetricWeight: real, billingWeight: real, distributorId: Option<string>,
                         carrierCost: Option<real>, distributorCost: Option<real>, merchantCost: Option<real>,
                         vexaroProfit: real, distributorProfit: real)

  class Shipment {
    var status: Status
    var statusHistory: seq<StatusEvent>
    var deliveredAt: Option<int>
    var costs: Costs

    /** A booking writes the first history entry itself. */
    constructor (costs: Costs, updatedBy: Option<string>, note: Option<string>)
      ensures Valid() && status == ORDER_CREATED && this.costs == costs
      ensures statusHistory == [StatusEvent(ORDER_CREATED, updatedBy, note)] && deliveredAt == None
    {
      this.status := ORDER_CREATED;
      this.statusHistory := [StatusEvent(ORDER_CREATED, updatedBy, note)];
      this.deliveredAt := None;
      this.costs := costs;
    }

    predicate CanTransitionTo(next: Status)
      reads this`status
    {
      next in Allowed(status)
    }

    /** The history records how the shipment came to its status. */
    ghost predicate Valid()
      reads this
    {
      && Records(statusHistory, status)
      && (deliveredAt.Some? <==> status == DELIVERED)
    }

    method TransitionTo(next: Status, updatedBy: Option<string>, note: Option<string>, now: int)
      returns (r: Result<(), TransitionError>)
      requires Valid()
      modifies this`status, this`statusHistory, this`deliveredAt
      ensures Valid()
      ensures r.Ok? <==> next in Allowed(old(status))
      ensures r.Ok? ==> status == next && statusHistory == old(statusHistory) + [StatusEvent(next, updatedBy, note)]
      ensures r.Ok? ==> deliveredAt == if next == DELIVERED then Some(now) else old(deliveredAt)
      ensures r.Err? ==> r.error == InvalidTransition(status, next)
      ensures r.Err? ==> status == old(status) && statusHistory == old(statusHistory) && deliveredAt == old(deliveredAt)
    {
      if !CanTransitionTo(next) {
        return Err(InvalidTransition(status, next));
      }
      HistoryGrows(statusHistory, status, StatusEvent(next, updatedBy, note));
      status := next;
      statusHistory := statusHistory + [StatusEvent(next, updatedBy, note)];
      if next == DELIVERED {
        deliveredAt := Some(now);
      }
      return Ok(());
    }

    method PreSave()
      modifies this`costs
      ensures costs == Saved(old(costs))
    {
      if costs.weight.Some? && costs.declaredWeight.GetOr(0.0) == 0.0 {
        costs := costs.(declaredWeight := costs.weight);
      }
      if costs.declaredWeight.Some? {
        costs := costs.(weight := costs.declaredWeight);
      }
      costs := costs.(volumetricWeight := HookVolumetricWeight(costs.length, costs.breadth, costs.height));
      costs := costs.(billingWeight := MaxReal(costs.declaredWeight.GetOr(0.0), costs.volumetricWeight));
      if costs.carrierCost.Some? {
        if costs.distributorId.Some? && costs.distributorCost.Some? {
          costs := costs.(vexaroProfit := ToFixed2(costs.distributorCost.value - costs.carrierCost.value));
        } else if costs.merchantCost.Some? {
          costs := costs.(vexaroProfit := ToFixed2(costs.merchantCost.value - costs.carrierCost.value));
        }
      }
      if costs.distributorId.Some? && costs.merchantCost.Some? && costs.distributorCost.Some? {
        costs := costs.(distributorProfit := ToFixed2(costs.merchantCost.value - costs.distributorCost.value));
      } else {
        costs := costs.(distributorProfit := 0.0);
      }
    }
  }

  // ----- histories -----

  function Statuses(history: seq<StatusEvent>): (statuses: seq<Status>)
    ensures |statuses| == |history| && forall i | 0 <= i < |history| :: statuses[i] == history[i].status
  {
    seq(|history|, i requires 0 <= i < |history| => history[i].status)
  }

  /** The status a shipment has after a history; every shipment starts as an order. */
  function StatusAfter(h: seq<Status>): Status {
    if h == [] then ORDER_CREATED else h[|h| - 1]
  }

  predicate IsAllowed(before: seq<Status>, s: Status) {
    s in Allowed(StatusAfter(before))
  }

  /** Every entry was allowed in the status that the entries before it led to. */
  ghost predicate IsRun(h: seq<Status>) {
    AtEachTurn(h, IsAllowed)
  }

  /** A run goes on exactly as the table allows. */
  lemma {:induction false} RunSnocIff(h: seq<Status>, s: Status)
    ensures IsRun(h + [s]) <==> IsRun(h) && s in Allowed(StatusAfter(h))
  {
    AtEachTurnSnoc(h + [s], IsAllowed);
    assert (h + [s])[..|h|] == h;
  }

  /** A booking entry, and then one allowed entry after another up to this status */
  predicate Records(history: seq<StatusEvent>, status: Status) {
    if |history| < 2 then history != [] && history[0].status == status == ORDER_CREATED
    else
      var init, last := history[..|history| - 1], history[|history| - 1];
      last.status == status && status in Allowed(init[|init| - 1].status) && Records(init, init[|init| - 1].status)
  }

  /** Appending an allowed entry extends the record. */
  lemma {:induction false} HistoryGrows(history: seq<StatusEvent>, status: Status, e: StatusEvent)
    requires Records(history, status) && e.status in Allowed(status)
    ensures Records(history + [e], e.status)
  {
    assert (history + [e])[..|history|] == history;
    assert history[|history| - 1].status == status;
  }

  /** After its booking entry, a history records exactly the runs of the machine that end in the status. */
  lemma {:induction false} HistoriesAreRuns(history: seq<StatusEvent>, status: Status)
    requires history != [] && history[0].status == ORDER_CREATED
    ensures Records(history, status) <==> IsRun(Statuses(history[1..])) && status == StatusAfter(Statuses(history[1..]))
  {
    if |history| >= 2 {
      var init, last := history[..|history| - 1], history[|history| - 1];
      var before := init[|init| - 1].status;
      HistoriesAreRuns(init, before);
      assert Statuses(history[1..]) == Statuses(init[1..]) + [last.status];
      assert before == StatusAfter(Statuses(init[1..]));
      RunSnocIff(Statuses(init[1..]), last.status);
    }
  }

  predicate Terminal(s: Status) {
    s == DELIVERED || s == RTO || s == CANCELLED
  }

  /**
   * The shape of a history, entry by entry: pickup and hub in the first two places (or a
   * cancellation instead), then delivery attempts in even places, each followed by its outcome;
   * a failed attempt leads to the next attempt or to the return. Nothing follows a terminal entry.
   */
  ghost predicate HasShape(h: seq<Status>) {
    forall i | 0 <= i < |h| ::
      && (i == 0 ==> h[i] == PICKED_UP || h[i] == CANCELLED)
      && (i == 1 ==> h[i] == ARRIVED_AT_HUB)
      && (i == 2 ==> h[i] == OUT_FOR_DELIVERY)
      && (i >= 3 && i % 2 == 1 ==> h[i] == DELIVERED || h[i] == DELIVERY_FAILED)
      && (i >= 4 && i % 2 == 0 ==> h[i] == OUT_FOR_DELIVERY || h[i] == RTO)
      && (Terminal(h[i]) ==> i == |h| - 1)
  }

  /** The runs of the machine are exactly the histories of that shape. */
  lemma {:induction false} RunsHaveShape(h: seq<Status>)
    ensures IsRun(h) <==> HasShape(h)
  {
    if h != [] {
      var n := |h| - 1;
      var g := h[..n];
      RunsHaveShape(g);
      AtEachTurnSnoc(h, IsAllowed);
      LastEntryShape(h);
    }
  }

  lemma {:induction false} LastEntryShape(h: seq<Status>)
    requires h != []
    ensures var n := |h| - 1;
      HasShape(h) <==> HasShape(h[..n]) && h[n] in Allowed(StatusAfter(h[..n]))
  {
    var n := |h| - 1;
    var g := h[..n];
    assert forall i | 0 <= i < n :: g[i] == h[i];
    if HasShape(h) {
      assert forall i | 0 <= i < n :: !Terminal(h[i]);
      assert HasShape(g);
    }
    if HasShape(g) && h[n] in Allowed(StatusAfter(g)) {
      assert n > 0 ==> g[n - 1] == h[n - 1];
    }
  }

  function Count(h: seq<Status>, s: Status): nat {
    if h == [] then 0 else Count(h[..|h| - 1], s) + (if h[|h| - 1] == s then 1 else 0)
  }

  /** Every attempt is answered by a failure, except the last one while it is under way or has succeeded. */
  lemma {:induction false} AttemptsAndFailures(h: seq<Status>)
    requires IsRun(h)
    ensures Count(h, OUT_FOR_DELIVERY) == Count(h, DELIVERY_FAILED)
            + (if StatusAfter(h) == OUT_FOR_DELIVERY || StatusAfter(h) == DELIVERED then 1 else 0)
  {
    if h != [] {
      var n := |h| - 1;
      var g := h[..n];
      RunsHaveShape(h);
      LastEntryShape(h);
      RunsHaveShape(g);
      AttemptsAndFailures(g);
    }
  }

  /** Pickup and hub come once, in this order, before any attempt; a return follows a failure; a cancellation stands alone. */
  lemma {:induction false} HistoryOrder(h: seq<Status>, i: nat)
    requires IsRun(h) && i < |h|
    ensures h[i] == PICKED_UP ==> i == 0
    ensures h[i] == ARRIVED_AT_HUB ==> i == 1 && h[0] == PICKED_UP
    ensures h[i] == OUT_FOR_DELIVERY ==> i >= 2 && h[0] == PICKED_UP && h[1] == ARRIVED_AT_HUB
    ensures h[i] == RTO ==> i >= 4 && h[i - 1] == DELIVERY_FAILED
    ensures h[i] == CANCELLED ==> |h| == 1
  {
    assert HasShape(h) by { RunsHaveShape(h); }
    ShapeOrder(h, i);
  }

  lemma ShapeOrder(h: seq<Status>, i: nat)
    requires HasShape(h) && i < |h|
    ensures h[i] == PICKED_UP ==> i == 0
    ensures h[i] == ARRIVED_AT_HUB ==> i == 1 && h[0] == PICKED_UP
    ensures h[i] == OUT_FOR_DELIVERY ==> i >= 2 && h[0] == PICKED_UP && h[1] == ARRIVED_AT_HUB
    ensures h[i] == RTO ==> i >= 4 && h[i - 1] == DELIVERY_FAILED
    ensures h[i] == CANCELLED ==> |h| == 1
  {
    if i > 0 { assert !Terminal(h[i - 1]) && !Terminal(h[0]); }
    if i > 1 { assert !Terminal(h[1]); }
  }

  /** Nothing follows a terminal entry, and every other status can be left. */
  lemma TerminalStatusesEnd(h: seq<Status>)
    requires IsRun(h)
    ensures Terminal(StatusAfter(h)) <==> forall s :: !IsRun(h + [s])
  {
    forall s ensures IsRun(h + [s]) <==> s in Allowed(StatusAfter(h)) {
      RunSnocIff(h, s);
    }
    var exit := if Allowed(StatusAfter(h)) == [] then ORDER_CREATED else Allowed(StatusAfter(h))[0];
    assert IsRun(h + [exit]) <==> exit in Allowed(StatusAfter(h));
  }

  // ----- the save hook -----

  /** The hook's own copy of the volumetric weight formula. */
  function HookVolumetricWeight(length: Option<real>, breadth: Option<real>, height: Option<real>): real {
    var l, b, h := length.GetOr(0.0), breadth.GetOr(0.0), height.GetOr(0.0);
    if l != 0.0 && b != 0.0 && h != 0.0 then ToFixed2(l * b * h / 5000.0) else 0.0
  }

  /** The hook's effect, field by field. */
  function Saved(c: Costs): Costs {
    var declared := if c.weight.Some? && c.declaredWeight.GetOr(0.0) == 0.0 then c.weight else c.declaredWeight;
    var volumetric := HookVolumetricWeight(c.length, c.breadth, c.height);
    var payer := if c.distributorId.Some? && c.distributorCost.Some? then c.distributorCost else c.merchantCost;
    c.(weight := if declared.Some? then declared else c.weight,
       declaredWeight := declared,
       volumetricWeight := volumetric,
       billingWeight := MaxReal(declared.GetOr(0.0), volumetric),
       vexaroProfit := if c.carrierCost.Some? && payer.Some? then ToFixed2(payer.value - c.carrierCost.value) else c.vexaroProfit,
       distributorProfit := if c.distributorId.Some? && c.merchantCost.Some? && c.distributorCost.Some?
                            then ToFixed2(c.merchantCost.value - c.distributorCost.value) else 0.0)
  }

  /** After a save weight and declared weight are one: the declared one, unless that is missing or zero and there is a weight. */
  lemma {:induction false} SaveUnitesWeights(c: Costs)
    ensures var s := Saved(c);
      && (s.weight == s.declaredWeight)
      && (c.declaredWeight.Some? && c.declaredWeight.value != 0.0 ==> s.weight == c.declaredWeight)
      && (c.weight.Some? && (c.declaredWeight.None? || c.declaredWeight.value == 0.0) ==> s.weight == c.weight)
  {
  }

  /** Saving twice is saving once. */
  lemma {:induction false} SaveIsIdempotent(c: Costs)
    ensures Saved(Saved(c)) == Saved(c)
  {
    var s := Saved(c);
    assert s.weight.Some? && s.declaredWeight.GetOr(0.0) == 0.0 ==> s.weight == s.declaredWeight;
  }

  /** A shipment booked at a calculated price carries its costs, its weight and its dimensions. */
  ghost function Booked(c: Costs, p: Pricing.Params): Costs
    requires p.rateCard.weightSlabs != []
  {
    Pricing.PricedUnlessEmpty(p);
    var price := Pricing.CalculateShippingCost(p).value;
    c.(weight := p.declaredWeight, declaredWeight := p.declaredWeight,
       length := p.length, breadth := p.breadth, height := p.height, distributorId := p.distributorId,
       carrierCost := Some(price.carrierCost), distributorCost := Some(price.distributorCost),
       merchantCost := Some(price.merchantCost))
  }

  lemma VolumetricWeightsAgree(c: Costs)
    ensures HookVolumetricWeight(c.length, c.breadth, c.height) == Pricing.CalculateVolumetricWeight(c.length, c.breadth, c.height)
  {
  }

  /** The hook derives the weights and profits that the price calculation had. */
  lemma {:induction false} SaveAgreesWithPricing(c: Costs, p: Pricing.Params)
    requires p.rateCard.weightSlabs != []
    ensures Pricing.CalculateShippingCost(p).Ok?
    ensures var s, price := Saved(Booked(c, p)), Pricing.CalculateShippingCost(p).value;
      && s.volumetricWeight == price.volumetricWeight && s.billingWeight == price.billingWeight
      && s.vexaroProfit == price.vexaroProfit && s.distributorProfit == price.distributorProfit
      && price.merchantCost == price.carrierCost + s.vexaroProfit + s.distributorProfit
  {
    VolumetricWeightsAgree(Booked(c, p));
    Pricing.CostSplitsExactly(p);
  }
}
