/**
 * The Smart Fill planner: cheapest whole orders first, then at most one partial
 * leg. PlanSmartFill is the planner's loops; Route and the functions under it say
 * what it computes, and SmartFillProofs says what that is worth to the taker.
 */
module SmartFill {
  import opened Wrappers
  import opened ByteStrings
  import opened Decimals
  import opened Sorting
  import opened Pricing
  import opened Sequences
  import opened Orders
  import TokenAmounts

  datatype Mode = Spend | Receive

  datatype Params = Params(
    spendAsset: string,
    receiveAsset: string,
    mode: Mode,
    limit: int,
    maxOrdersPerTx: nat,
    minPartialSpend: int,
    nowPosixMs: int)

  /** takeAmount is present on a partial leg only. */
  datatype Leg = Leg(order: Order, spend: int, receive: int, takeAmount: Option<int>)

  datatype Route = Route(
    legs: seq<Leg>,
    totalSpend: int,
    totalReceive: int,
    transactionCount: nat,
    atomic: bool,
    candidateCount: nat,
    leftover: int)

  predicate Cheaper(a: Order, b: Order) {
    a.requestedAmount * b.offeredAmount < b.requestedAmount * a.offeredAmount
  }

  /** The sort comparator returns -1: cheaper, then bigger offer, then smaller id. */
  predicate Before(a: Order, b: Order) {
    if Cheaper(a, b) then true
    else if Cheaper(b, a) then false
    else if a.offeredAmount != b.offeredAmount then a.offeredAmount > b.offeredAmount
    else StrLess(OrderId(a.ref), OrderId(b.ref))
  }

  predicate Eligible(o: Order, p: Params) {
    && o.status == Open
    && !IsOrderExpired(o, p.nowPosixMs)
    && OfferedAssetId(o) == p.receiveAsset
    && RequestedAssetId(o) == p.spendAsset
    && o.offeredAmount > 0
    && o.requestedAmount > 0
  }

  function Filter(orders: seq<Order>, p: Params): (r: seq<Order>)
    ensures forall o | o in r :: o in orders && Eligible(o, p)
  {
    if orders == [] then []
    else (if Eligible(orders[0], p) then [orders[0]] else []) + Filter(orders[1..], p)
  }

  function Candidates(orders: seq<Order>, p: Params): seq<Order> {
    Sort(Before, Filter(orders, p))
  }

  predicate Positive(cs: seq<Order>) {
    forall i | 0 <= i < |cs| :: cs[i].offeredAmount > 0 && cs[i].requestedAmount > 0
  }

  function Whole(o: Order): Leg {
    Leg(o, o.requestedAmount, o.offeredAmount, None)
  }

  function Part(o: Order, take: int): Leg
    requires take > 0 && o.offeredAmount > 0 && o.requestedAmount > 0
  {
    Leg(o, Owed(take, o.requestedAmount, o.offeredAmount), take, Some(take))
  }

  // ------------------------------------------------- what the loops compute

  /** Spend mode: take every order, in turn, that still fits the budget. */
  function SpendLegs(cs: seq<Order>, remaining: int): seq<Leg> {
    if cs == [] then []
    else if cs[0].requestedAmount > remaining then SpendLegs(cs[1..], remaining)
    else [Whole(cs[0])] + SpendLegs(cs[1..], remaining - cs[0].requestedAmount)
  }

  function SpendLeft(cs: seq<Order>, remaining: int): int {
    if cs == [] then remaining
    else if cs[0].requestedAmount > remaining then SpendLeft(cs[1..], remaining)
    else SpendLeft(cs[1..], remaining - cs[0].requestedAmount)
  }

  /** The order can be cut to give exactly what is still needed. */
  predicate CanCut(o: Order, needed: int)
    requires needed > 0 && o.offeredAmount > 0 && o.requestedAmount > 0
  {
    needed < o.offeredAmount && o.allowPartialFill
    && Owed(needed, o.requestedAmount, o.offeredAmount) < o.requestedAmount
  }

  /** Receive mode: take orders until the target is met, cutting the last one if it can be. */
  function ReceiveLegs(cs: seq<Order>, needed: int): seq<Leg>
    requires Positive(cs)
  {
    if cs == [] || needed <= 0 then []
    else if CanCut(cs[0], needed) then [Part(cs[0], needed)]
    else [Whole(cs[0])] + ReceiveLegs(cs[1..], needed - cs[0].offeredAmount)
  }

  function Selected(legs: seq<Leg>): set<OutRef> {
    if legs == [] then {} else {legs[0].order.ref} + Selected(legs[1..])
  }

  /** The leg the leftover budget can buy on this order, if any and not dust. */
  function MarginalLeg(o: Order, remaining: int, minPartialSpend: int): Option<Leg>
    requires o.offeredAmount > 0 && o.requestedAmount > 0
  {
    var take := MaxTakeForSpend(remaining, o.requestedAmount, o.offeredAmount);
    if take <= 0 then None
    else if Owed(take, o.requestedAmount, o.offeredAmount) < minPartialSpend then None
    else Some(Part(o, take))
  }

  function FirstMarginal(cs: seq<Order>, selected: set<OutRef>, remaining: int, minPartialSpend: int): seq<Leg>
    requires Positive(cs)
  {
    if cs == [] then []
    else if cs[0].ref !in selected && cs[0].allowPartialFill
            && MarginalLeg(cs[0], remaining, minPartialSpend).Some?
    then [MarginalLeg(cs[0], remaining, minPartialSpend).value]
    else FirstMarginal(cs[1..], selected, remaining, minPartialSpend)
  }

  function TotalSpend(legs: seq<Leg>): int {
    if legs == [] then 0 else legs[0].spend + TotalSpend(legs[1..])
  }

  function TotalReceive(legs: seq<Leg>): int {
    if legs == [] then 0 else legs[0].receive + TotalReceive(legs[1..])
  }

  function LegsOf(cs: seq<Order>, p: Params): seq<Leg>
    requires Positive(cs)
  {
    if p.mode == Receive then ReceiveLegs(cs, p.limit)
    else
      var whole := SpendLegs(cs, p.limit);
      var left := SpendLeft(cs, p.limit);
      if left > 0 && |whole| < |cs|
      then whole + FirstMarginal(cs, Selected(whole), left, p.minPartialSpend)
      else whole
  }

  lemma {:induction false} CandidatesPositive(orders: seq<Order>, p: Params)
    ensures Positive(Candidates(orders, p))
    ensures forall o | o in Candidates(orders, p) :: o in orders && Eligible(o, p)
    ensures |Candidates(orders, p)| == |Filter(orders, p)|
  {
    SortKeepsElements(Before, Filter(orders, p));
    forall i | 0 <= i < |Candidates(orders, p)|
      ensures Candidates(orders, p)[i].offeredAmount > 0 && Candidates(orders, p)[i].requestedAmount > 0
    {
      assert Candidates(orders, p)[i] in Filter(orders, p);
    }
  }

  /** Math.ceil(legs / maxOrdersPerTx). */
  function BatchCount(legs: nat, maxOrdersPerTx: nat): nat
    requires maxOrdersPerTx > 0
  {
    (legs + maxOrdersPerTx - 1) / maxOrdersPerTx
  }

  /** The whole plan as a function of the book and the request. */
  function PlannedRoute(orders: seq<Order>, p: Params): Route
    requires p.maxOrdersPerTx > 0
  {
    CandidatesPositive(orders, p);
    var cs := Candidates(orders, p);
    var legs := LegsOf(cs, p);
    RouteOf(legs, |cs|, p)
  }

  function RouteOf(legs: seq<Leg>, candidateCount: nat, p: Params): Route
    requires p.maxOrdersPerTx > 0
  {
    var count := BatchCount(|legs|, p.maxOrdersPerTx);
    Route(legs, TotalSpend(legs), TotalReceive(legs), count, |legs| > 0 && count == 1, candidateCount,
      (if p.mode == Spend then p.limit else 0) - TotalSpend(legs))
  }

  // ------------------------------------------------------------ the planner

  lemma {:induction false} TotalsAppend(a: seq<Leg>, b: seq<Leg>)
    ensures TotalSpend(a + b) == TotalSpend(a) + TotalSpend(b)
    ensures TotalReceive(a + b) == TotalReceive(a) + TotalReceive(b)
    ensures Selected(a + b) == Selected(a) + Selected(b)
  {
    if a == [] {
      assert a + b == b;
    } else {
      assert (a + b)[1..] == a[1..] + b;
      TotalsAppend(a[1..], b);
    }
  }

  lemma {:induction false} SpendLeftIsRest(cs: seq<Order>, remaining: int)
    ensures SpendLeft(cs, remaining) == remaining - TotalSpend(SpendLegs(cs, remaining))
  {
    if cs != [] {
      if cs[0].requestedAmount > remaining {
        SpendLeftIsRest(cs[1..], remaining);
      } else {
        var rest := SpendLegs(cs[1..], remaining - cs[0].requestedAmount);
        assert ([Whole(cs[0])] + rest)[1..] == rest;
        SpendLeftIsRest(cs[1..], remaining - cs[0].requestedAmount);
      }
    }
  }

  predicate Totals(legs: seq<Leg>, totalSpend: int, totalReceive: int, selected: set<OutRef>) {
    totalSpend == TotalSpend(legs) && totalReceive == TotalReceive(legs) && selected == Selected(legs)
  }

  lemma {:induction false} TotalsPush(legs: seq<Leg>, l: Leg)
    ensures Totals(legs + [l], TotalSpend(legs) + l.spend, TotalReceive(legs) + l.receive,
              Selected(legs) + {l.order.ref})
  {
    TotalsAppend(legs, [l]);
  }

  /** What the greedy loop still has to add, from its two counters. */
  function Rest(cs: seq<Order>, mode: Mode, remaining: int, needed: int): seq<Leg>
    requires Positive(cs)
  {
    if mode == Receive then ReceiveLegs(cs, needed) else SpendLegs(cs, remaining)
  }

  /** What it still has to add after legs, standing before candidate i. */
  ghost predicate Owes(legs: seq<Leg>, cs: seq<Order>, i: nat, mode: Mode, remaining: int, needed: int, all: seq<Leg>)
    requires Positive(cs) && i <= |cs|
  {
    legs + Rest(cs[i..], mode, remaining, needed) == all
  }

  lemma {:induction false} OwesWhole(legs: seq<Leg>, cs: seq<Order>, i: nat, mode: Mode, remaining: int, needed: int, all: seq<Leg>)
    requires Positive(cs) && i < |cs| && Owes(legs, cs, i, mode, remaining, needed, all)
    requires if mode == Receive then needed > 0 && !CanCut(cs[i], needed) else cs[i].requestedAmount <= remaining
    ensures Owes(legs + [Whole(cs[i])], cs, i + 1, mode, remaining - cs[i].requestedAmount, needed - cs[i].offeredAmount, all)
  {
    RestAfterWhole(cs, i, mode, remaining, needed);
    AppendOne(legs, Whole(cs[i]), Rest(cs[i + 1..], mode, remaining - cs[i].requestedAmount, needed - cs[i].offeredAmount));
  }

  lemma {:induction false} RestAfterWhole(cs: seq<Order>, i: nat, mode: Mode, remaining: int, needed: int)
    requires Positive(cs) && i < |cs|
    requires if mode == Receive then needed > 0 && !CanCut(cs[i], needed) else cs[i].requestedAmount <= remaining
    ensures Rest(cs[i..], mode, remaining, needed)
         == [Whole(cs[i])] + Rest(cs[i + 1..], mode, remaining - cs[i].requestedAmount, needed - cs[i].offeredAmount)
  {
    assert cs[i..][0] == cs[i] && cs[i..][1..] == cs[i + 1..];
  }

  /** The loop's exits and skips: nothing needed, one cut, one order too dear. */
  lemma {:induction false} OwesWithout(legs: seq<Leg>, cs: seq<Order>, i: nat, mode: Mode, remaining: int, needed: int, all: seq<Leg>)
    requires Positive(cs) && i < |cs| && Owes(legs, cs, i, mode, remaining, needed, all)
    ensures mode == Receive && needed <= 0 ==> legs == all
    ensures mode == Receive && needed > 0 && CanCut(cs[i], needed) ==> legs + [Part(cs[i], needed)] == all
    ensures mode == Spend && cs[i].requestedAmount > remaining ==> Owes(legs, cs, i + 1, mode, remaining, needed, all)
  {
    assert cs[i..][0] == cs[i] && cs[i..][1..] == cs[i + 1..];
  }

  lemma {:induction false} OwesAtEnds(legs: seq<Leg>, cs: seq<Order>, mode: Mode, remaining: int, needed: int)
    requires Positive(cs)
    ensures Owes([], cs, 0, mode, remaining, needed, Rest(cs, mode, remaining, needed))
    ensures forall all :: Owes(legs, cs, |cs|, mode, remaining, needed, all) ==> legs == all
  {
    assert cs[0..] == cs && cs[|cs|..] == [];
  }

  /** The last order cut to what is still needed, if it can be. */
  method CutLast(o: Order, needed: int) returns (leg: Option<Leg>)
    requires needed > 0 && o.offeredAmount > 0 && o.requestedAmount > 0
    ensures leg == if CanCut(o, needed) then Some(Part(o, needed)) else None
  {
    leg := None;
    if needed < o.offeredAmount && o.allowPartialFill {
      var required := RequiredPayment(needed, o.requestedAmount, o.offeredAmount).value;
      if required < o.requestedAmount {
        leg := Some(Leg(o, required, needed, Some(needed)));
      }
    }
  }

  /** The greedy loop over the sorted candidates. */
  method GreedyPhase(candidates: seq<Order>, p: Params)
    returns (legs: seq<Leg>, remaining: int, totalSpend: int, totalReceive: int, selected: set<OutRef>)
    requires Positive(candidates)
    ensures Totals(legs, totalSpend, totalReceive, selected)
    ensures remaining == (if p.mode == Spend then p.limit else 0) - totalSpend
    ensures legs == if p.mode == Receive then ReceiveLegs(candidates, p.limit) else SpendLegs(candidates, p.limit)
  {
    legs := [];
    remaining := if p.mode == Spend then p.limit else 0;
    totalSpend, totalReceive, selected := 0, 0, {};
    ghost var all := Rest(candidates, p.mode, p.limit, p.limit);
    OwesAtEnds([], candidates, p.mode, p.limit, p.limit);
    assert p.mode == Receive ==> all == ReceiveLegs(candidates, p.limit);

    var i := 0;
    while i < |candidates|
      invariant 0 <= i <= |candidates|
      invariant Totals(legs, totalSpend, totalReceive, selected)
      invariant remaining == (if p.mode == Spend then p.limit else 0) - totalSpend
      invariant Owes(legs, candidates, i, p.mode, remaining, p.limit - totalReceive, all)
    {
      var o := candidates[i];
      var spend, offered := o.requestedAmount, o.offeredAmount;
      var needed := p.limit - totalReceive;
      OwesWithout(legs, candidates, i, p.mode, remaining, needed, all);

      if p.mode == Receive {
        if totalReceive >= p.limit {
          return;
        }
        var cut := CutLast(o, needed);
        if cut.Some? {
          TotalsPush(legs, cut.value);
          selected := selected + {o.ref};
          totalSpend := totalSpend + cut.value.spend;
          totalReceive := totalReceive + cut.value.receive;
          remaining := remaining - cut.value.spend;
          legs := legs + [cut.value];
          return;
        }
      }
      if p.mode == Spend && spend > remaining {
        i := i + 1;
        continue;
      }
      TotalsPush(legs, Whole(o));
      OwesWhole(legs, candidates, i, p.mode, remaining, needed, all);
      selected := selected + {o.ref};
      remaining := remaining - spend;
      totalSpend := totalSpend + spend;
      totalReceive := totalReceive + offered;
      legs := legs + [Leg(o, spend, offered, None)];
      i := i + 1;
    }
    OwesAtEnds(legs, candidates, p.mode, remaining, p.limit - totalReceive);
  }

  /** Spend mode's second loop: one partial leg out of the leftover budget. */
  method MarginalPhase(candidates: seq<Order>, selected: set<OutRef>, remaining: int, minPartialSpend: int)
    returns (legs: seq<Leg>)
    requires Positive(candidates)
    ensures legs == FirstMarginal(candidates, selected, remaining, minPartialSpend)
  {
    for i := 0 to |candidates|
      invariant FirstMarginal(candidates[i..], selected, remaining, minPartialSpend)
             == FirstMarginal(candidates, selected, remaining, minPartialSpend)
    {
      var o := candidates[i];
      assert candidates[i..][1..] == candidates[i + 1..];
      if o.ref in selected || !o.allowPartialFill {
        continue;
      }
      var take := MaxTakeForSpend(remaining, o.requestedAmount, o.offeredAmount);
      if take <= 0 {
        continue;
      }
      var required := RequiredPayment(take, o.requestedAmount, o.offeredAmount).value;
      if required < minPartialSpend {
        continue;
      }
      return [Leg(o, required, take, Some(take))];
    }
    return [];
  }

  /** Both loops: the legs and the running totals they leave. */
  method FillLegs(candidates: seq<Order>, p: Params)
    returns (legs: seq<Leg>, remaining: int, totalSpend: int, totalReceive: int)
    requires Positive(candidates)
    ensures legs == LegsOf(candidates, p)
    ensures totalSpend == TotalSpend(legs) && totalReceive == TotalReceive(legs)
    ensures remaining == (if p.mode == Spend then p.limit else 0) - totalSpend
  {
    var selected;
    legs, remaining, totalSpend, totalReceive, selected := GreedyPhase(candidates, p);
    SpendLeftIsRest(candidates, p.limit);
    if p.mode == Spend && remaining > 0 && |legs| < |candidates| {
      var extra := MarginalPhase(candidates, selected, remaining, p.minPartialSpend);
      FirstMarginalIsOne(candidates, selected, remaining, p.minPartialSpend);
      TotalsAppend(legs, extra);
      if extra != [] {
        assert extra[1..] == [];
        remaining := remaining - extra[0].spend;
        totalSpend := totalSpend + extra[0].spend;
        totalReceive := totalReceive + extra[0].receive;
      }
      legs := legs + extra;
    }
  }

  method PlanSmartFill(orders: seq<Order>, p: Params) returns (route: Route)
    requires p.maxOrdersPerTx > 0
    ensures route == PlannedRoute(orders, p)
  {
    CandidatesPositive(orders, p);
    var candidates := Candidates(orders, p);
    var legs, remaining, totalSpend, totalReceive := FillLegs(candidates, p);
    var transactionCount := BatchCount(|legs|, p.maxOrdersPerTx);
    route := Route(legs, totalSpend, totalReceive, transactionCount,
      |legs| > 0 && transactionCount == 1, |candidates|, remaining);
  }

  lemma {:induction false} FirstMarginalIsOne(cs: seq<Order>, selected: set<OutRef>, remaining: int, minPartialSpend: int)
    requires Positive(cs)
    ensures var r := FirstMarginal(cs, selected, remaining, minPartialSpend);
      r == [] || r == [r[0]]
  {
    if cs != [] {
      FirstMarginalIsOne(cs[1..], selected, remaining, minPartialSpend);
    }
  }

  /**
   * A ratio as text: floor(numerator * 10^precision / denominator) printed at that
   * precision, "" for a zero denominator. The legs' and the route's price columns.
   */
  function RatioToDecimal(numerator: int, denominator: int, precision: nat): string {
    if denominator == 0 then ""
    else TokenAmounts.FromRawAmount(numerator * Pow10(precision) / denominator, precision)
  }
}
