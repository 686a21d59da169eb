/** What a Smart Fill route is worth: determinism, executability and optimality. */
module SmartFillProofs {
  import opened Wrappers
  import opened ByteStrings
  import opened Decimals
  import opened Sorting
  import opened Sequences
  import opened Pricing
  import opened Orders
  import opened SmartFill
  import TokenAmounts

  // ------------------------------------------------ the candidate order

  /** ask/offer of a is at most that of b. */
  predicate NotDearer(a: Order, b: Order) {
    a.requestedAmount * b.offeredAmount <= b.requestedAmount * a.offeredAmount
  }

  lemma {:induction false} CrossTransitive(ar: int, ao: int, br: int, bo: int, cr: int, co: int)
    requires ar > 0 && ao > 0 && br > 0 && bo > 0 && cr > 0 && co > 0
    requires ar * bo <= br * ao && br * co <= cr * bo
    ensures ar * co <= cr * ao
    ensures ar * bo < br * ao || br * co < cr * bo ==> ar * co < cr * ao
  {
    Scaled(ar * bo, br * ao, co);
    Scaled(br * co, cr * bo, ao);
    SwapFactors(ar, bo, co);
    SwapFactors(br, ao, co);
    SwapFactors(cr, bo, ao);
    Unscaled(ar * co, cr * ao, bo);
  }

  lemma {:induction false} Scaled(x: int, y: int, k: int)
    requires x <= y && k > 0
    ensures x * k <= y * k && (x < y ==> x * k < y * k)
  {
  }

  lemma {:induction false} Unscaled(x: int, y: int, k: int)
    requires k > 0 && x * k <= y * k
    ensures x <= y && (x * k < y * k ==> x < y)
  {
    if x > y {
      Scaled(y, x, k);
    }
  }

  lemma {:induction false} SwapFactors(a: int, b: int, c: int)
    ensures (a * b) * c == (a * c) * b
  {
  }

  lemma {:induction false} NotDearerTransitive(a: Order, b: Order, c: Order)
    requires Positive([a, b, c])
    requires NotDearer(a, b) && NotDearer(b, c)
    ensures NotDearer(a, c)
    ensures Cheaper(a, b) || Cheaper(b, c) ==> Cheaper(a, c)
  {
    assert [a, b, c][0] == a && [a, b, c][1] == b && [a, b, c][2] == c;
    CrossTransitive(a.requestedAmount, a.offeredAmount, b.requestedAmount, b.offeredAmount,
      c.requestedAmount, c.offeredAmount);
  }

  /** Distinct orders of the book have distinct, well-formed references. */
  ghost predicate DistinctIds(dom: set<Order>) {
    && (forall o | o in dom :: IsTxHash(o.ref.txHash))
    && (forall o, o' | o in dom && o' in dom && o != o' :: o.ref != o'.ref)
  }

  lemma {:induction false} BeforeTransitive(a: Order, b: Order, c: Order)
    requires Positive([a, b, c]) && Before(a, b) && Before(b, c)
    ensures Before(a, c)
  {
    NotDearerTransitive(a, b, c);
    if !Cheaper(a, b) && !Cheaper(b, c) {
      assert [a, b, c][0] == a && [c, b, a][0] == c;
      assert Positive([c, b, a]) by {
        assert [c, b, a][0] == [a, b, c][2] && [c, b, a][1] == [a, b, c][1] && [c, b, a][2] == [a, b, c][0];
      }
      NotDearerTransitive(c, b, a);
      StrLessIsStrictTotal(OrderId(a.ref), OrderId(b.ref), OrderId(c.ref));
    }
  }

  /** The comparator is a strict total order on positive orders with distinct ids. */
  lemma {:induction false} BeforeIsStrictTotal(dom: set<Order>)
    requires DistinctIds(dom)
    requires forall o | o in dom :: o.offeredAmount > 0 && o.requestedAmount > 0
    ensures StrictTotalOn(Before, dom)
  {
    forall a | a in dom ensures !Before(a, a) {
      StrLessIsStrictTotal(OrderId(a.ref), OrderId(a.ref), OrderId(a.ref));
    }
    forall a, b | a in dom && b in dom && a != b ensures Before(a, b) || Before(b, a) {
      OrderIdInjective(a.ref, b.ref);
      StrLessIsStrictTotal(OrderId(a.ref), OrderId(b.ref), OrderId(a.ref));
    }
    forall a, b, c | a in dom && b in dom && c in dom && Before(a, b) && Before(b, c) ensures Before(a, c) {
      assert Positive([a, b, c]);
      BeforeTransitive(a, b, c);
    }
  }

  lemma {:induction false} FilterCounts(orders: seq<Order>, p: Params, o: Order)
    ensures multiset(Filter(orders, p))[o] == if Eligible(o, p) then multiset(orders)[o] else 0
  {
    if orders != [] {
      assert orders == [orders[0]] + orders[1..];
      FilterCounts(orders[1..], p, o);
    }
  }

  lemma {:induction false} CandidatesAre(orders: seq<Order>, p: Params, o: Order)
    ensures o in Candidates(orders, p) <==> o in orders && Eligible(o, p)
  {
    FilterCounts(orders, p, o);
    SortKeepsElements(Before, Filter(orders, p));
    assert o in Filter(orders, p) <==> o in multiset(Filter(orders, p));
    assert o in orders <==> o in multiset(orders);
  }

  /** The route reports how many orders it chose from, and whether one transaction carries it all. */
  lemma {:induction false} RouteReports(orders: seq<Order>, p: Params)
    requires p.maxOrdersPerTx > 0 && DistinctOrders(orders)
    ensures var route := PlannedRoute(orders, p);
      && route.candidateCount == |set o | o in orders && Eligible(o, p)|
      && (route.atomic <==> 0 < |route.legs| <= p.maxOrdersPerTx)
  {
    var cs, m := Candidates(orders, p), p.maxOrdersPerTx;
    CandidatesDistinct(orders, p);
    SizeWithoutRepeats(cs);
    forall o ensures o in cs <==> o in orders && Eligible(o, p) {
      CandidatesAre(orders, p, o);
    }
    assert Elements(cs) == set o | o in orders && Eligible(o, p);
    var n := |PlannedRoute(orders, p).legs|;
    OneBatch(n, m);
  }

  lemma {:induction false} OneBatch(n: nat, m: nat)
    requires m > 0
    ensures BatchCount(n, m) == 1 <==> 0 < n <= m
  {
    FloorIsGreatest(n + m - 1, m, 1);
    FloorIsGreatest(n + m - 1, m, 2);
  }

  /** Dearer candidates come later; at one price the smaller come later, and of those the larger id. */
  lemma {:induction false} CandidatesAreRanked(orders: seq<Order>, p: Params, i: nat, j: nat)
    requires DistinctBook(orders) && i < j < |Candidates(orders, p)|
    ensures var a, b := Candidates(orders, p)[i], Candidates(orders, p)[j];
      && a.requestedAmount * b.offeredAmount <= b.requestedAmount * a.offeredAmount
      && (a.requestedAmount * b.offeredAmount == b.requestedAmount * a.offeredAmount ==>
            a.offeredAmount > b.offeredAmount
            || (a.offeredAmount == b.offeredAmount && !StrLess(OrderId(b.ref), OrderId(a.ref))))
  {
    BookIsSet(orders);
    CandidatesSorted(orders, p);
    assert !Before(Candidates(orders, p)[j], Candidates(orders, p)[i]);
  }

  lemma {:induction false} CandidatesSorted(orders: seq<Order>, p: Params)
    requires DistinctIds(Elements(orders))
    ensures Sorted(Before, Candidates(orders, p))
  {
    var dom := Elements(Filter(orders, p));
    BeforeIsStrictTotal(dom);
    SortSorts(Before, Filter(orders, p), dom);
  }

  lemma {:induction false} CandidatesOfPermutation(orders: seq<Order>, orders': seq<Order>, p: Params)
    requires multiset(orders) == multiset(orders') && DistinctIds(Elements(orders))
    ensures Candidates(orders, p) == Candidates(orders', p)
  {
    var f, f' := Filter(orders, p), Filter(orders', p);
    forall o ensures multiset(f)[o] == multiset(f')[o] {
      FilterCounts(orders, p, o);
      FilterCounts(orders', p, o);
    }
    assert multiset(f) == multiset(f');
    BeforeIsStrictTotal(Elements(f));
    SortOfPermutation(Before, f, f', Elements(f));
  }

  /** The route does not depend on the order the book arrived in. */
  lemma {:induction false} RouteOfPermutation(orders: seq<Order>, orders': seq<Order>, p: Params)
    requires p.maxOrdersPerTx > 0
    requires multiset(orders) == multiset(orders') && DistinctIds(Elements(orders))
    ensures PlannedRoute(orders, p) == PlannedRoute(orders', p)
  {
    CandidatesOfPermutation(orders, orders', p);
  }

  // ----------------------------------------------- legs the builder accepts

  /** The builder takes the leg: whole, or partial within every partial-leg guard. */
  predicate Executable(l: Leg) {
    var o := l.order;
    o.offeredAmount > 0 && o.requestedAmount > 0 &&
    match l.takeAmount
    case None => l.spend == o.requestedAmount && l.receive == o.offeredAmount
    case Some(take) =>
      && o.allowPartialFill
      && AcceptedTake(take, o.requestedAmount, o.offeredAmount)
      && l.receive == take && l.spend == Owed(take, o.requestedAmount, o.offeredAmount)
  }

  /** Executable legs, on pairwise distinct candidates, only the last possibly partial. */
  ghost predicate GoodRoute(legs: seq<Leg>, cs: seq<Order>) {
    && (forall i | 0 <= i < |legs| :: Executable(legs[i]) && legs[i].order in cs)
    && (forall i | 0 <= i < |legs| - 1 :: legs[i].takeAmount.None?)
    && (forall i, j | 0 <= i < j < |legs| :: legs[i].order.ref != legs[j].order.ref)
  }

  lemma {:induction false} GoodOnMore(legs: seq<Leg>, cs: seq<Order>)
    requires cs != [] && DistinctOrders(cs) && GoodRoute(legs, cs[1..])
    ensures GoodRoute(legs, cs)
    ensures forall i | 0 <= i < |legs| :: legs[i].order.ref != cs[0].ref
  {
    forall i | 0 <= i < |legs| ensures legs[i].order in cs && legs[i].order.ref != cs[0].ref {
      var k :| 0 <= k < |cs[1..]| && cs[1..][k] == legs[i].order;
      assert cs[k + 1] == legs[i].order;
    }
  }

  lemma {:induction false} GoodCons(legs: seq<Leg>, cs: seq<Order>)
    requires cs != [] && Positive(cs) && DistinctOrders(cs) && GoodRoute(legs, cs[1..])
    ensures GoodRoute([Whole(cs[0])] + legs, cs)
  {
    GoodOnMore(legs, cs);
  }

  lemma {:induction false} SpendLegsAreGood(cs: seq<Order>, remaining: int)
    requires Positive(cs) && DistinctOrders(cs)
    ensures GoodRoute(SpendLegs(cs, remaining), cs)
    ensures forall i | 0 <= i < |SpendLegs(cs, remaining)| :: SpendLegs(cs, remaining)[i].takeAmount.None?
    ensures |SpendLegs(cs, remaining)| <= |cs|
  {
    if cs != [] {
      var left := if cs[0].requestedAmount > remaining then remaining else remaining - cs[0].requestedAmount;
      SpendLegsAreGood(cs[1..], left);
      GoodOnMore(SpendLegs(cs[1..], left), cs);
      GoodCons(SpendLegs(cs[1..], left), cs);
    }
  }

  lemma {:induction false} ReceiveLegsAreGood(cs: seq<Order>, needed: int)
    requires Positive(cs) && DistinctOrders(cs)
    ensures GoodRoute(ReceiveLegs(cs, needed), cs)
  {
    if cs != [] && needed > 0 && !CanCut(cs[0], needed) {
      ReceiveLegsAreGood(cs[1..], needed - cs[0].offeredAmount);
      GoodCons(ReceiveLegs(cs[1..], needed - cs[0].offeredAmount), cs);
    }
  }

  lemma {:induction false} SelectedHasRefs(legs: seq<Leg>, i: nat)
    requires i < |legs|
    ensures legs[i].order.ref in Selected(legs)
  {
    if i > 0 {
      SelectedHasRefs(legs[1..], i - 1);
    }
  }

  lemma {:induction false} MarginalIsGood(cs: seq<Order>, selected: set<OutRef>, remaining: int, minPartialSpend: int)
    requires Positive(cs)
    ensures var r := FirstMarginal(cs, selected, remaining, minPartialSpend);
      r != [] ==>
        && r == [r[0]] && Executable(r[0]) && r[0].takeAmount.Some? && r[0].order in cs
        && r[0].order.ref !in selected
        && minPartialSpend <= r[0].spend <= remaining
        && r[0].receive == MaxTakeForSpend(remaining, r[0].order.requestedAmount, r[0].order.offeredAmount)
  {
    if cs != [] {
      MarginalIsGood(cs[1..], selected, remaining, minPartialSpend);
      var o := cs[0];
      MaxTakeIsGreatest(remaining, o.requestedAmount, o.offeredAmount,
        MaxTakeForSpend(remaining, o.requestedAmount, o.offeredAmount));
    }
  }

  lemma {:induction false} CandidatesDistinct(orders: seq<Order>, p: Params)
    requires DistinctOrders(orders)
    ensures DistinctOrders(Candidates(orders, p))
  {
    var f, cs := Filter(orders, p), Candidates(orders, p);
    FilterNoRepeats(orders, p);
    PermutationWithoutRepeats(f, cs);
    SortKeepsElements(Before, f);
    forall i, j | 0 <= i < j < |cs| ensures cs[i].ref != cs[j].ref {
      assert cs[i] in f && cs[j] in f && cs[i] != cs[j];
    }
  }

  lemma {:induction false} FilterNoRepeats(orders: seq<Order>, p: Params)
    requires DistinctOrders(orders)
    ensures NoRepeats(Filter(orders, p))
  {
    if orders != [] {
      FilterNoRepeats(orders[1..], p);
      assert forall i | 0 <= i < |orders[1..]| :: orders[1..][i].ref != orders[0].ref;
    }
  }

  lemma {:induction false} GoodSnoc(whole: seq<Leg>, l: Leg, cs: seq<Order>)
    requires GoodRoute(whole, cs) && forall i | 0 <= i < |whole| :: whole[i].takeAmount.None?
    requires Executable(l) && l.order in cs && l.order.ref !in Selected(whole)
    ensures GoodRoute(whole + [l], cs)
  {
    forall i | 0 <= i < |whole| ensures whole[i].order.ref != l.order.ref {
      SelectedHasRefs(whole, i);
    }
  }

  lemma {:induction false} LegsAreGood(cs: seq<Order>, p: Params)
    requires Positive(cs) && DistinctOrders(cs)
    ensures GoodRoute(LegsOf(cs, p), cs)
  {
    if p.mode == Receive {
      ReceiveLegsAreGood(cs, p.limit);
    } else {
      var whole := SpendLegs(cs, p.limit);
      SpendLegsAreGood(cs, p.limit);
      var left := SpendLeft(cs, p.limit);
      MarginalIsGood(cs, Selected(whole), left, p.minPartialSpend);
      var extra := FirstMarginal(cs, Selected(whole), left, p.minPartialSpend);
      if extra != [] {
        GoodSnoc(whole, extra[0], cs);
      } else {
        assert whole + extra == whole;
      }
    }
  }

  /**
   * Every leg passes the builder's guards, no order is used twice, and at most one
   * leg is partial: the last.
   */
  lemma {:induction false} RouteIsExecutable(orders: seq<Order>, p: Params)
    requires p.maxOrdersPerTx > 0
    requires DistinctOrders(orders)
    ensures GoodRoute(PlannedRoute(orders, p).legs, Candidates(orders, p))
  {
    CandidatesPositive(orders, p);
    CandidatesDistinct(orders, p);
    LegsAreGood(Candidates(orders, p), p);
  }

  // ------------------------------------------------------ plans and bounds

  /** What taking x of an order costs: nothing, the ceiling price, or its whole ask. */
  function TakeCost(o: Order, x: int): int
    requires o.offeredAmount > 0 && o.requestedAmount > 0 && 0 <= x <= o.offeredAmount
  {
    if x == 0 then 0 else Owed(x, o.requestedAmount, o.offeredAmount)
  }

  /** Any way of taking something from each candidate, whole or ceil-priced in part. */
  predicate IsPlan(cs: seq<Order>, plan: seq<int>) {
    |plan| == |cs| && forall i | 0 <= i < |cs| :: 0 <= plan[i] <= cs[i].offeredAmount
  }

  function PlanCost(cs: seq<Order>, plan: seq<int>): int
    requires Positive(cs) && IsPlan(cs, plan)
  {
    if cs == [] then 0 else TakeCost(cs[0], plan[0]) + PlanCost(cs[1..], plan[1..])
  }

  function AskOfFirst(cs: seq<Order>, k: nat): int
    requires k <= |cs|
  {
    if k == 0 then 0 else cs[0].requestedAmount + AskOfFirst(cs[1..], k - 1)
  }

  function OfferOfFirst(cs: seq<Order>, k: nat): int
    requires k <= |cs|
  {
    if k == 0 then 0 else cs[0].offeredAmount + OfferOfFirst(cs[1..], k - 1)
  }

  lemma {:induction false} TakeCostBound(o: Order, x: int)
    requires o.offeredAmount > 0 && o.requestedAmount > 0 && 0 <= x <= o.offeredAmount
    ensures TakeCost(o, x) * o.offeredAmount >= x * o.requestedAmount
    ensures TakeCost(o, x) >= 0
    ensures x == o.offeredAmount ==> TakeCost(o, x) == o.requestedAmount
  {
    if x > 0 {
      OwedBounds(x, o.requestedAmount, o.offeredAmount);
      OwedWhole(o.requestedAmount, o.offeredAmount);
    }
  }

  /** Not taking all of an order cheaper than the pivot saves at most the pivot's price. */
  lemma {:induction false} CheapItem(cost: int, x: int, ask: int, offer: int, am: int, om: int)
    requires ask > 0 && offer > 0 && am > 0 && om > 0 && 0 <= x <= offer
    requires cost * offer >= x * ask && ask * om <= am * offer
    ensures (cost - ask) * om >= (x - offer) * am
  {
    var short := offer - x;
    assert (ask - cost) * offer <= short * ask by {
      assert (ask - cost) * offer == ask * offer - cost * offer;
      assert short * ask == offer * ask - x * ask;
    }
    assert (ask - cost) * offer * om <= short * ask * om;
    assert short * (ask * om) <= short * (am * offer);
    assert ((ask - cost) * om) * offer <= (short * am) * offer;
    assert (ask - cost) * om <= short * am;
  }

  /** Taking from an order dearer than the pivot costs at least the pivot's price. */
  lemma {:induction false} DearItem(cost: int, x: int, ask: int, offer: int, am: int, om: int)
    requires ask > 0 && offer > 0 && am > 0 && om > 0 && 0 <= x
    requires cost * offer >= x * ask && am * offer <= ask * om
    ensures cost * om >= x * am
  {
    assert cost * offer * om >= x * ask * om;
    assert x * (ask * om) >= x * (am * offer);
    assert (cost * om) * offer >= (x * am) * offer;
  }

  /** The first k candidates are at most as dear as the pivot, the rest at least. */
  ghost predicate PivotAt(cs: seq<Order>, k: nat, pivot: Order) {
    && k <= |cs|
    && pivot.offeredAmount > 0 && pivot.requestedAmount > 0
    && (forall i | 0 <= i < k :: NotDearer(cs[i], pivot))
    && (forall i | k <= i < |cs| :: NotDearer(pivot, cs[i]))
  }

  /**
   * The fractional bound: against taking the first k whole, any plan that receives
   * more pays at least the pivot's price for the difference.
   */
  lemma {:induction false} PivotBound(cs: seq<Order>, plan: seq<int>, k: nat, pivot: Order)
    requires Positive(cs) && IsPlan(cs, plan) && PivotAt(cs, k, pivot)
    ensures (PlanCost(cs, plan) - AskOfFirst(cs, k)) * pivot.offeredAmount
         >= (Sum(plan) - OfferOfFirst(cs, k)) * pivot.requestedAmount
  {
    if cs == [] {
    } else {
      var o, x, am, om := cs[0], plan[0], pivot.requestedAmount, pivot.offeredAmount;
      TakeCostBound(o, x);
      var k' := if k == 0 then 0 else k - 1;
      PivotBound(cs[1..], plan[1..], k', pivot);
      var dc := PlanCost(cs[1..], plan[1..]) - AskOfFirst(cs[1..], k');
      var dr := Sum(plan[1..]) - OfferOfFirst(cs[1..], k');
      if k == 0 {
        DearItem(TakeCost(o, x), x, o.requestedAmount, o.offeredAmount, am, om);
        AddProducts(TakeCost(o, x), dc, om, x, dr, am);
      } else {
        CheapItem(TakeCost(o, x), x, o.requestedAmount, o.offeredAmount, am, om);
        AddProducts(TakeCost(o, x) - o.requestedAmount, dc, om, x - o.offeredAmount, dr, am);
      }
    }
  }

  lemma {:induction false} AddProducts(a: int, b: int, m: int, c: int, d: int, n: int)
    requires a * m >= c * n && b * m >= d * n
    ensures (a + b) * m >= (c + d) * n
  {
  }

  lemma {:induction false} PriceOrdered(cs: seq<Order>, i: nat, j: nat)
    requires Sorted(Before, cs) && i < j < |cs|
    ensures NotDearer(cs[i], cs[j])
  {
    assert !Before(cs[j], cs[i]);
  }

  lemma {:induction false} PivotOfSorted(cs: seq<Order>, k: nat, j: nat)
    requires Positive(cs) && Sorted(Before, cs) && j < |cs| && (k == j || k == j + 1)
    ensures PivotAt(cs, k, cs[j])
  {
    forall i | 0 <= i < |cs| && i != j ensures i < j ==> NotDearer(cs[i], cs[j])
      ensures i > j ==> NotDearer(cs[j], cs[i])
    {
      if i < j { PriceOrdered(cs, i, j); } else { PriceOrdered(cs, j, i); }
    }
  }

  /** The first j candidates whole, t of the next, nothing of the rest. */
  function PrefixPlan(cs: seq<Order>, j: nat, t: int): (plan: seq<int>)
    ensures |plan| == |cs|
  {
    if cs == [] then []
    else if j == 0 then [t] + seq(|cs| - 1, i => 0)
    else [cs[0].offeredAmount] + PrefixPlan(cs[1..], j - 1, t)
  }

  lemma {:induction false} NothingTaken(cs: seq<Order>)
    requires Positive(cs)
    ensures var none := seq(|cs|, i => 0); IsPlan(cs, none) && Sum(none) == 0 && PlanCost(cs, none) == 0
  {
    if cs != [] {
      NothingTaken(cs[1..]);
      assert seq(|cs|, i => 0)[1..] == seq(|cs[1..]|, i => 0);
    }
  }

  lemma {:induction false} PlanCons(cs: seq<Order>, x: int, rest: seq<int>)
    requires Positive(cs) && cs != [] && 0 <= x <= cs[0].offeredAmount && IsPlan(cs[1..], rest)
    ensures IsPlan(cs, [x] + rest) && Sum([x] + rest) == x + Sum(rest)
    ensures PlanCost(cs, [x] + rest) == TakeCost(cs[0], x) + PlanCost(cs[1..], rest)
  {
    assert ([x] + rest)[1..] == rest;
  }

  lemma {:induction false} PrefixPlanIs(cs: seq<Order>, j: nat, t: int)
    requires Positive(cs) && j < |cs| && 0 <= t <= cs[j].offeredAmount
    ensures IsPlan(cs, PrefixPlan(cs, j, t))
    ensures Sum(PrefixPlan(cs, j, t)) == OfferOfFirst(cs, j) + t
    ensures PlanCost(cs, PrefixPlan(cs, j, t)) == AskOfFirst(cs, j) + TakeCost(cs[j], t)
  {
    if j == 0 {
      NothingTaken(cs[1..]);
      PlanCons(cs, t, seq(|cs| - 1, i => 0));
    } else {
      PrefixPlanIs(cs[1..], j - 1, t);
      TakeCostBound(cs[0], cs[0].offeredAmount);
      PlanCons(cs, cs[0].offeredAmount, PrefixPlan(cs[1..], j - 1, t));
    }
  }

  lemma {:induction false} PlanCostNonNegative(cs: seq<Order>, plan: seq<int>)
    requires Positive(cs) && IsPlan(cs, plan)
    ensures PlanCost(cs, plan) >= 0
    ensures 0 <= Sum(plan) <= OfferOfFirst(cs, |cs|)
  {
    if cs != [] {
      TakeCostBound(cs[0], plan[0]);
      PlanCostNonNegative(cs[1..], plan[1..]);
    }
  }

  // ------------------------------------------------------- receive mode

  /** The candidate the greedy stops at: the first whose offer completes the target. */
  function StopAt(cs: seq<Order>, limit: int): (j: nat)
    ensures j <= |cs|
  {
    if cs == [] || limit <= cs[0].offeredAmount then 0 else 1 + StopAt(cs[1..], limit - cs[0].offeredAmount)
  }

  /** There is something to fill, and the book can fill it. */
  predicate InReach(cs: seq<Order>, limit: int) {
    0 < limit <= OfferOfFirst(cs, |cs|)
  }

  lemma {:induction false} StopBounds(cs: seq<Order>, limit: int)
    requires Positive(cs) && InReach(cs, limit)
    ensures StopAt(cs, limit) < |cs|
    ensures 0 < limit - OfferOfFirst(cs, StopAt(cs, limit)) <= cs[StopAt(cs, limit)].offeredAmount
  {
    if limit > cs[0].offeredAmount {
      StopBounds(cs[1..], limit - cs[0].offeredAmount);
    }
  }

  /** What the stopping order must still deliver. */
  function Missing(cs: seq<Order>, limit: int): (t: int)
    requires Positive(cs) && InReach(cs, limit)
    ensures StopAt(cs, limit) < |cs| && 0 < t <= cs[StopAt(cs, limit)].offeredAmount
  {
    StopBounds(cs, limit);
    limit - OfferOfFirst(cs, StopAt(cs, limit))
  }

  /** The order the greedy stops at. */
  function StopOrder(cs: seq<Order>, limit: int): (o: Order)
    requires Positive(cs) && InReach(cs, limit)
    ensures o.offeredAmount > 0 && o.requestedAmount > 0
  {
    StopBounds(cs, limit);
    cs[StopAt(cs, limit)]
  }

  /** The stopping order's price for exactly what is missing. */
  function MissingCost(cs: seq<Order>, limit: int): int
    requires Positive(cs) && InReach(cs, limit)
  {
    Owed(Missing(cs, limit), StopOrder(cs, limit).requestedAmount, StopOrder(cs, limit).offeredAmount)
  }

  lemma {:induction false} OwedAtMostAsk(take: int, ask: int, offer: int)
    requires 0 < take <= offer && ask > 0
    ensures Owed(take, ask, offer) <= ask
  {
    assert take * ask <= offer * ask;
    OwedIsCeiling(take, ask, offer, ask);
  }

  /** What receive mode pays: every order before the stopping one, and of that its price or its whole ask. */
  lemma {:induction false} ReceiveSpends(cs: seq<Order>, limit: int)
    requires Positive(cs) && InReach(cs, limit)
    ensures TotalSpend(ReceiveLegs(cs, limit)) == AskOfFirst(cs, StopAt(cs, limit))
      + (if StopOrder(cs, limit).allowPartialFill then MissingCost(cs, limit) else StopOrder(cs, limit).requestedAmount)
  {
    var o := cs[0];
    if limit <= o.offeredAmount {
      OwedAtMostAsk(limit, o.requestedAmount, o.offeredAmount);
      OwedWhole(o.requestedAmount, o.offeredAmount);
      StopsHere(cs, limit);
    } else {
      ReceiveSpends(cs[1..], limit - o.offeredAmount);
      StopStep(cs, limit);
      var rest := ReceiveLegs(cs[1..], limit - o.offeredAmount);
      assert ([Whole(o)] + rest)[1..] == rest;
    }
  }

  lemma {:induction false} StopStep(cs: seq<Order>, limit: int)
    requires Positive(cs) && InReach(cs, limit) && limit > cs[0].offeredAmount
    ensures var rest, left := cs[1..], limit - cs[0].offeredAmount;
      && InReach(rest, left) && StopOrder(cs, limit) == StopOrder(rest, left) && Missing(cs, limit) == Missing(rest, left)
      && AskOfFirst(cs, StopAt(cs, limit)) == cs[0].requestedAmount + AskOfFirst(rest, StopAt(rest, left))
  {
    StopBounds(cs, limit);
    assert |cs[1..]| == |cs| - 1;
  }

  lemma {:induction false} StopsHere(cs: seq<Order>, limit: int)
    requires Positive(cs) && cs != [] && 0 < limit <= cs[0].offeredAmount
    ensures TotalSpend(ReceiveLegs(cs, limit))
      == if CanCut(cs[0], limit) then Owed(limit, cs[0].requestedAmount, cs[0].offeredAmount) else cs[0].requestedAmount
  {
    var l := if CanCut(cs[0], limit) then Part(cs[0], limit) else Whole(cs[0]);
    assert ReceiveLegs(cs[1..], limit - cs[0].offeredAmount) == [];
    assert ReceiveLegs(cs, limit) == [l] && [l][1..] == [];
  }

  lemma {:induction false} CostOfSurplus(extra: int, surplus: int, t: int, am: int, om: int)
    requires am > 0 && om > 0 && 0 < t <= surplus
    requires extra * om >= surplus * am
    ensures extra >= Owed(t, am, om)
  {
    assert surplus * am >= t * am;
    OwedIsCeiling(t, am, om, extra);
  }

  /** No plan reaches the target for less than the prefix and the missing part's price. */
  lemma {:induction false} PlanPaysAtLeast(cs: seq<Order>, limit: int, plan: seq<int>)
    requires Positive(cs) && Sorted(Before, cs) && InReach(cs, limit)
    requires IsPlan(cs, plan) && Sum(plan) >= limit
    ensures PlanCost(cs, plan) >= AskOfFirst(cs, StopAt(cs, limit)) + MissingCost(cs, limit)
  {
    StopBounds(cs, limit);
    var j := StopAt(cs, limit);
    PivotOfSorted(cs, j, j);
    PivotBound(cs, plan, j, cs[j]);
    CostOfSurplus(PlanCost(cs, plan) - AskOfFirst(cs, j), Sum(plan) - OfferOfFirst(cs, j), Missing(cs, limit),
      cs[j].requestedAmount, cs[j].offeredAmount);
  }

  /** Some plan does it for exactly that. */
  lemma {:induction false} PlanPaysExactly(cs: seq<Order>, limit: int) returns (plan: seq<int>)
    requires Positive(cs) && InReach(cs, limit)
    ensures IsPlan(cs, plan) && Sum(plan) == limit
    ensures PlanCost(cs, plan) == AskOfFirst(cs, StopAt(cs, limit)) + MissingCost(cs, limit)
  {
    StopBounds(cs, limit);
    plan := PrefixPlan(cs, StopAt(cs, limit), Missing(cs, limit));
    PrefixPlanIs(cs, StopAt(cs, limit), Missing(cs, limit));
  }

  /** No plan that delivers the target, cutting whatever orders it likes, costs less. */
  ghost predicate CheapestFor(cs: seq<Order>, limit: int, spend: int)
    requires Positive(cs)
  {
    forall plan | IsPlan(cs, plan) && Sum(plan) >= limit :: spend <= PlanCost(cs, plan)
  }

  /** Read off the book: the order the greedy stops at may be cut, or cutting it would save nothing. */
  predicate StopIsExact(cs: seq<Order>, limit: int)
    requires Positive(cs)
  {
    InReach(cs, limit) ==>
      StopOrder(cs, limit).allowPartialFill || MissingCost(cs, limit) == StopOrder(cs, limit).requestedAmount
  }

  /** A target already met costs nothing; one out of reach no plan meets. */
  lemma {:induction false} OutOfReach(cs: seq<Order>, limit: int, plan: seq<int>)
    requires Positive(cs) && !InReach(cs, limit) && IsPlan(cs, plan) && Sum(plan) >= limit
    ensures TotalSpend(ReceiveLegs(cs, limit)) <= PlanCost(cs, plan)
  {
    PlanCostNonNegative(cs, plan);
  }

  lemma {:induction false} ReceiveOnCandidates(cs: seq<Order>, limit: int)
    requires Positive(cs) && Sorted(Before, cs)
    ensures CheapestFor(cs, limit, TotalSpend(ReceiveLegs(cs, limit))) <==> StopIsExact(cs, limit)
  {
    if InReach(cs, limit) {
      ReceiveSpends(cs, limit);
      MissingWithinAsk(cs, limit);
      forall plan | IsPlan(cs, plan) && Sum(plan) >= limit
        ensures PlanCost(cs, plan) >= AskOfFirst(cs, StopAt(cs, limit)) + MissingCost(cs, limit) {
        PlanPaysAtLeast(cs, limit, plan);
      }
      var best := PlanPaysExactly(cs, limit);
      var spend := TotalSpend(ReceiveLegs(cs, limit));
      assert CheapestFor(cs, limit, spend) ==> spend <= PlanCost(cs, best);
      assert StopIsExact(cs, limit) ==> spend == PlanCost(cs, best);
    } else {
      forall plan | IsPlan(cs, plan) && Sum(plan) >= limit
        ensures TotalSpend(ReceiveLegs(cs, limit)) <= PlanCost(cs, plan) {
        OutOfReach(cs, limit, plan);
      }
    }
  }

  lemma {:induction false} MissingWithinAsk(cs: seq<Order>, limit: int)
    requires Positive(cs) && InReach(cs, limit)
    ensures 0 < MissingCost(cs, limit) <= StopOrder(cs, limit).requestedAmount
  {
    var o := StopOrder(cs, limit);
    OwedAtMostAsk(Missing(cs, limit), o.requestedAmount, o.offeredAmount);
    OwedBounds(Missing(cs, limit), o.requestedAmount, o.offeredAmount);
  }

  /**
   * Receive mode is optimal exactly when the order it stops at can be cut, or cutting it
   * would save nothing: then, and only then, no plan delivering the target costs less,
   * whichever orders it cuts and however many.
   */
  lemma {:induction false} ReceiveOptimalExactly(orders: seq<Order>, p: Params)
    requires p.maxOrdersPerTx > 0 && p.mode == Receive && DistinctIds(Elements(orders))
    ensures Positive(Candidates(orders, p))
    ensures CheapestFor(Candidates(orders, p), p.limit, PlannedRoute(orders, p).totalSpend)
       <==> StopIsExact(Candidates(orders, p), p.limit)
  {
    CandidatesPositive(orders, p);
    CandidatesSorted(orders, p);
    ReceiveOnCandidates(Candidates(orders, p), p.limit);
  }

  /** Otherwise it overpays, against any plan, by no more than the stopping order's ask less the missing part's price. */
  lemma {:induction false} ReceiveOverpaysAtMost(orders: seq<Order>, p: Params, plan: seq<int>)
    requires p.maxOrdersPerTx > 0 && p.mode == Receive && DistinctIds(Elements(orders))
    requires Positive(Candidates(orders, p)) && IsPlan(Candidates(orders, p), plan) && Sum(plan) >= p.limit > 0
    ensures InReach(Candidates(orders, p), p.limit)
    ensures var cs := Candidates(orders, p);
      PlannedRoute(orders, p).totalSpend - PlanCost(cs, plan)
        <= StopOrder(cs, p.limit).requestedAmount - MissingCost(cs, p.limit)
  {
    var cs := Candidates(orders, p);
    CandidatesSorted(orders, p);
    PlanCostNonNegative(cs, plan);
    ReceiveSpends(cs, p.limit);
    MissingWithinAsk(cs, p.limit);
    PlanPaysAtLeast(cs, p.limit, plan);
  }

  /** On a book whose orders can all be cut, receive mode is optimal for every target. */
  lemma {:induction false} CuttableBookIsOptimal(orders: seq<Order>, p: Params)
    requires p.maxOrdersPerTx > 0 && p.mode == Receive && DistinctIds(Elements(orders))
    requires forall o | o in orders :: o.allowPartialFill
    ensures Positive(Candidates(orders, p))
    ensures CheapestFor(Candidates(orders, p), p.limit, PlannedRoute(orders, p).totalSpend)
  {
    var cs := Candidates(orders, p);
    CandidatesPositive(orders, p);
    if InReach(cs, p.limit) {
      StopBounds(cs, p.limit);
      assert StopOrder(cs, p.limit) in cs;
    }
    ReceiveOptimalExactly(orders, p);
  }

  lemma {:induction false} ReceivesOrExhausts(cs: seq<Order>, needed: int)
    requires Positive(cs)
    ensures TotalReceive(ReceiveLegs(cs, needed)) >= needed
         || TotalReceive(ReceiveLegs(cs, needed)) == OfferOfFirst(cs, |cs|)
  {
    if cs == [] || needed <= 0 {
    } else if CanCut(cs[0], needed) {
      assert ReceiveLegs(cs, needed)[1..] == [];
    } else {
      var rest := ReceiveLegs(cs[1..], needed - cs[0].offeredAmount);
      ReceivesOrExhausts(cs[1..], needed - cs[0].offeredAmount);
      assert ([Whole(cs[0])] + rest)[1..] == rest;
    }
  }

  /** Receive mode falls short only by exhausting the book: then no plan delivers more. */
  lemma {:induction false} ReceiveShortfallTakesAll(orders: seq<Order>, p: Params, plan: seq<int>)
    requires p.maxOrdersPerTx > 0 && p.mode == Receive
    requires PlannedRoute(orders, p).totalReceive < p.limit
    requires Positive(Candidates(orders, p)) && IsPlan(Candidates(orders, p), plan)
    ensures Sum(plan) <= PlannedRoute(orders, p).totalReceive
  {
    ReceivesOrExhausts(Candidates(orders, p), p.limit);
    PlanCostNonNegative(Candidates(orders, p), plan);
  }

  // ---------------------------------------------------------- spend mode

  lemma {:induction false} NothingWholeFits(cs: seq<Order>, remaining: int, o: Order)
    requires Positive(cs) && o in cs
    ensures Whole(o) in SpendLegs(cs, remaining) || o.requestedAmount > SpendLeft(cs, remaining)
    ensures SpendLeft(cs, remaining) <= remaining
  {
    var left := if cs[0].requestedAmount > remaining then remaining else remaining - cs[0].requestedAmount;
    SpendLeftFalls(cs[1..], left);
    if o != cs[0] {
      assert o in cs[1..];
      NothingWholeFits(cs[1..], left, o);
    }
  }

  lemma {:induction false} SpendLeftFalls(cs: seq<Order>, remaining: int)
    requires Positive(cs)
    ensures SpendLeft(cs, remaining) <= remaining
    ensures remaining >= 0 ==> SpendLeft(cs, remaining) >= 0
  {
    if cs != [] {
      SpendLeftFalls(cs[1..],
        if cs[0].requestedAmount > remaining then remaining else remaining - cs[0].requestedAmount);
    }
  }

  /**
   * Spend mode accounts for the whole budget, never overspends it, and leaves no
   * candidate whose full ask would still have fit after the whole-order phase.
   */
  lemma {:induction false} SpendModeAccounts(orders: seq<Order>, p: Params, o: Order)
    requires p.maxOrdersPerTx > 0 && p.mode == Spend && p.limit >= 0
    requires o in Candidates(orders, p)
    ensures var r := PlannedRoute(orders, p);
      && r.totalSpend + r.leftover == p.limit
      && 0 <= r.leftover
      && (Whole(o) in r.legs || o.requestedAmount > SpendLeft(Candidates(orders, p), p.limit))
  {
    var cs := Candidates(orders, p);
    CandidatesPositive(orders, p);
    NothingWholeFits(cs, p.limit, o);
    SpendsWithin(cs, p);
  }

  lemma {:induction false} SpendsWithin(cs: seq<Order>, p: Params)
    requires p.mode == Spend && p.limit >= 0 && Positive(cs)
    ensures TotalSpend(LegsOf(cs, p)) <= p.limit
  {
    SpendLeftFalls(cs, p.limit);
    SpendLeftIsRest(cs, p.limit);
    var whole := SpendLegs(cs, p.limit);
    var left := SpendLeft(cs, p.limit);
    MarginalIsGood(cs, Selected(whole), left, p.minPartialSpend);
    var extra := FirstMarginal(cs, Selected(whole), left, p.minPartialSpend);
    TotalsAppend(whole, extra);
  }

  function Wholes(cs: seq<Order>): seq<Leg> {
    if cs == [] then [] else [Whole(cs[0])] + Wholes(cs[1..])
  }

  lemma {:induction false} WholesTotal(cs: seq<Order>, k: nat)
    requires k <= |cs|
    ensures |Wholes(cs[..k])| == k
    ensures TotalSpend(Wholes(cs[..k])) == AskOfFirst(cs, k)
    ensures TotalReceive(Wholes(cs[..k])) == OfferOfFirst(cs, k)
  {
    if k > 0 {
      assert cs[..k][1..] == cs[1..][..k - 1];
      WholesTotal(cs[1..], k - 1);
      assert Wholes(cs[..k])[1..] == Wholes(cs[1..][..k - 1]);
    }
  }

  lemma {:induction false} LessByProduct(a: int, b: int, c: int)
    requires c > 0 && a * c < b * c
    ensures a < b
  {
  }

  /** The budget bound on the amount a plan can receive beyond the first k. */
  lemma {:induction false} ReceiveBeyond(surplus: int, spare: int, am: int, om: int, left: int)
    requires am > 0 && om > 0 && 0 <= left < am
    requires spare * om >= surplus * am && spare <= left
    ensures surplus <= MaxTakeForSpend(left, am, om)
  {
    if surplus > 0 {
      assert surplus * am <= left * om by { assert spare * om <= left * om; }
      assert Owed(surplus, am, om) <= left by { OwedIsCeiling(surplus, am, om, left); }
      assert surplus < om by {
        assert left * om < am * om;
        LessByProduct(surplus, om, am);
      }
      MaxTakeIsGreatest(left, am, om, surplus);
    }
  }

  /** The first candidate the budget does not cover, taking the ones before it whole. */
  function AffordAt(cs: seq<Order>, limit: int): (j: nat)
    ensures j <= |cs|
  {
    if cs == [] || cs[0].requestedAmount > limit then 0 else 1 + AffordAt(cs[1..], limit - cs[0].requestedAmount)
  }

  /** What is left of the budget there. */
  function LeftAt(cs: seq<Order>, limit: int): int {
    limit - AskOfFirst(cs, AffordAt(cs, limit))
  }

  lemma {:induction false} AffordBounds(cs: seq<Order>, limit: int)
    requires Positive(cs) && limit >= 0
    ensures LeftAt(cs, limit) >= 0
    ensures AffordAt(cs, limit) < |cs| ==> cs[AffordAt(cs, limit)].requestedAmount > LeftAt(cs, limit)
  {
    if cs != [] && cs[0].requestedAmount <= limit {
      AffordBounds(cs[1..], limit - cs[0].requestedAmount);
    }
  }

  /** The most any plan can receive within the budget. */
  function MostFor(cs: seq<Order>, limit: int): int
    requires Positive(cs)
  {
    var j := AffordAt(cs, limit);
    OfferOfFirst(cs, j)
    + (if j == |cs| then 0 else MaxTakeForSpend(LeftAt(cs, limit), cs[j].requestedAmount, cs[j].offeredAmount))
  }

  lemma {:induction false} PlanReceivesAtMost(cs: seq<Order>, limit: int, plan: seq<int>)
    requires Positive(cs) && Sorted(Before, cs) && limit >= 0
    requires IsPlan(cs, plan) && PlanCost(cs, plan) <= limit
    ensures Sum(plan) <= MostFor(cs, limit)
  {
    var j := AffordAt(cs, limit);
    AffordBounds(cs, limit);
    if j == |cs| {
      PlanCostNonNegative(cs, plan);
    } else {
      PivotOfSorted(cs, j, j);
      PivotBound(cs, plan, j, cs[j]);
      ReceiveBeyond(Sum(plan) - OfferOfFirst(cs, j), PlanCost(cs, plan) - AskOfFirst(cs, j),
        cs[j].requestedAmount, cs[j].offeredAmount, LeftAt(cs, limit));
    }
  }

  lemma {:induction false} AllTaken(cs: seq<Order>) returns (plan: seq<int>)
    requires Positive(cs)
    ensures IsPlan(cs, plan) && Sum(plan) == OfferOfFirst(cs, |cs|) && PlanCost(cs, plan) == AskOfFirst(cs, |cs|)
  {
    plan := [];
    if cs != [] {
      var rest := AllTaken(cs[1..]);
      plan := [cs[0].offeredAmount] + rest;
      TakeCostBound(cs[0], cs[0].offeredAmount);
      PlanCons(cs, cs[0].offeredAmount, rest);
    }
  }

  lemma {:induction false} PlanReceivesExactly(cs: seq<Order>, limit: int) returns (plan: seq<int>)
    requires Positive(cs) && limit >= 0
    ensures IsPlan(cs, plan) && PlanCost(cs, plan) <= limit && Sum(plan) == MostFor(cs, limit)
  {
    var j, left := AffordAt(cs, limit), LeftAt(cs, limit);
    AffordBounds(cs, limit);
    if j == |cs| {
      plan := AllTaken(cs);
    } else {
      var take := MaxTakeForSpend(left, cs[j].requestedAmount, cs[j].offeredAmount);
      MaxTakeIsGreatest(left, cs[j].requestedAmount, cs[j].offeredAmount, take);
      plan := PrefixPlan(cs, j, take);
      PrefixPlanIs(cs, j, take);
    }
  }

  // ------------------------------------- the route is a prefix and the rest's route

  lemma {:induction false} SpendSplits(cs: seq<Order>, limit: int)
    ensures var j, left := AffordAt(cs, limit), LeftAt(cs, limit);
      && SpendLegs(cs, limit) == Wholes(cs[..j]) + SpendLegs(cs[j..], left)
      && SpendLeft(cs, limit) == SpendLeft(cs[j..], left)
  {
    var j := AffordAt(cs, limit);
    if cs == [] || cs[0].requestedAmount > limit {
      assert cs[..0] == [] && cs[0..] == cs;
      assert Wholes(cs[..0]) + SpendLegs(cs, limit) == SpendLegs(cs, limit);
    } else {
      SpendSplits(cs[1..], limit - cs[0].requestedAmount);
      assert cs[..j][1..] == cs[1..][..j - 1] && cs[j..] == cs[1..][j - 1..];
      WholesCons(cs[..j], SpendLegs(cs[j..], LeftAt(cs, limit)));
    }
  }

  lemma {:induction false} WholesCons(prefix: seq<Order>, rest: seq<Leg>)
    requires prefix != []
    ensures Wholes(prefix) + rest == [Whole(prefix[0])] + (Wholes(prefix[1..]) + rest)
  {
  }

  lemma {:induction false} SelectedWholes(cs: seq<Order>, ref: OutRef)
    ensures ref in Selected(Wholes(cs)) <==> exists i :: 0 <= i < |cs| && cs[i].ref == ref
  {
    if cs != [] {
      SelectedWholes(cs[1..], ref);
      assert Wholes(cs)[1..] == Wholes(cs[1..]);
      if i :| 0 <= i < |cs| && cs[i].ref == ref {
        assert i > 0 ==> cs[1..][i - 1].ref == ref;
      }
      if i :| 0 <= i < |cs[1..]| && cs[1..][i].ref == ref {
        assert cs[i + 1].ref == ref;
      }
    }
  }

  lemma {:induction false} SelectedSkipped(cs: seq<Order>, j: nat, selected: set<OutRef>, remaining: int, minPartialSpend: int)
    requires Positive(cs) && j <= |cs| && forall i | 0 <= i < j :: cs[i].ref in selected
    ensures FirstMarginal(cs, selected, remaining, minPartialSpend)
         == FirstMarginal(cs[j..], selected, remaining, minPartialSpend)
  {
    if j == 0 {
      assert cs[0..] == cs;
    } else {
      SelectedSkipped(cs[1..], j - 1, selected, remaining, minPartialSpend);
      assert cs[1..][j - 1..] == cs[j..];
    }
  }

  lemma {:induction false} SameSelection(cs: seq<Order>, a: set<OutRef>, b: set<OutRef>, remaining: int, minPartialSpend: int)
    requires Positive(cs) && forall i | 0 <= i < |cs| :: cs[i].ref in a <==> cs[i].ref in b
    ensures FirstMarginal(cs, a, remaining, minPartialSpend) == FirstMarginal(cs, b, remaining, minPartialSpend)
  {
    if cs != [] {
      SameSelection(cs[1..], a, b, remaining, minPartialSpend);
    }
  }

  lemma {:induction false} MarginalSplits(cs: seq<Order>, j: nat, rest: seq<Leg>, remaining: int, minPartialSpend: int)
    requires Positive(cs) && DistinctOrders(cs) && j <= |cs|
    ensures FirstMarginal(cs, Selected(Wholes(cs[..j]) + rest), remaining, minPartialSpend)
         == FirstMarginal(cs[j..], Selected(rest), remaining, minPartialSpend)
  {
    var selected := Selected(Wholes(cs[..j]) + rest);
    TotalsAppend(Wholes(cs[..j]), rest);
    forall i | 0 <= i < |cs| ensures cs[i].ref in Selected(Wholes(cs[..j])) <==> i < j {
      SelectedWholes(cs[..j], cs[i].ref);
      if i < j { assert cs[..j][i].ref == cs[i].ref; }
    }
    SelectedSkipped(cs, j, selected, remaining, minPartialSpend);
    SameSelection(cs[j..], selected, Selected(rest), remaining, minPartialSpend);
  }

  /** What the leftover budget adds to the whole legs. */
  function Extra(cs: seq<Order>, whole: seq<Leg>, left: int, minPartialSpend: int): seq<Leg>
    requires Positive(cs)
  {
    if left > 0 && |whole| < |cs| then FirstMarginal(cs, Selected(whole), left, minPartialSpend) else []
  }

  lemma {:induction false} SpendLegsAre(cs: seq<Order>, p: Params)
    requires p.mode == Spend && Positive(cs)
    ensures LegsOf(cs, p)
         == SpendLegs(cs, p.limit) + Extra(cs, SpendLegs(cs, p.limit), SpendLeft(cs, p.limit), p.minPartialSpend)
  {
    assert SpendLegs(cs, p.limit) + [] == SpendLegs(cs, p.limit);
  }

  lemma {:induction false} ExtraSplits(cs: seq<Order>, j: nat, later: seq<Leg>, left: int, minPartialSpend: int)
    requires Positive(cs) && DistinctOrders(cs) && j <= |cs|
    ensures Extra(cs, Wholes(cs[..j]) + later, left, minPartialSpend) == Extra(cs[j..], later, left, minPartialSpend)
  {
    WholesTotal(cs, j);
    MarginalSplits(cs, j, later, left, minPartialSpend);
  }

  lemma {:induction false} JoinLegs(a: seq<Leg>, b: seq<Leg>, c: seq<Leg>)
    ensures (a + b) + c == a + (b + c)
  {
  }

  lemma {:induction false} SpendLegsSplit(cs: seq<Order>, p: Params)
    requires p.mode == Spend && Positive(cs) && DistinctOrders(cs)
    ensures var j, left := AffordAt(cs, p.limit), LeftAt(cs, p.limit);
      LegsOf(cs, p) == Wholes(cs[..j]) + LegsOf(cs[j..], p.(limit := left))
  {
    var j, left := AffordAt(cs, p.limit), LeftAt(cs, p.limit);
    var later := SpendLegs(cs[j..], left);
    SpendSplits(cs, p.limit);
    SpendLegsAre(cs, p);
    SpendLegsAre(cs[j..], p.(limit := left));
    ExtraSplits(cs, j, later, SpendLeft(cs[j..], left), p.minPartialSpend);
    JoinLegs(Wholes(cs[..j]), later, Extra(cs[j..], later, SpendLeft(cs[j..], left), p.minPartialSpend));
  }

  /** The spend route: the affordable prefix whole, then what the planner makes of the rest. */
  lemma {:induction false} SpendRouteSplits(cs: seq<Order>, p: Params)
    requires p.mode == Spend && Positive(cs) && DistinctOrders(cs)
    ensures var j, left := AffordAt(cs, p.limit), LeftAt(cs, p.limit);
      && LegsOf(cs, p) == Wholes(cs[..j]) + LegsOf(cs[j..], p.(limit := left))
      && TotalReceive(LegsOf(cs, p)) == OfferOfFirst(cs, j) + TotalReceive(LegsOf(cs[j..], p.(limit := left)))
  {
    var j, left := AffordAt(cs, p.limit), LeftAt(cs, p.limit);
    SpendLegsSplit(cs, p);
    WholesTotal(cs, j);
    TotalsAppend(Wholes(cs[..j]), LegsOf(cs[j..], p.(limit := left)));
  }

  /** No plan within the budget, cutting whatever orders it likes, receives more. */
  ghost predicate MostWithin(cs: seq<Order>, limit: int, received: int)
    requires Positive(cs)
  {
    forall plan | IsPlan(cs, plan) && PlanCost(cs, plan) <= limit :: Sum(plan) <= received
  }

  lemma {:induction false} MostWithinIs(cs: seq<Order>, limit: int, received: int)
    requires Positive(cs) && Sorted(Before, cs) && limit >= 0
    ensures MostWithin(cs, limit, received) <==> MostFor(cs, limit) <= received
  {
    var best := PlanReceivesExactly(cs, limit);
    assert MostWithin(cs, limit, received) ==> Sum(best) <= received;
    forall plan | IsPlan(cs, plan) && PlanCost(cs, plan) <= limit ensures Sum(plan) <= MostFor(cs, limit) {
      PlanReceivesAtMost(cs, limit, plan);
    }
  }

  /** What cutting the first order out of reach would bring, against what the planner makes of the same money. */
  predicate RestIsExact(cs: seq<Order>, p: Params)
    requires Positive(cs)
  {
    var j, left := AffordAt(cs, p.limit), LeftAt(cs, p.limit);
    j == |cs|
    || MaxTakeForSpend(left, cs[j].requestedAmount, cs[j].offeredAmount) <= TotalReceive(LegsOf(cs[j..], p.(limit := left)))
  }

  /**
   * Spend mode is optimal exactly when the budget buys the whole book, or when what it
   * makes of the money left after the affordable prefix is no less than cutting the next
   * order would bring: then, and only then, no plan within the budget receives more.
   */
  lemma {:induction false} SpendOptimalExactly(orders: seq<Order>, p: Params)
    requires p.maxOrdersPerTx > 0 && p.mode == Spend && p.limit >= 0 && DistinctBook(orders)
    ensures Positive(Candidates(orders, p))
    ensures MostWithin(Candidates(orders, p), p.limit, PlannedRoute(orders, p).totalReceive)
       <==> RestIsExact(Candidates(orders, p), p)
  {
    var cs := Candidates(orders, p);
    CandidatesPositive(orders, p);
    BookIsSet(orders);
    CandidatesSorted(orders, p);
    CandidatesDistinct(orders, p);
    SpendOnCandidates(cs, p);
  }

  lemma {:induction false} SpendOnCandidates(cs: seq<Order>, p: Params)
    requires p.mode == Spend && p.limit >= 0 && Positive(cs) && Sorted(Before, cs) && DistinctOrders(cs)
    ensures MostWithin(cs, p.limit, TotalReceive(LegsOf(cs, p))) <==> RestIsExact(cs, p)
  {
    SpendRouteSplits(cs, p);
    MostWithinIs(cs, p.limit, TotalReceive(LegsOf(cs, p)));
    if AffordAt(cs, p.limit) == |cs| {
      NothingBeyond(cs, p);
    }
  }

  lemma {:induction false} NothingBeyond(cs: seq<Order>, p: Params)
    requires p.mode == Spend && Positive(cs) && AffordAt(cs, p.limit) == |cs|
    ensures TotalReceive(LegsOf(cs[AffordAt(cs, p.limit)..], p.(limit := LeftAt(cs, p.limit)))) == 0
  {
    assert cs[|cs|..] == [];
  }

  /** Otherwise what it gives up, against any plan, is at most what cutting the next order would bring over what it bought. */
  lemma {:induction false} SpendFallsShortByAtMost(orders: seq<Order>, p: Params, plan: seq<int>)
    requires p.maxOrdersPerTx > 0 && p.mode == Spend && p.limit >= 0 && DistinctBook(orders)
    requires AffordAt(Candidates(orders, p), p.limit) < |Candidates(orders, p)|
    requires Positive(Candidates(orders, p)) && IsPlan(Candidates(orders, p), plan)
    requires PlanCost(Candidates(orders, p), plan) <= p.limit
    ensures var cs := Candidates(orders, p);
      var j, left := AffordAt(cs, p.limit), LeftAt(cs, p.limit);
      Sum(plan) - PlannedRoute(orders, p).totalReceive
        <= MaxTakeForSpend(left, cs[j].requestedAmount, cs[j].offeredAmount)
           - TotalReceive(LegsOf(cs[j..], p.(limit := left)))
  {
    BookIsSet(orders);
    CandidatesSorted(orders, p);
    CandidatesDistinct(orders, p);
    SpendRouteSplits(Candidates(orders, p), p);
    PlanReceivesAtMost(Candidates(orders, p), p.limit, plan);
  }

  /** Every candidate after the first out of reach asks more than what is left. */
  predicate NothingLaterFits(cs: seq<Order>, limit: int) {
    forall i | AffordAt(cs, limit) <= i < |cs| :: cs[i].requestedAmount > LeftAt(cs, limit)
  }

  lemma {:induction false} NoneFits(cs: seq<Order>, remaining: int)
    requires forall i | 0 <= i < |cs| :: cs[i].requestedAmount > remaining
    ensures SpendLegs(cs, remaining) == [] && SpendLeft(cs, remaining) == remaining
  {
    if cs != [] {
      NoneFits(cs[1..], remaining);
    }
  }

  /** With nothing whole to buy, a route is its one marginal leg. */
  lemma {:induction false} OnlyMarginal(cs: seq<Order>, p: Params)
    requires p.mode == Spend && Positive(cs) && p.limit >= 0
    requires forall i | 0 <= i < |cs| :: cs[i].requestedAmount > p.limit
    ensures LegsOf(cs, p) == FirstMarginal(cs, {}, p.limit, p.minPartialSpend)
  {
    NoneFits(cs, p.limit);
    assert [] + FirstMarginal(cs, {}, p.limit, p.minPartialSpend) == FirstMarginal(cs, {}, p.limit, p.minPartialSpend);
    if p.limit == 0 {
      NoMoneyNoLeg(cs, {}, p.minPartialSpend);
    }
  }

  lemma {:induction false} NoMoneyNoLeg(cs: seq<Order>, selected: set<OutRef>, minPartialSpend: int)
    requires Positive(cs)
    ensures FirstMarginal(cs, selected, 0, minPartialSpend) == []
  {
    if cs != [] {
      NoMoneyNoLeg(cs[1..], selected, minPartialSpend);
    }
  }

  /** Money left buys more than dust of the order. */
  predicate CanAbsorb(o: Order, left: int, minPartialSpend: int)
    requires o.offeredAmount > 0 && o.requestedAmount > 0
  {
    var take := MaxTakeForSpend(left, o.requestedAmount, o.offeredAmount);
    o.allowPartialFill && take > 0 && Owed(take, o.requestedAmount, o.offeredAmount) >= minPartialSpend
  }

  /** The first candidate from j on that can absorb the money left, or none. */
  function FirstAbsorbing(cs: seq<Order>, j: nat, left: int, minPartialSpend: int): (k: nat)
    requires Positive(cs) && j <= |cs|
    ensures j <= k <= |cs|
    ensures forall i | j <= i < k :: !CanAbsorb(cs[i], left, minPartialSpend)
    ensures k < |cs| ==> CanAbsorb(cs[k], left, minPartialSpend)
    decreases |cs| - j
  {
    if j == |cs| || CanAbsorb(cs[j], left, minPartialSpend) then j else FirstAbsorbing(cs, j + 1, left, minPartialSpend)
  }

  /** What that candidate gives for it. */
  function Absorbed(cs: seq<Order>, j: nat, left: int, minPartialSpend: int): int
    requires Positive(cs) && j <= |cs|
  {
    var k := FirstAbsorbing(cs, j, left, minPartialSpend);
    if k == |cs| then 0 else MaxTakeForSpend(left, cs[k].requestedAmount, cs[k].offeredAmount)
  }

  lemma {:induction false} MarginalIsAbsorbed(cs: seq<Order>, j: nat, left: int, minPartialSpend: int)
    requires Positive(cs) && j <= |cs|
    ensures TotalReceive(FirstMarginal(cs[j..], {}, left, minPartialSpend)) == Absorbed(cs, j, left, minPartialSpend)
    decreases |cs| - j
  {
    if j < |cs| {
      assert cs[j..][0] == cs[j] && cs[j..][1..] == cs[j + 1..];
      MarginalIsAbsorbed(cs, j + 1, left, minPartialSpend);
      if CanAbsorb(cs[j], left, minPartialSpend) {
        var l := MarginalLeg(cs[j], left, minPartialSpend).value;
        assert FirstMarginal(cs[j..], {}, left, minPartialSpend) == [l] && [l][1..] == [];
        assert TotalReceive([l]) == l.receive;
      }
    }
  }

  lemma {:induction false} RestWhenNothingFits(cs: seq<Order>, p: Params)
    requires p.mode == Spend && p.limit >= 0 && Positive(cs) && AffordAt(cs, p.limit) < |cs| && NothingLaterFits(cs, p.limit)
    ensures var j, left := AffordAt(cs, p.limit), LeftAt(cs, p.limit);
      TotalReceive(LegsOf(cs[j..], p.(limit := left))) == Absorbed(cs, j, left, p.minPartialSpend)
  {
    var j, left := AffordAt(cs, p.limit), LeftAt(cs, p.limit);
    AffordBounds(cs, p.limit);
    OnlyMarginal(cs[j..], p.(limit := left));
    MarginalIsAbsorbed(cs, j, left, p.minPartialSpend);
  }

  /**
   * Read off the book when no later order fits the money left: optimal exactly when the
   * first order that can be cut for more than dust gives as much for it as the first order
   * out of reach would; so whenever that order itself can be cut, or nothing is left.
   */
  lemma {:induction false} SpendOptimalOnPrefix(orders: seq<Order>, p: Params)
    requires p.maxOrdersPerTx > 0 && p.mode == Spend && p.limit >= 0 && DistinctBook(orders)
    requires AffordAt(Candidates(orders, p), p.limit) < |Candidates(orders, p)|
    requires NothingLaterFits(Candidates(orders, p), p.limit)
    ensures Positive(Candidates(orders, p))
    ensures var cs := Candidates(orders, p);
      var j, left := AffordAt(cs, p.limit), LeftAt(cs, p.limit);
      var best := MostWithin(cs, p.limit, PlannedRoute(orders, p).totalReceive);
      && (best <==> MaxTakeForSpend(left, cs[j].requestedAmount, cs[j].offeredAmount)
                    <= Absorbed(cs, j, left, p.minPartialSpend))
      && (left == 0 || CanAbsorb(cs[j], left, p.minPartialSpend) ==> best)
  {
    CandidatesPositive(orders, p);
    SpendOptimalExactly(orders, p);
    RestWhenNothingFits(Candidates(orders, p), p);
    AbsorbsItself(Candidates(orders, p), AffordAt(Candidates(orders, p), p.limit), LeftAt(Candidates(orders, p), p.limit),
      p.minPartialSpend);
  }

  lemma {:induction false} AbsorbsItself(cs: seq<Order>, j: nat, left: int, minPartialSpend: int)
    requires Positive(cs) && j < |cs|
    ensures left == 0 || CanAbsorb(cs[j], left, minPartialSpend) ==>
      MaxTakeForSpend(left, cs[j].requestedAmount, cs[j].offeredAmount) <= Absorbed(cs, j, left, minPartialSpend)
  {
  }

  // ------------------------------------------- when a later order still fits

  /** Candidate i is the first from j on whose whole ask the money left covers. */
  predicate FirstToFit(cs: seq<Order>, j: nat, i: nat, left: int) {
    j <= i < |cs| && cs[i].requestedAmount <= left && forall m | j <= m < i :: cs[m].requestedAmount > left
  }

  lemma {:induction false} SpendsOnFirstToFit(cs: seq<Order>, j: nat, i: nat, left: int)
    requires FirstToFit(cs, j, i, left)
    ensures SpendLegs(cs[j..], left) != [] && SpendLegs(cs[j..], left)[0] == Whole(cs[i])
    decreases i - j
  {
    assert cs[j..][0] == cs[j] && cs[j..][1..] == cs[j + 1..];
    if j < i {
      SpendsOnFirstToFit(cs, j + 1, i, left);
    }
  }

  /** What each leg gives costs at least what o asks for as much. */
  ghost predicate NoneCheaper(legs: seq<Leg>, o: Order) {
    forall k | 0 <= k < |legs| :: Executable(legs[k]) && NotDearer(o, legs[k].order)
  }

  /** Legs no cheaper than o give no more, together, than o would at its price. */
  lemma {:induction false} LegsGiveAtMost(legs: seq<Leg>, o: Order)
    requires o.offeredAmount > 0 && o.requestedAmount > 0 && NoneCheaper(legs, o)
    ensures TotalReceive(legs) * o.requestedAmount <= TotalSpend(legs) * o.offeredAmount
  {
    if legs != [] {
      assert NoneCheaper(legs[1..], o);
      LegsGiveAtMost(legs[1..], o);
      LegGivesAtMost(legs[0], o);
      AddProducts(legs[0].spend, TotalSpend(legs[1..]), o.offeredAmount,
        legs[0].receive, TotalReceive(legs[1..]), o.requestedAmount);
    }
  }

  lemma {:induction false} LegGivesAtMost(l: Leg, o: Order)
    requires o.offeredAmount > 0 && o.requestedAmount > 0 && Executable(l) && NotDearer(o, l.order)
    ensures l.spend * o.offeredAmount >= l.receive * o.requestedAmount
  {
    if l.takeAmount.Some? {
      OwedBounds(l.takeAmount.value, l.order.requestedAmount, l.order.offeredAmount);
    }
    DearItem(l.spend, l.receive, l.order.requestedAmount, l.order.offeredAmount, o.requestedAmount, o.offeredAmount);
  }

  /** The rest of the route: first the first order that fits, then nothing cheaper than the order out of reach. */
  lemma {:induction false} RestReceivesAtMost(cs: seq<Order>, p: Params, j: nat, i: nat)
    requires p.mode == Spend && Positive(cs) && DistinctOrders(cs) && Sorted(Before, cs)
    requires FirstToFit(cs, j, i, p.limit) && p.limit >= 0
    ensures TotalReceive(LegsOf(cs[j..], p))
         <= cs[i].offeredAmount + (p.limit - cs[i].requestedAmount) * cs[j].offeredAmount / cs[j].requestedAmount
  {
    var legs := LegsOf(cs[j..], p);
    RestShape(cs, p, j, i);
    SpendsWithin(cs[j..], p);
    FirstThenAtPrice(legs, cs[i], cs[j], p.limit);
  }

  lemma {:induction false} RestShape(cs: seq<Order>, p: Params, j: nat, i: nat)
    requires p.mode == Spend && Positive(cs) && DistinctOrders(cs) && Sorted(Before, cs)
    requires FirstToFit(cs, j, i, p.limit)
    ensures LegsOf(cs[j..], p) != [] && LegsOf(cs[j..], p)[0] == Whole(cs[i])
    ensures NoneCheaper(LegsOf(cs[j..], p), cs[j])
  {
    var rest := cs[j..];
    var legs := LegsOf(rest, p);
    SpendsOnFirstToFit(cs, j, i, p.limit);
    LegsAreGood(rest, p);
    forall k | 0 <= k < |legs| ensures NotDearer(cs[j], legs[k].order) {
      NoneCheaperThanFirst(cs, j, legs[k].order);
    }
  }

  /** A first whole order, and no later leg cheaper than o. */
  lemma {:induction false} FirstThenAtPrice(legs: seq<Leg>, first: Order, o: Order, limit: int)
    requires legs != [] && legs[0] == Whole(first) && TotalSpend(legs) <= limit
    requires o.offeredAmount > 0 && o.requestedAmount > 0 && NoneCheaper(legs, o)
    ensures TotalReceive(legs)
         <= first.offeredAmount + (limit - first.requestedAmount) * o.offeredAmount / o.requestedAmount
  {
    var rest, left := legs[1..], limit - first.requestedAmount;
    assert NoneCheaper(rest, o);
    LegsGiveAtMost(rest, o);
    assert TotalSpend(rest) * o.offeredAmount <= left * o.offeredAmount;
    FloorIsGreatest(left * o.offeredAmount, o.requestedAmount, TotalReceive(rest));
  }

  lemma {:induction false} NoneCheaperThanFirst(cs: seq<Order>, j: nat, o: Order)
    requires Sorted(Before, cs) && j < |cs| && o in cs[j..]
    ensures NotDearer(cs[j], o)
  {
    var k :| 0 <= k < |cs[j..]| && cs[j..][k] == o;
    if k > 0 {
      PriceOrdered(cs, j, j + k);
    }
  }

  /** Cutting candidate j for the money left brings no more than candidate i and, at j's price, the money left after i. */
  predicate CutBringsNoMore(cs: seq<Order>, j: nat, i: nat, left: int)
    requires Positive(cs) && FirstToFit(cs, j, i, left)
  {
    MaxTakeForSpend(left, cs[j].requestedAmount, cs[j].offeredAmount)
      <= cs[i].offeredAmount + (left - cs[i].requestedAmount) * cs[j].offeredAmount / cs[j].requestedAmount
  }

  /**
   * When a later order still fits, spend mode can only be optimal if cutting the order out
   * of reach brings no more than that later order and, at the price of the order out of
   * reach, the money then left.
   */
  lemma {:induction false} SpendOptimalNeeds(orders: seq<Order>, p: Params, i: nat)
    requires p.maxOrdersPerTx > 0 && p.mode == Spend && p.limit >= 0 && DistinctBook(orders)
    requires FirstToFit(Candidates(orders, p), AffordAt(Candidates(orders, p), p.limit), i, LeftAt(Candidates(orders, p), p.limit))
    requires Positive(Candidates(orders, p))
    requires MostWithin(Candidates(orders, p), p.limit, PlannedRoute(orders, p).totalReceive)
    ensures CutBringsNoMore(Candidates(orders, p), AffordAt(Candidates(orders, p), p.limit), i, LeftAt(Candidates(orders, p), p.limit))
  {
    OptimalRest(orders, p);
    RestNeeds(Candidates(orders, p), p, i);
  }

  lemma {:induction false} OptimalRest(orders: seq<Order>, p: Params)
    requires p.maxOrdersPerTx > 0 && p.mode == Spend && p.limit >= 0 && DistinctBook(orders) && Positive(Candidates(orders, p))
    requires MostWithin(Candidates(orders, p), p.limit, PlannedRoute(orders, p).totalReceive)
    ensures Sorted(Before, Candidates(orders, p)) && DistinctOrders(Candidates(orders, p)) && RestIsExact(Candidates(orders, p), p)
  {
    BookIsSet(orders);
    CandidatesSorted(orders, p);
    CandidatesDistinct(orders, p);
    SpendOptimalExactly(orders, p);
  }

  lemma {:induction false} RestNeeds(cs: seq<Order>, p: Params, i: nat)
    requires p.mode == Spend && p.limit >= 0 && Positive(cs) && DistinctOrders(cs) && Sorted(Before, cs)
    requires FirstToFit(cs, AffordAt(cs, p.limit), i, LeftAt(cs, p.limit)) && RestIsExact(cs, p)
    ensures CutBringsNoMore(cs, AffordAt(cs, p.limit), i, LeftAt(cs, p.limit))
  {
    AffordBounds(cs, p.limit);
    RestReceivesAtMost(cs, p.(limit := LeftAt(cs, p.limit)), AffordAt(cs, p.limit), i);
  }

  lemma {:induction false} BookIsSet(orders: seq<Order>)
    requires DistinctBook(orders)
    ensures DistinctIds(Elements(orders))
  {
    forall o, o' | o in Elements(orders) && o' in Elements(orders) && o != o' ensures o.ref != o'.ref {
      var i :| 0 <= i < |orders| && orders[i] == o;
      var j :| 0 <= j < |orders| && orders[j] == o';
    }
  }

  // ------------------------------------------------ where greedy falls short

  predicate WholeOnly(o: Order, offered: int, requested: int) {
    o.offeredAmount == offered && o.requestedAmount == requested && !o.allowPartialFill
  }

  lemma {:induction false} TwoCandidates(a: Order, b: Order, p: Params)
    requires Eligible(a, p) && Eligible(b, p) && Cheaper(a, b)
    ensures Candidates([a, b], p) == [a, b]
  {
    assert [a, b][1..] == [b] && [b][1..] == [];
    assert Filter([b], p) == [b] + Filter([b][1..], p) == [b];
    assert [a, b][0] == a;
    assert Filter([a, b], p) == [a] + Filter([a, b][1..], p) == [a, b];
    SortedPair(a, b);
  }

  lemma {:induction false} SortedPair(a: Order, b: Order)
    requires Cheaper(a, b)
    ensures Sort(Before, [a, b]) == [a, b]
  {
    assert [a, b][0] == a && [a, b][1..] == [b] && [b][1..] == [];
    assert Sort(Before, [b][1..]) == [];
    assert Sort(Before, [b]) == Insert(Before, b, []) == [b];
    assert [b][0] == b && !Before(b, a);
    assert Insert(Before, a, [b]) == [a] + [b] == [a, b];
  }

  /**
   * With 100 to spend on two orders that cannot be cut, spend mode buys 60 for 51 and then
   * cannot afford 100 for 100, which a plan of whole orders would have bought.
   */
  lemma {:induction false} SpendCanFallShort(a: Order, b: Order, p: Params)
    requires WholeOnly(a, 60, 51) && WholeOnly(b, 100, 100) && a.ref != b.ref
    requires Eligible(a, p) && Eligible(b, p)
    requires p.maxOrdersPerTx > 0 && p.mode == Spend && p.limit == 100
    ensures Candidates([a, b], p) == [a, b] && Positive([a, b])
    ensures IsPlan([a, b], [0, 100]) && PlanCost([a, b], [0, 100]) <= p.limit
    ensures PlannedRoute([a, b], p).totalReceive == 60 < Sum([0, 100])
  {
    TwoCandidates(a, b, p);
    BuysFirstOnly(a, b, p);
    SecondAlone(a, b, 100);
    assert [0, 100][1..] == [100] && [100][1..] == [];
  }

  lemma {:induction false} BuysFirstOnly(a: Order, b: Order, p: Params)
    requires WholeOnly(a, 60, 51) && WholeOnly(b, 100, 100) && a.ref != b.ref
    requires p.mode == Spend && p.limit == 100
    ensures Positive([a, b]) && LegsOf([a, b], p) == [Whole(a)] && TotalReceive([Whole(a)]) == 60
  {
    var cs := [a, b];
    assert cs[1..] == [b] && cs[1..][1..] == [];
    assert [b][1..] == [] && SpendLegs([b], 49) == [];
    assert SpendLegs(cs, 100) == [Whole(a)] + SpendLegs(cs[1..], 100 - a.requestedAmount);
    assert [Whole(a)][1..] == [] && Selected([Whole(a)]) == {a.ref};
    assert FirstMarginal([b], {a.ref}, 49, p.minPartialSpend) == [];
    assert FirstMarginal(cs, {a.ref}, 49, p.minPartialSpend) == [];
    assert SpendLeft([b], 49) == SpendLeft([b][1..], 49) == 49;
    assert SpendLeft(cs, 100) == SpendLeft(cs[1..], 49) == 49;
    assert LegsOf(cs, p) == [Whole(a)] + [];
  }

  /** The plan that leaves the first of two orders and takes the second whole. */
  lemma {:induction false} SecondAlone(a: Order, b: Order, offered: int)
    requires Positive([a, b]) && b.offeredAmount == offered
    ensures IsPlan([a, b], [0, offered]) && PlanCost([a, b], [0, offered]) == b.requestedAmount
  {
    assert [a, b][0] == a && [a, b][1] == b;
    PrefixPlanIs([a, b][1..], 0, offered);
    assert [a, b][1..] == [b] && PrefixPlan([b], 0, offered) == [offered];
    TakeCostBound(b, offered);
    PlanCons([a, b], 0, [offered]);
    assert [0] + [offered] == [0, offered];
  }

  /**
   * For 20 from two orders that cannot be cut, receive mode takes 15 for 15 and then
   * overshoots with 20 for 22, where the second order alone would have done.
   */
  lemma {:induction false} ReceiveCanOverpay(a: Order, b: Order, p: Params)
    requires WholeOnly(a, 15, 15) && WholeOnly(b, 20, 22) && Eligible(a, p) && Eligible(b, p)
    requires p.maxOrdersPerTx > 0 && p.mode == Receive && p.limit == 20
    ensures Candidates([a, b], p) == [a, b] && Positive([a, b])
    ensures IsPlan([a, b], [0, 20]) && Sum([0, 20]) >= p.limit
    ensures PlanCost([a, b], [0, 20]) == 22 < PlannedRoute([a, b], p).totalSpend
  {
    TwoCandidates(a, b, p);
    TakesBoth(a, b, p);
    SecondAlone(a, b, 20);
    assert [0, 20][1..] == [20] && [20][1..] == [];
  }

  lemma {:induction false} TakesBoth(a: Order, b: Order, p: Params)
    requires WholeOnly(a, 15, 15) && WholeOnly(b, 20, 22) && p.mode == Receive && p.limit == 20
    ensures Positive([a, b]) && TotalSpend(LegsOf([a, b], p)) == 37
  {
    var cs := [a, b];
    assert cs[1..] == [b] && cs[1..][1..] == [];
    assert ReceiveLegs([], -15) == [] && ReceiveLegs([b], 5) == [Whole(b)];
    assert LegsOf(cs, p) == [Whole(a)] + [Whole(b)];
    TotalsAppend([Whole(a)], [Whole(b)]);
    assert [Whole(a)][1..] == [] && [Whole(b)][1..] == [];
  }

  // ------------------------------------------------------------ ratios

  /** The price text reads back as the ratio, truncated at the precision. */
  lemma {:induction false} RatioReadsBack(numerator: nat, denominator: nat, precision: nat)
    requires denominator > 0
    ensures TokenAmounts.ToRawAmount(RatioToDecimal(numerator, denominator, precision), precision)
         == Some(numerator * Pow10(precision) / denominator)
  {
    var q := numerator * Pow10(precision) / denominator;
    assert q >= 0;
    TokenAmounts.ReadBackPrinted(q, precision);
  }
}
