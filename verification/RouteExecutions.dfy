/**
 * A Smart Fill route executed batch by batch: on current orders the builder accepts every
 * batch of the route, and its taker net is what the route promises for those legs, with
 * the partial leg's min-ADA taken off the lovelace line.
 */
module RouteExecutions {
  import opened Wrappers
  import opened Sequences
  import opened Pricing
  import opened Beacons
  import opened Orders
  import opened Ledger
  import opened TxBuilder
  import opened TxBuilderProofs
  import opened Arbitrage
  import opened ArbitrageProofs
  import opened Executions
  import SmartFill
  import SmartFillProofs

  /** A route's leg as a leg to execute. */
  function ExecutedLeg(l: SmartFill.Leg): ArbLeg {
    ArbLeg(l.order.ref, RequestedAssetId(l.order), l.spend, OfferedAssetId(l.order), l.receive, l.order.expiration, l.takeAmount)
  }

  function ExecutedLegs(legs: seq<SmartFill.Leg>): (r: seq<ArbLeg>)
    ensures |r| == |legs| && forall i | 0 <= i < |legs| :: r[i] == ExecutedLeg(legs[i])
  {
    seq(|legs|, i requires 0 <= i < |legs| => ExecutedLeg(legs[i]))
  }

  function LegOrders(legs: seq<SmartFill.Leg>): (r: seq<Order>)
    ensures |r| == |legs| && forall i | 0 <= i < |legs| :: r[i] == legs[i].order
  {
    seq(|legs|, i requires 0 <= i < |legs| => legs[i].order)
  }

  /** The batch request: ids in route order, with the take of a partial leg. */
  function Requests(legs: seq<SmartFill.Leg>): seq<TakeLeg> {
    RequestsOf(ExecutedLegs(legs))
  }

  lemma {:induction false} RouteLegIsOf(l: SmartFill.Leg)
    requires SmartFillProofs.Executable(l)
    ensures LegOf(l.order, ExecutedLeg(l))
  {
    if l.takeAmount.Some? {
      OwedBounds(l.takeAmount.value, l.order.requestedAmount, l.order.offeredAmount);
    } else {
      assert l.receive * l.order.requestedAmount <= l.spend * l.order.offeredAmount;
    }
  }

  /** Every leg trades the route's two assets. */
  ghost predicate TradesOnly(legs: seq<SmartFill.Leg>, spendAsset: string, receiveAsset: string) {
    forall i | 0 <= i < |legs| ::
      RequestedAssetId(legs[i].order) == spendAsset && OfferedAssetId(legs[i].order) == receiveAsset
  }

  lemma {:induction false} RouteFlows(legs: seq<SmartFill.Leg>, spendAsset: string, receiveAsset: string, asset: string)
    requires TradesOnly(legs, spendAsset, receiveAsset)
    ensures Flows(ExecutedLegs(legs), asset)
         == (if asset == receiveAsset then SmartFill.TotalReceive(legs) else 0)
            - (if asset == spendAsset then SmartFill.TotalSpend(legs) else 0)
  {
    if legs != [] {
      var init, last := legs[..|legs| - 1], legs[|legs| - 1];
      RouteFlows(init, spendAsset, receiveAsset, asset);
      assert ExecutedLegs(legs)[..|legs| - 1] == ExecutedLegs(init);
      assert legs == init + [last] && [last][1..] == [];
      SmartFill.TotalsAppend(init, [last]);
    }
  }

  /** Consecutive legs. */
  ghost predicate IsSlice(legs: seq<SmartFill.Leg>, batch: seq<SmartFill.Leg>) {
    exists a: nat, b: nat :: a <= b <= |legs| && batch == legs[a..b]
  }

  /** A batch of the route. */
  ghost predicate IsBatch(orders: seq<Order>, p: SmartFill.Params, batch: seq<SmartFill.Leg>)
    requires p.maxOrdersPerTx > 0
  {
    IsSlice(SmartFill.PlannedRoute(orders, p).legs, batch)
  }

  /** Executable legs on pairwise distinct orders of the book, over the route's assets. */
  ghost predicate GoodBatch(batch: seq<SmartFill.Leg>, p: SmartFill.Params) {
    && (forall i | 0 <= i < |batch| :: SmartFillProofs.Executable(batch[i]) && SmartFill.Eligible(batch[i].order, p))
    && (forall i, j | 0 <= i < j < |batch| :: batch[i].order.ref != batch[j].order.ref)
  }

  lemma {:induction false} BatchIsGood(orders: seq<Order>, p: SmartFill.Params, batch: seq<SmartFill.Leg>)
    requires p.maxOrdersPerTx > 0 && DistinctOrders(orders) && IsBatch(orders, p, batch)
    ensures GoodBatch(batch, p)
    ensures forall i | 0 <= i < |batch| :: batch[i].order in orders
  {
    RouteIsGood(orders, p, SmartFill.PlannedRoute(orders, p).legs);
    SliceIsGood(SmartFill.PlannedRoute(orders, p).legs, p, batch);
  }

  lemma {:induction false} RouteIsGood(orders: seq<Order>, p: SmartFill.Params, legs: seq<SmartFill.Leg>)
    requires p.maxOrdersPerTx > 0 && DistinctOrders(orders) && legs == SmartFill.PlannedRoute(orders, p).legs
    ensures GoodBatch(legs, p)
    ensures forall i | 0 <= i < |legs| :: legs[i].order in orders
  {
    SmartFillProofs.RouteIsExecutable(orders, p);
    SmartFill.CandidatesPositive(orders, p);
  }

  lemma {:induction false} SliceIsGood(legs: seq<SmartFill.Leg>, p: SmartFill.Params, batch: seq<SmartFill.Leg>)
    requires GoodBatch(legs, p) && IsSlice(legs, batch)
    ensures GoodBatch(batch, p)
    ensures forall i | 0 <= i < |batch| :: batch[i] in legs
  {
    var a: nat, b: nat :| a <= b <= |legs| && batch == legs[a..b];
    forall i | 0 <= i < |batch| ensures SmartFillProofs.Executable(batch[i]) && SmartFill.Eligible(batch[i].order, p) {
      assert batch[i] == legs[a + i];
    }
    forall i, j | 0 <= i < j < |batch| ensures batch[i].order.ref != batch[j].order.ref {
      assert batch[i] == legs[a + i] && batch[j] == legs[a + j];
    }
  }

  ghost function Stands(proto: Protocol, utxos: map<OutRef, TxOut>): SmartFill.Leg -> bool {
    (l: SmartFill.Leg) => Current(proto, utxos, l.order)
  }

  ghost predicate AllCurrent(proto: Protocol, utxos: map<OutRef, TxOut>, batch: seq<SmartFill.Leg>) {
    Each(Stands(proto, utxos), batch)
  }

  lemma {:induction false} BatchIsScanned(proto: Protocol, utxos: map<OutRef, TxOut>, batch: seq<SmartFill.Leg>, p: SmartFill.Params)
    requires GoodBatch(batch, p) && AllCurrent(proto, utxos, batch)
    ensures Executions.Executable(proto, utxos, LegOrders(batch), ExecutedLegs(batch))
  {
    forall i | 0 <= i < |batch| ensures Scanned(proto, utxos, LegOrders(batch)[i], ExecutedLegs(batch)[i]) {
      assert Stands(proto, utxos)(batch[i]);
      RouteLegIsOf(batch[i]);
    }
  }

  /** The min-ADA of a batch: the gift on its partial leg, if the batch holds it. */
  function BatchMinAda(batch: seq<SmartFill.Leg>): int {
    PartialMinAda(ExecutedLegs(batch))
  }

  /** What a batch promises the taker of u: received, spent, and given as min-ADA. */
  function Promised(batch: seq<SmartFill.Leg>, p: SmartFill.Params, u: Unit): int
    requires ApiUnit(u)
  {
    (if AssetIdOf(u) == p.receiveAsset then SmartFill.TotalReceive(batch) else 0)
    - (if AssetIdOf(u) == p.spendAsset then SmartFill.TotalSpend(batch) else 0)
    - (if u == Lovelace then BatchMinAda(batch) else 0)
  }

  /** The builder accepts the batch whole, and its taker net is what the batch promises. */
  ghost predicate Delivers(proto: Protocol, utxos: map<OutRef, TxOut>, wallet: Wallet, batch: seq<SmartFill.Leg>,
                           p: SmartFill.Params, now: int, u: Unit)
    requires ApiUnit(u)
  {
    var r := TakeManyOrders(proto, utxos, wallet, Requests(batch), now);
    r.Ok? && NetOf(r.value.summary.takerNet, u) == Promised(batch, p, u)
  }

  lemma {:induction false} GoodBatchDelivers(proto: Protocol, utxos: map<OutRef, TxOut>, wallet: Wallet,
                                             batch: seq<SmartFill.Leg>, p: SmartFill.Params, now: int, u: Unit)
    requires GoodBatch(batch, p) && BeaconsOnlyInOrders(proto, utxos) && AllCurrent(proto, utxos, batch)
    requires CanExecute(proto, wallet, LegOrders(batch), now) && ApiUnit(u)
    ensures Delivers(proto, utxos, wallet, batch, p, now, u)
  {
    BatchIsScanned(proto, utxos, batch, p);
    ExecutionMatchesScan(proto, utxos, wallet, LegOrders(batch), ExecutedLegs(batch), now, u);
    NetsAreFlows(ExecutedLegs(batch), AssetIdOf(u));
    assert TradesOnly(batch, p.spendAsset, p.receiveAsset);
    RouteFlows(batch, p.spendAsset, p.receiveAsset, AssetIdOf(u));
  }

  /**
   * Every batch of a route, while its orders stand and none has expired, is accepted whole,
   * and the builder's taker net is exactly the batch's receive total of the one asset less
   * its spend total of the other, less the min-ADA on lovelace; only the batch that holds
   * the route's last leg gives any min-ADA.
   */
  lemma {:induction false} RouteBatchDelivers(proto: Protocol, utxos: map<OutRef, TxOut>, wallet: Wallet, orders: seq<Order>,
                                              p: SmartFill.Params, batch: seq<SmartFill.Leg>, now: int, u: Unit)
    requires p.maxOrdersPerTx > 0 && DistinctOrders(orders) && IsBatch(orders, p, batch)
    requires BeaconsOnlyInOrders(proto, utxos) && AllCurrent(proto, utxos, batch)
    requires CanExecute(proto, wallet, LegOrders(batch), now) && ApiUnit(u)
    ensures Delivers(proto, utxos, wallet, batch, p, now, u)
    ensures HoldsLast(SmartFill.PlannedRoute(orders, p).legs, batch) || BatchMinAda(batch) == 0
  {
    BatchIsGood(orders, p, batch);
    GoodBatchDelivers(proto, utxos, wallet, batch, p, now, u);
    SmartFillProofs.RouteIsExecutable(orders, p);
    EarlierSliceGivesNothing(SmartFill.PlannedRoute(orders, p).legs, batch);
  }

  predicate HoldsLast(legs: seq<SmartFill.Leg>, batch: seq<SmartFill.Leg>) {
    legs != [] && legs[|legs| - 1] in batch
  }

  ghost predicate OnlyLastPartial(legs: seq<SmartFill.Leg>) {
    forall i | 0 <= i < |legs| - 1 :: legs[i].takeAmount.None?
  }

  lemma {:induction false} EarlierSliceGivesNothing(legs: seq<SmartFill.Leg>, batch: seq<SmartFill.Leg>)
    requires OnlyLastPartial(legs) && IsSlice(legs, batch)
    ensures HoldsLast(legs, batch) || BatchMinAda(batch) == 0
  {
    var a: nat, b: nat :| a <= b <= |legs| && batch == legs[a..b];
    if a < b == |legs| {
      assert batch[|batch| - 1] == legs[|legs| - 1];
    } else {
      assert forall i | 0 <= i < |batch| :: batch[i] == legs[a + i];
      WholeBatchGivesNothing(batch);
    }
  }

  lemma {:induction false} WholeBatchGivesNothing(batch: seq<SmartFill.Leg>)
    requires forall i | 0 <= i < |batch| :: batch[i].takeAmount.None?
    ensures BatchMinAda(batch) == 0
  {
    if batch != [] {
      var init := batch[..|batch| - 1];
      WholeBatchGivesNothing(init);
      assert ExecutedLegs(batch)[..|batch| - 1] == ExecutedLegs(init);
    }
  }
}
