/**
 * An arbitrage opportunity executed as one batch: the builder accepts every leg the
 * scanner sized, and the taker's net it reports is the scanner's, asset by asset,
 * with the partial payments' min-ADA taken off the lovelace line. Deposits cancel.
 */
module Executions {
  import opened Wrappers
  import opened ByteStrings
  import opened Sequences
  import opened Sorting
  import opened Pricing
  import opened Beacons
  import opened Orders
  import opened OrderDatum
  import opened Ledger
  import opened TxBuilder
  import opened TxBuilderProofs
  import opened Indexer
  import opened Closure
  import opened Batches
  import opened Ancestry
  import opened Arbitrage
  import opened ArbitrageProofs

  // -------------------------------------------------- asset ids and units

  predicate ApiUnit(u: Unit) {
    u.Lovelace? || (|u.policyId| == 56 && IsLowerHex(u.policyId) && u.name.Literal?)
  }

  function AssetIdOf(u: Unit): string
    requires ApiUnit(u)
  {
    if u.Lovelace? then "lovelace" else u.policyId + "." + u.name.hex
  }

  /** The scanner's string ids tell assets apart exactly as the ledger's units do. */
  lemma {:induction false} IdsMatchUnits(u: Unit, a: AssetClass)
    requires ApiUnit(u) && Accepted(a)
    ensures AssetIdOf(u) == PlannerAssetId(a) <==> u == UnitOf(a)
  {
    if u.Token? && !IsAda(a) {
      var x, y := AssetIdOf(u), PlannerAssetId(a);
      assert x[..56] == u.policyId && y[..56] == a.policyId;
      assert x[57..] == u.name.hex && y[57..] == a.assetName;
    }
  }

  // -------------------------------------------------------------- one leg

  /** What one scanned leg contributes to the predicted net of a unit. */
  function Predicted(l: ArbLeg, u: Unit): int
    requires ApiUnit(u)
  {
    Flow(l, AssetIdOf(u)) - (if u == Lovelace then LegMinAda(l) else 0)
  }

  /** The builder's leg on the scanned order: same order, same take. */
  ghost predicate Matches(b: Leg, l: ArbLeg) {
    && b.ref == l.ref && Accepted(b.datum.offer) && Accepted(b.datum.ask)
    && l.payAsset == PlannerAssetId(b.datum.ask) && l.receiveAsset == PlannerAssetId(b.datum.offer)
    && (if b.cut.None? then
          l.takeAmount.None? && l.payAmount == b.datum.askAmount && l.receiveAmount == b.datum.offerAmount
        else
          && l.takeAmount == Some(b.cut.value.takeAmount)
          && l.payAmount == b.cut.value.required && l.receiveAmount == b.cut.value.takeAmount)
  }

  lemma {:induction false} GainIsPredicted(b: Leg, l: ArbLeg, u: Unit)
    requires Matches(b, l) && ApiUnit(u)
    ensures TakerGain(b, u) == Predicted(l, u)
  {
    IdsMatchUnits(u, b.datum.ask);
    IdsMatchUnits(u, b.datum.offer);
    IdsMatchUnits(Lovelace, b.datum.ask);
  }

  /** The scanned order is the indexer's record of a current output. */
  ghost predicate Current(proto: Protocol, utxos: map<OutRef, TxOut>, o: Order) {
    && o.ref in utxos && IsTxHash(o.ref.txHash)
    && ValidateAndMap(proto, o.ref, utxos[o.ref]) == Some(Terms(o))
  }

  /** A resolved order with the scanned order's terms. */
  ghost predicate Answer(o: Order, r: Resolved) {
    && r.ref == o.ref && r.takeAmount == None
    && r.datum.offer == o.offer && r.datum.ask == o.ask
    && r.datum.offerAmount == o.offeredAmount && r.datum.askAmount == o.requestedAmount
    && r.datum.allowPartialFill == o.allowPartialFill && r.datum.expiration == o.expiration
    && Accepted(o.offer) && Accepted(o.ask)
  }

  lemma {:induction false} CurrentResolves(proto: Protocol, utxos: map<OutRef, TxOut>, o: Order) returns (r: Resolved)
    requires BeaconsOnlyInOrders(proto, utxos) && Current(proto, utxos, o)
    ensures ResolveOrder(proto, utxos, OrderId(o.ref)) == Ok(r)
    ensures Answer(o, r) && o.offeredAmount > 0 && o.requestedAmount > 0
  {
    var out := utxos[o.ref];
    ParsePrinted(o.ref);
    IndexerAgreesWithBuilder(proto, o.ref, out);
    var d, deposit :| ExactOrder(proto, out, d, deposit);
    ExactOrderResolves(proto, o.ref, out, d, deposit);
    ExactOrderIsIndexed(proto, o.ref, out, d, deposit);
    r := Resolved(o.ref, out, d, deposit, None);
    TermsAre(o, out.address, d, deposit);
  }

  lemma {:induction false} TermsAre(o: Order, address: Address, d: Datum, deposit: int)
    requires Terms(o) == Closure.Record(o.ref, address, d, deposit)
    ensures d.offer == o.offer && d.ask == o.ask && d.offerAmount == o.offeredAmount && d.askAmount == o.requestedAmount
    ensures d.allowPartialFill == o.allowPartialFill && d.expiration == o.expiration
  {
    assert Terms(o).offer == d.offer && Terms(o).ask == d.ask;
    assert Terms(o).offeredAmount == d.offerAmount && Terms(o).requestedAmount == d.askAmount;
    assert Terms(o).allowPartialFill == d.allowPartialFill && Terms(o).expiration == d.expiration;
  }

  /** Every leg the scanner sizes passes the builder's guards, at the scanner's amounts. */
  lemma {:induction false} SizedLegIsAccepted(o: Order, l: ArbLeg, r: Resolved) returns (b: Leg)
    requires o.offeredAmount > 0 && o.requestedAmount > 0 && LegOf(o, l) && Answer(o, r)
    ensures PriceLeg(r.(takeAmount := l.takeAmount)) == Some(b)
    ensures Matches(b, l)
  {
    b := PriceLeg(r.(takeAmount := l.takeAmount)).value;
  }

  // ------------------------------------------------------------ the batch

  /** The batch request an opportunity is executed with. */
  function RequestsOf(arb: seq<ArbLeg>): (r: seq<TakeLeg>)
    ensures |r| == |arb| && forall i | 0 <= i < |arb| :: r[i] == TakeLeg(OrderId(arb[i].ref), arb[i].takeAmount)
  {
    seq(|arb|, i requires 0 <= i < |arb| => TakeLeg(OrderId(arb[i].ref), arb[i].takeAmount))
  }

  /** A current order and the leg sized on it. */
  ghost predicate Scanned(proto: Protocol, utxos: map<OutRef, TxOut>, o: Order, l: ArbLeg) {
    o.offeredAmount > 0 && o.requestedAmount > 0 && LegOf(o, l) && Current(proto, utxos, o)
  }

  ghost predicate AllScanned(proto: Protocol, utxos: map<OutRef, TxOut>, cycle: seq<Order>, arb: seq<ArbLeg>) {
    |cycle| == |arb| && forall i | 0 <= i < |cycle| :: Scanned(proto, utxos, cycle[i], arb[i])
  }

  /** Scanned orders as they stand on the chain, each once, and the legs sized on them. */
  ghost predicate Executable(proto: Protocol, utxos: map<OutRef, TxOut>, cycle: seq<Order>, arb: seq<ArbLeg>) {
    && AllScanned(proto, utxos, cycle, arb)
    && (forall i, j | 0 <= i < j < |cycle| :: cycle[i].ref != cycle[j].ref)
  }

  lemma {:induction false} ScannedPrefix(proto: Protocol, utxos: map<OutRef, TxOut>, cycle: seq<Order>, arb: seq<ArbLeg>)
    requires AllScanned(proto, utxos, cycle, arb) && cycle != []
    ensures AllScanned(proto, utxos, cycle[..|cycle| - 1], arb[..|arb| - 1])
    ensures Scanned(proto, utxos, cycle[|cycle| - 1], arb[|arb| - 1])
  {
  }

  /** A resolved request that prices to a leg on the scanned order. */
  ghost predicate Prices(o: Order, l: ArbLeg, r: Resolved) {
    && PriceLeg(r).Some? && Matches(PriceLeg(r).value, l)
    && r.datum.expiration == o.expiration
  }

  lemma {:induction false} RequestPrices(proto: Protocol, utxos: map<OutRef, TxOut>, o: Order, l: ArbLeg) returns (r: Resolved)
    requires BeaconsOnlyInOrders(proto, utxos) && Scanned(proto, utxos, o, l)
    ensures ResolveOrder(proto, utxos, OrderId(l.ref)).Ok?
    ensures r == ResolveOrder(proto, utxos, OrderId(l.ref)).value.(takeAmount := l.takeAmount)
    ensures Prices(o, l, r)
  {
    var answer := CurrentResolves(proto, utxos, o);
    var b := SizedLegIsAccepted(o, l, answer);
    r := answer.(takeAmount := l.takeAmount);
  }

  ghost predicate AllPrice(cycle: seq<Order>, arb: seq<ArbLeg>, rs: seq<Resolved>) {
    |rs| == |arb| == |cycle| && forall i | 0 <= i < |arb| :: Prices(cycle[i], arb[i], rs[i])
  }

  lemma {:induction false} AllPriceSnoc(cycle: seq<Order>, arb: seq<ArbLeg>, init: seq<Resolved>, r: Resolved)
    requires |arb| == |cycle| > 0
    requires AllPrice(cycle[..|cycle| - 1], arb[..|arb| - 1], init) && Prices(cycle[|cycle| - 1], arb[|arb| - 1], r)
    ensures AllPrice(cycle, arb, init + [r])
  {
    forall i | 0 <= i < |arb| ensures Prices(cycle[i], arb[i], (init + [r])[i]) {
      if i < |arb| - 1 {
        assert Prices(cycle[..|cycle| - 1][i], arb[..|arb| - 1][i], init[i]);
      }
    }
  }

  lemma {:induction false} RequestsSnoc(arb: seq<ArbLeg>)
    requires arb != []
    ensures RequestsOf(arb)[..|arb| - 1] == RequestsOf(arb[..|arb| - 1])
    ensures RequestsOf(arb)[|arb| - 1] == TakeLeg(OrderId(arb[|arb| - 1].ref), arb[|arb| - 1].takeAmount)
  {
  }

  lemma {:induction false} RequestsPrice(proto: Protocol, utxos: map<OutRef, TxOut>, cycle: seq<Order>, arb: seq<ArbLeg>)
    returns (rs: seq<Resolved>)
    requires BeaconsOnlyInOrders(proto, utxos) && AllScanned(proto, utxos, cycle, arb)
    ensures ResolveAll(proto, utxos, RequestsOf(arb)) == Ok(rs)
    ensures AllPrice(cycle, arb, rs)
  {
    rs := [];
    if cycle != [] {
      ScannedPrefix(proto, utxos, cycle, arb);
      var init := RequestsPrice(proto, utxos, cycle[..|cycle| - 1], arb[..|arb| - 1]);
      var r := RequestPrices(proto, utxos, cycle[|cycle| - 1], arb[|arb| - 1]);
      RequestsSnoc(arb);
      ResolveSnoc(proto, utxos, RequestsOf(arb), init, r);
      AllPriceSnoc(cycle, arb, init, r);
      rs := init + [r];
    }
  }

  // ---------------------------------------------------------------- the net

  /** The gain of a resolved request, once priced. */
  function GainOf(u: Unit): Resolved -> int {
    (r: Resolved) => if PriceLeg(r).Some? then TakerGain(PriceLeg(r).value, u) else 0
  }

  ghost predicate EachPrices(rs: seq<Resolved>) {
    forall i | 0 <= i < |rs| :: PriceLeg(rs[i]).Some?
  }

  lemma {:induction false} PricedGains(rs: seq<Resolved>, u: Unit)
    requires EachPrices(rs)
    ensures PriceAll(rs).Some? && TakerGains(PriceAll(rs).value, u) == SumBy(GainOf(u), rs)
  {
    if rs != [] {
      var init := rs[..|rs| - 1];
      assert EachPrices(init);
      PricedGains(init, u);
      var before, b := PriceAll(init).value, PriceLeg(rs[|rs| - 1]).value;
      assert (before + [b])[..|before|] == before;
    }
  }

  /** Predicted nets, summed over the scanned legs. */
  lemma {:induction false} PredictedGains(cycle: seq<Order>, arb: seq<ArbLeg>, rs: seq<Resolved>, u: Unit)
    requires AllPrice(cycle, arb, rs) && ApiUnit(u)
    ensures SumBy(GainOf(u), rs)
         == Flows(arb, AssetIdOf(u)) - (if u == Lovelace then PartialMinAda(arb) else 0)
  {
    if arb != [] {
      var n := |arb| - 1;
      forall i | 0 <= i < n ensures Prices(cycle[..n][i], arb[..n][i], rs[..n][i]) {
        assert Prices(cycle[i], arb[i], rs[i]);
      }
      PredictedGains(cycle[..n], arb[..n], rs[..n], u);
      assert Prices(cycle[n], arb[n], rs[n]);
      GainIsPredicted(PriceLeg(rs[n]).value, arb[n], u);
    }
  }

  lemma {:induction false} BeaconsAreNotTraded(proto: Protocol, legs: seq<Leg>, u: Unit)
    requires GoodLegs(proto, legs) && IsBeaconUnit(proto, u)
    ensures TakerGains(legs, u) == 0
  {
    if legs != [] {
      GoodPrefix(proto, legs);
      BeaconsAreNotTraded(proto, legs[..|legs| - 1], u);
    }
  }

  lemma {:induction false} DistinctIds(s: seq<TakeLeg>)
    requires forall i, j | 0 <= i < j < |s| :: s[i].orderId != s[j].orderId
    ensures |OrderIds(s)| == |s|
  {
    if s != [] {
      var init, last := s[..|s| - 1], s[|s| - 1];
      DistinctIds(init);
      assert s == init + [last];
      assert OrderIds(s) == OrderIds(init) + {last.orderId};
      assert last.orderId !in OrderIds(init);
    }
  }

  lemma {:induction false} RequestsDiffer(proto: Protocol, utxos: map<OutRef, TxOut>, cycle: seq<Order>, arb: seq<ArbLeg>)
    requires Executable(proto, utxos, cycle, arb)
    ensures |OrderIds(RequestsOf(arb))| == |arb| && DistinctRequests(RequestsOf(arb))
  {
    var requests := RequestsOf(arb);
    forall i, j | 0 <= i < j < |arb|
      ensures requests[i].orderId != requests[j].orderId
      ensures ParseOrderId(requests[i].orderId) != ParseOrderId(requests[j].orderId) {
      assert Scanned(proto, utxos, cycle[i], arb[i]) && Scanned(proto, utxos, cycle[j], arb[j]);
      ParsePrinted(arb[i].ref);
      ParsePrinted(arb[j].ref);
    }
    DistinctIds(requests);
  }

  lemma {:induction false} SortedStillPrice(cycle: seq<Order>, arb: seq<ArbLeg>, rs: seq<Resolved>, now: int)
    requires AllPrice(cycle, arb, rs) && forall i | 0 <= i < |cycle| :: !IsOrderExpired(cycle[i], now)
    ensures EachPrices(Sort(LegBefore, rs)) && !AnyExpired(Sort(LegBefore, rs), now)
  {
    var sorted := Sort(LegBefore, rs);
    SortKeepsElements(LegBefore, rs);
    forall i | 0 <= i < |sorted| ensures PriceLeg(sorted[i]).Some? && !Expired(sorted[i], now) {
      assert sorted[i] in sorted;
      var k :| 0 <= k < |rs| && rs[k] == sorted[i];
      assert Prices(cycle[k], arb[k], rs[k]) && !IsOrderExpired(cycle[k], now);
    }
  }

  /** What the environment must still provide: a wallet, room in the batch, unexpired orders. */
  predicate CanExecute(proto: Protocol, wallet: Wallet, cycle: seq<Order>, now: int) {
    && 0 < |cycle| <= proto.maxOrdersPerTx && WalletCanBuild(wallet)
    && forall i | 0 <= i < |cycle| :: !IsOrderExpired(cycle[i], now)
  }

  /** The builder accepts an executable opportunity whole; its legs' gains are the predicted nets. */
  lemma {:induction false} OpportunityBuilds(proto: Protocol, utxos: map<OutRef, TxOut>, wallet: Wallet,
                                             cycle: seq<Order>, arb: seq<ArbLeg>, now: int, u: Unit) returns (legs: seq<Leg>)
    requires BeaconsOnlyInOrders(proto, utxos) && Executable(proto, utxos, cycle, arb)
    requires CanExecute(proto, wallet, cycle, now) && ApiUnit(u)
    ensures TakeManyOrders(proto, utxos, wallet, RequestsOf(arb), now) == Ok(TakeLegs(proto, legs))
    ensures GoodLegs(proto, legs)
    ensures TakerGains(legs, u) == Flows(arb, AssetIdOf(u)) - (if u == Lovelace then PartialMinAda(arb) else 0)
  {
    var rs := RequestsPrice(proto, utxos, cycle, arb);
    var sorted := Sort(LegBefore, rs);
    RequestsDiffer(proto, utxos, cycle, arb);
    SortedStillPrice(cycle, arb, rs, now);
    PricedGains(sorted, u);
    SumPermutes(GainOf(u), rs, sorted);
    PredictedGains(cycle, arb, rs, u);
    BuildsLegs(proto, utxos, wallet, RequestsOf(arb), now, rs);
    legs := PriceAll(sorted).value;
    ResolvedAreGood(proto, utxos, RequestsOf(arb), rs);
    ResolvedLegs(proto, utxos, RequestsOf(arb), rs, legs);
  }

  /**
   * Executed as one batch, an opportunity on current orders is accepted whole, and
   * the builder's takerNet is the scanner's net, less the min-ADA on lovelace.
   */
  lemma {:induction false} ExecutionMatchesScan(proto: Protocol, utxos: map<OutRef, TxOut>, wallet: Wallet,
                                                cycle: seq<Order>, arb: seq<ArbLeg>, now: int, u: Unit)
    requires BeaconsOnlyInOrders(proto, utxos) && Executable(proto, utxos, cycle, arb)
    requires CanExecute(proto, wallet, cycle, now) && ApiUnit(u)
    ensures var r := TakeManyOrders(proto, utxos, wallet, RequestsOf(arb), now);
      && r.Ok?
      && NetOf(r.value.summary.takerNet, u)
         == NetAt(NetsOf(arb), AssetIdOf(u)) - (if u == Lovelace then PartialMinAda(arb) else 0)
  {
    var legs := OpportunityBuilds(proto, utxos, wallet, cycle, arb, now, u);
    ReportedNet(proto, legs, u);
    NetsAreFlows(arb, AssetIdOf(u));
  }

  lemma {:induction false} ReportedNet(proto: Protocol, legs: seq<Leg>, u: Unit)
    requires GoodLegs(proto, legs)
    ensures NetOf(TakeLegs(proto, legs).summary.takerNet, u) == TakerGains(legs, u)
  {
    TakerNetIsGains(proto, legs, u);
    if IsBeaconUnit(proto, u) {
      BeaconsAreNotTraded(proto, legs, u);
    }
  }

  /** Current orders, each once. */
  ghost predicate CurrentOrders(proto: Protocol, utxos: map<OutRef, TxOut>, c: seq<Order>) {
    && Positive(c)
    && (forall i | 0 <= i < |c| :: Current(proto, utxos, c[i]))
    && (forall i, j | 0 <= i < j < |c| :: c[i].ref != c[j].ref)
  }

  lemma {:induction false} RotationEntry(c: seq<Order>, r: nat, i: nat)
    requires r <= |c| && i < |c|
    ensures Rotation(c, r)[i] == c[Source(|c|, r, i)]
  {
  }

  lemma {:induction false} RotationIsCurrent(proto: Protocol, utxos: map<OutRef, TxOut>, c: seq<Order>, r: nat)
    requires CurrentOrders(proto, utxos, c) && r <= |c|
    ensures CurrentOrders(proto, utxos, Rotation(c, r))
  {
    var d := Rotation(c, r);
    forall i | 0 <= i < |c| ensures Current(proto, utxos, d[i]) && d[i].offeredAmount > 0 && d[i].requestedAmount > 0 {
      RotationEntry(c, r, i);
    }
    forall i, j | 0 <= i < j < |c| ensures d[i].ref != d[j].ref {
      RotationEntry(c, r, i);
      RotationEntry(c, r, j);
    }
  }

  /** Where entry i of the rotation by r comes from. */
  function Source(n: nat, r: nat, i: nat): nat
    requires r <= n && i < n
  {
    if i + r < n then i + r else i + r - n
  }

  lemma {:induction false} SizedIsExecutable(proto: Protocol, utxos: map<OutRef, TxOut>, d: seq<Order>)
    requires CurrentOrders(proto, utxos, d) && Sized(d).Some?
    ensures Executable(proto, utxos, d, Sized(d).value)
  {
    SizedLegsAreOf(d);
    forall i | 0 <= i < |d| ensures Scanned(proto, utxos, d[i], Sized(d).value[i]) {
      assert LegOf(d[i], Sized(d).value[i]);
    }
  }

  lemma {:induction false} BestIsSized(c: seq<Order>, fee: int) returns (r: nat)
    requires Best(c, fee).Some?
    ensures r < |c| && Sized(Rotation(c, r)) == Some(Best(c, fee).value.legs)
    ensures Best(c, fee).value.nets == NetsOf(Best(c, fee).value.legs)
    ensures Best(c, fee).value.partialMinAda == PartialMinAda(Best(c, fee).value.legs)
  {
    r := BestIsBest(c, fee);
  }

  /**
   * What the scan reports for a cycle of current orders is what its batch delivers:
   * accepted whole, with exactly the reported nets and the reported min-ADA.
   */
  lemma {:induction false} ReportedNetsAreDelivered(proto: Protocol, utxos: map<OutRef, TxOut>, wallet: Wallet,
                                                    c: seq<Order>, fee: int, now: int, u: Unit)
    requires BeaconsOnlyInOrders(proto, utxos) && CurrentOrders(proto, utxos, c)
    requires Best(c, fee).Some? && ApiUnit(u)
    requires CanExecute(proto, wallet, c, now)
    ensures var ev := Best(c, fee).value;
      var r := TakeManyOrders(proto, utxos, wallet, RequestsOf(ev.legs), now);
      && r.Ok?
      && NetOf(r.value.summary.takerNet, u) == NetAt(ev.nets, AssetIdOf(u)) - (if u == Lovelace then ev.partialMinAda else 0)
  {
    var r := BestIsSized(c, fee);
    var d := Rotation(c, r);
    RotationIsCurrent(proto, utxos, c, r);
    SizedIsExecutable(proto, utxos, d);
    RotationCanExecute(proto, wallet, c, now, r);
    ExecutionMatchesScan(proto, utxos, wallet, d, Sized(d).value, now, u);
  }

  lemma {:induction false} RotationCanExecute(proto: Protocol, wallet: Wallet, c: seq<Order>, now: int, r: nat)
    requires CanExecute(proto, wallet, c, now) && r <= |c|
    ensures CanExecute(proto, wallet, Rotation(c, r), now)
  {
    forall i | 0 <= i < |c| ensures !IsOrderExpired(Rotation(c, r)[i], now) {
      assert Rotation(c, r)[i] == c[if i + r < |c| then i + r else i + r - |c|];
    }
  }
}
