/**
 * Properties of the scanner: every leg it sizes passes the builder's guards at a fair
 * price, the rate-product prefilter discards no riskless cycle, and the rotation kept
 * is the best one.
 */
module ArbitrageProofs {
  import opened Wrappers
  import opened Sequences
  import opened Pricing
  import opened Orders
  import opened TxBuilder
  import opened Products
  import opened Arbitrage

  ghost predicate Positive(cycle: seq<Order>) {
    forall i | 0 <= i < |cycle| :: cycle[i].offeredAmount > 0 && cycle[i].requestedAmount > 0
  }

  // ------------------------------------------------------------ sized legs

  /** A leg of an order, whole or an acceptable part at its ceiling price, never above the order's price. */
  ghost predicate LegOf(o: Order, l: ArbLeg)
    requires o.offeredAmount > 0 && o.requestedAmount > 0
  {
    var ask, offer := o.requestedAmount, o.offeredAmount;
    && l.ref == o.ref && l.expiration == o.expiration
    && l.payAsset == RequestedAssetId(o) && l.receiveAsset == OfferedAssetId(o)
    && l.payAmount > 0 && l.receiveAmount > 0
    && (if l.takeAmount.None? then l.payAmount == ask && l.receiveAmount == offer
        else
          && o.allowPartialFill && AcceptedTake(l.takeAmount.value, ask, offer)
          && l.receiveAmount == l.takeAmount.value && l.payAmount == Owed(l.takeAmount.value, ask, offer))
    && l.receiveAmount * ask <= l.payAmount * offer
  }

  lemma {:induction false} SizedLegIsOf(o: Order, carry: Option<int>)
    requires o.offeredAmount > 0 && o.requestedAmount > 0 && SizeLeg(o, carry).Some?
    ensures LegOf(o, SizeLeg(o, carry).value)
    ensures carry.Some? ==> SizeLeg(o, carry).value.payAmount <= carry.value
  {
    var ask, offer := o.requestedAmount, o.offeredAmount;
    if carry.Some? && ask > carry.value {
      var take := MaxTakeForSpend(carry.value, ask, offer);
      MaxTakeIsGreatest(carry.value, ask, offer, take);
      OwedBounds(take, ask, offer);
      OwedIsCeiling(take, ask, offer, Owed(take, ask, offer));
    }
  }

  /** A sized rotation pays every leg after the first out of what the one before delivers. */
  ghost predicate Chained(legs: seq<ArbLeg>) {
    forall i | 0 < i < |legs| :: legs[i].payAmount <= legs[i - 1].receiveAmount
  }

  ghost predicate LegsOfCycle(cycle: seq<Order>, legs: seq<ArbLeg>)
    requires Positive(cycle)
  {
    |legs| == |cycle| && forall i | 0 <= i < |cycle| :: LegOf(cycle[i], legs[i])
  }

  lemma {:induction false} SizedLegsAreOf(cycle: seq<Order>)
    requires Positive(cycle) && Sized(cycle).Some?
    ensures LegsOfCycle(cycle, Sized(cycle).value) && Chained(Sized(cycle).value)
    ensures cycle != [] ==> Sized(cycle).value[0].takeAmount == None
  {
    if cycle != [] {
      var init, last := cycle[..|cycle| - 1], cycle[|cycle| - 1];
      SizedLegsAreOf(init);
      SizedLegIsOf(last, Carry(Sized(init).value));
    }
  }

  // ------------------------------------------------------------------ nets

  function Flow(l: ArbLeg, asset: string): int {
    (if l.receiveAsset == asset then l.receiveAmount else 0) - (if l.payAsset == asset then l.payAmount else 0)
  }

  function Flows(legs: seq<ArbLeg>, asset: string): int {
    if legs == [] then 0 else Flows(legs[..|legs| - 1], asset) + Flow(legs[|legs| - 1], asset)
  }

  /** netsOf is the sum of the legs' flows, asset by asset. */
  lemma {:induction false} NetsAreFlows(legs: seq<ArbLeg>, asset: string)
    ensures NetAt(NetsOf(legs), asset) == Flows(legs, asset)
    ensures asset in NetsOf(legs) <==> exists i :: 0 <= i < |legs| && (legs[i].payAsset == asset || legs[i].receiveAsset == asset)
  {
    if legs != [] {
      var init, l := legs[..|legs| - 1], legs[|legs| - 1];
      NetsAreFlows(init, asset);
      assert asset in NetsOf(legs) <==> asset in NetsOf(init) || l.payAsset == asset || l.receiveAsset == asset;
      assert forall i | 0 <= i < |init| :: init[i] == legs[i];
    }
  }

  // ---------------------------------------------------------------- cycles

  function Next(i: nat, n: nat): nat {
    if i + 1 == n then 0 else i + 1
  }

  function Prev(i: nat, n: nat): nat
    requires i < n
  {
    if i == 0 then n - 1 else i - 1
  }

  predicate LinksOn(c: seq<Order>, i: nat) {
    i < |c| && OfferedAssetId(c[i]) == RequestedAssetId(c[Next(i, |c|)])
  }

  /** Each order offers what the next one asks, back to the first, over distinct assets. */
  ghost predicate IsCycle(c: seq<Order>) {
    && |c| >= 2
    && (forall i: nat | i < |c| :: LinksOn(c, i))
    && (forall i, j | 0 <= i < j < |c| :: RequestedAssetId(c[i]) != RequestedAssetId(c[j]))
  }

  predicate Feeds(legs: seq<ArbLeg>, i: nat) {
    i < |legs| && legs[i].receiveAsset == legs[Next(i, |legs|)].payAsset
  }

  ghost predicate CycleLegs(legs: seq<ArbLeg>) {
    && (forall i: nat | i < |legs| :: Feeds(legs, i))
    && (forall i, j | 0 <= i < j < |legs| :: legs[i].payAsset != legs[j].payAsset)
  }

  lemma {:induction false} LegsCycle(c: seq<Order>, legs: seq<ArbLeg>)
    requires Positive(c) && IsCycle(c) && LegsOfCycle(c, legs)
    ensures CycleLegs(legs)
  {
    forall i: nat | i < |legs| ensures Feeds(legs, i) {
      assert LinksOn(c, i) && LegOf(c[i], legs[i]) && LegOf(c[Next(i, |c|)], legs[Next(i, |c|)]);
    }
    forall i, j | 0 <= i < j < |legs| ensures legs[i].payAsset != legs[j].payAsset {
      assert LegOf(c[i], legs[i]) && LegOf(c[j], legs[j]);
    }
  }

  lemma {:induction false} OneReceiver(legs: seq<ArbLeg>, i: nat, k: nat)
    requires CycleLegs(legs) && i < |legs| && k < |legs|
    ensures legs[k].payAsset == legs[i].payAsset <==> k == i
    ensures legs[k].receiveAsset == legs[i].payAsset <==> k == Prev(i, |legs|)
  {
    assert Next(Prev(i, |legs|), |legs|) == i;
    assert Feeds(legs, k) && Feeds(legs, Prev(i, |legs|));
  }

  lemma {:induction false} FlowsUpTo(legs: seq<ArbLeg>, i: nat, n: nat)
    requires CycleLegs(legs) && i < |legs| && n <= |legs|
    ensures var p := Prev(i, |legs|);
      Flows(legs[..n], legs[i].payAsset)
        == (if p < n then legs[p].receiveAmount else 0) - (if i < n then legs[i].payAmount else 0)
  {
    if n > 0 {
      FlowsUpTo(legs, i, n - 1);
      FlowsStep(legs, legs[i].payAsset, n - 1);
      OneReceiver(legs, i, n - 1);
    }
  }

  lemma {:induction false} FlowsStep(legs: seq<ArbLeg>, asset: string, n: nat)
    requires n < |legs|
    ensures Flows(legs[..n + 1], asset) == Flows(legs[..n], asset) + Flow(legs[n], asset)
  {
    PrefixStep(legs, n);
  }

  /** The net of each asset of a cycle: what the leg before delivers less what its own leg pays. */
  lemma {:induction false} CycleNet(legs: seq<ArbLeg>, i: nat)
    requires CycleLegs(legs) && i < |legs|
    ensures legs[i].payAsset in NetsOf(legs)
    ensures NetsOf(legs)[legs[i].payAsset] == LeftOver(legs, i)
  {
    NetsAreFlows(legs, legs[i].payAsset);
    FlowsUpTo(legs, i, |legs|);
    assert legs[..|legs|] == legs;
  }

  /** What is left of leg i's pay asset once it has been paid out of the leg before. */
  function LeftOver(legs: seq<ArbLeg>, i: nat): int
    requires i < |legs|
  {
    legs[Prev(i, |legs|)].receiveAmount - legs[i].payAmount
  }

  /** Riskless, leg by leg: nobody tops up, and some leg leaves something over. */
  ghost predicate LegsFund(legs: seq<ArbLeg>) {
    && (forall i: nat | i < |legs| :: LeftOver(legs, i) >= 0)
    && (exists i: nat :: i < |legs| && LeftOver(legs, i) > 0)
  }

  lemma {:induction false} NetAssetPaid(legs: seq<ArbLeg>, a: string) returns (i: nat)
    requires CycleLegs(legs) && a in NetsOf(legs)
    ensures i < |legs| && legs[i].payAsset == a
  {
    NetsAreFlows(legs, a);
    i :| 0 <= i < |legs| && (legs[i].payAsset == a || legs[i].receiveAsset == a);
    if legs[i].payAsset != a {
      assert Feeds(legs, i);
      i := Next(i, |legs|);
    }
  }

  lemma {:induction false} RisklessMeansFunded(legs: seq<ArbLeg>)
    requires CycleLegs(legs)
    ensures Riskless(NetsOf(legs)) <==> LegsFund(legs)
  {
    var nets := NetsOf(legs);
    forall i: nat | i < |legs| ensures legs[i].payAsset in nets && nets[legs[i].payAsset] == LeftOver(legs, i) {
      CycleNet(legs, i);
    }
    if Riskless(nets) {
      var a :| a in nets && nets[a] > 0;
      var i := NetAssetPaid(legs, a);
      assert LeftOver(legs, i) > 0;
    }
    if LegsFund(legs) {
      var i: nat :| i < |legs| && LeftOver(legs, i) > 0;
      assert nets[legs[i].payAsset] > 0;
      forall a | a in nets ensures nets[a] >= 0 {
        var k := NetAssetPaid(legs, a);
        assert LeftOver(legs, k) >= 0;
      }
    }
  }

  // ------------------------------------------------------------- prefilter

  function OfferSeq(c: seq<Order>): (r: seq<int>)
    ensures |r| == |c| && forall i | 0 <= i < |c| :: r[i] == c[i].offeredAmount
  {
    seq(|c|, i requires 0 <= i < |c| => c[i].offeredAmount)
  }

  function AskSeq(c: seq<Order>): (r: seq<int>)
    ensures |r| == |c| && forall i | 0 <= i < |c| :: r[i] == c[i].requestedAmount
  {
    seq(|c|, i requires 0 <= i < |c| => c[i].requestedAmount)
  }

  function PaySeq(legs: seq<ArbLeg>): (r: seq<int>)
    ensures |r| == |legs| && forall i | 0 <= i < |legs| :: r[i] == legs[i].payAmount
  {
    seq(|legs|, i requires 0 <= i < |legs| => legs[i].payAmount)
  }

  function ReceiveSeq(legs: seq<ArbLeg>): (r: seq<int>)
    ensures |r| == |legs| && forall i | 0 <= i < |legs| :: r[i] == legs[i].receiveAmount
  {
    seq(|legs|, i requires 0 <= i < |legs| => legs[i].receiveAmount)
  }

  lemma {:induction false} MarginIsProducts(c: seq<Order>)
    ensures Offers(c) == Prod(OfferSeq(c)) && Asks(c) == Prod(AskSeq(c))
  {
    if c != [] {
      var init := c[..|c| - 1];
      MarginIsProducts(init);
      assert OfferSeq(c)[..|c| - 1] == OfferSeq(init) && AskSeq(c)[..|c| - 1] == AskSeq(init);
    }
  }

  lemma {:induction false} RotationKeepsOffers(c: seq<Order>, r: nat)
    requires r <= |c|
    ensures Prod(OfferSeq(Rotation(c, r))) == Prod(OfferSeq(c))
  {
    assert OfferSeq(Rotation(c, r)) == OfferSeq(c)[r..] + OfferSeq(c)[..r];
    ProdRotates(OfferSeq(c), r);
  }

  lemma {:induction false} RotationKeepsAsks(c: seq<Order>, r: nat)
    requires r <= |c|
    ensures Prod(AskSeq(Rotation(c, r))) == Prod(AskSeq(c))
  {
    assert AskSeq(Rotation(c, r)) == AskSeq(c)[r..] + AskSeq(c)[..r];
    ProdRotates(AskSeq(c), r);
  }

  lemma {:induction false} RotationKeepsMargin(c: seq<Order>, r: nat)
    requires r <= |c|
    ensures MarginOf(Rotation(c, r)) == MarginOf(c)
  {
    MarginIsProducts(c);
    MarginIsProducts(Rotation(c, r));
    RotationKeepsOffers(c, r);
    RotationKeepsAsks(c, r);
  }

  function DeliveredSeq(legs: seq<ArbLeg>): (r: seq<int>)
    ensures |r| == |legs| && forall i | 0 <= i < |legs| :: r[i] == legs[Prev(i, |legs|)].receiveAmount
  {
    seq(|legs|, i requires 0 <= i < |legs| => legs[Prev(i, |legs|)].receiveAmount)
  }

  lemma {:induction false} DeliveredIsRotated(legs: seq<ArbLeg>)
    requires legs != []
    ensures Prod(DeliveredSeq(legs)) == Prod(ReceiveSeq(legs))
  {
    var n := |legs|;
    assert DeliveredSeq(legs) == ReceiveSeq(legs)[n - 1..] + ReceiveSeq(legs)[..n - 1];
    ProdRotates(ReceiveSeq(legs), n - 1);
  }

  /** Around a funded cycle the legs deliver strictly more, multiplied out, than they cost. */
  lemma {:induction false} FundedMultiplies(legs: seq<ArbLeg>)
    requires legs != [] && LegsFund(legs) && AllPositive(PaySeq(legs))
    ensures Prod(PaySeq(legs)) < Prod(ReceiveSeq(legs))
  {
    DeliveredIsRotated(legs);
    var pays, delivered := PaySeq(legs), DeliveredSeq(legs);
    forall i | 0 <= i < |legs| ensures pays[i] + LeftOver(legs, i) == delivered[i] {
    }
    assert AllLeq(pays, delivered);
    var i: nat :| i < |legs| && LeftOver(legs, i) > 0;
    assert pays[i] < delivered[i];
    ProdMonotone(pays, delivered);
  }

  /** Fair legs: what is received is worth no more than what is paid, at the orders' own rates. */
  lemma {:induction false} FairMultiplies(c: seq<Order>, legs: seq<ArbLeg>)
    requires Positive(c) && LegsOfCycle(c, legs)
    ensures Prod(ReceiveSeq(legs)) * Prod(AskSeq(c)) <= Prod(PaySeq(legs)) * Prod(OfferSeq(c))
    ensures AllPositive(PaySeq(legs)) && Prod(ReceiveSeq(legs)) > 0 && Prod(OfferSeq(c)) > 0
  {
    forall i | 0 <= i < |c|
      ensures 0 < ReceiveSeq(legs)[i] * AskSeq(c)[i] <= PaySeq(legs)[i] * OfferSeq(c)[i]
      ensures PaySeq(legs)[i] > 0 && ReceiveSeq(legs)[i] > 0 {
      assert LegOf(c[i], legs[i]);
      TimesPositive(legs[i].receiveAmount, c[i].requestedAmount);
    }
    ProdMonotone(Times(ReceiveSeq(legs), AskSeq(c)), Times(PaySeq(legs), OfferSeq(c)));
    ProdOfTimes(ReceiveSeq(legs), AskSeq(c));
    ProdOfTimes(PaySeq(legs), OfferSeq(c));
    ProdPositive(ReceiveSeq(legs));
    ProdPositive(OfferSeq(c));
  }

  lemma {:induction false} Squeeze(received: int, paid: int, offers: int, asks: int)
    requires received > 0 && offers > 0 && paid < received
    requires received * asks <= paid * offers
    ensures asks < offers
  {
    assert paid * offers < received * offers;
    assert asks >= offers ==> received * asks >= received * offers;
  }

  lemma {:induction false} RotationLinks(c: seq<Order>, r: nat)
    requires IsCycle(c) && r <= |c|
    ensures IsCycle(Rotation(c, r))
  {
    var n, d := |c|, Rotation(c, r);
    forall i | 0 <= i < n ensures d[i] == c[if i + r < n then i + r else i + r - n] {
    }
    forall i: nat | i < n ensures LinksOn(d, i) {
      var k := if i + r < n then i + r else i + r - n;
      assert LinksOn(c, k) && d[Next(i, n)] == c[Next(k, n)];
    }
  }

  lemma {:induction false} RotationIsCycle(c: seq<Order>, r: nat)
    requires Positive(c) && IsCycle(c) && r <= |c|
    ensures Positive(Rotation(c, r)) && IsCycle(Rotation(c, r))
  {
    RotationLinks(c, r);
    forall i | 0 <= i < |c| ensures Rotation(c, r)[i] == c[if i + r < |c| then i + r else i + r - |c|] {
    }
  }

  /**
   * Prefilter soundness: if any rotation of a cycle, sized with ceiling-rounded trims,
   * is riskless, then the rates multiply above 1. The scan discards no riskless cycle.
   */
  lemma {:induction false} PrefilterIsSound(c: seq<Order>, fee: int, r: nat)
    requires Positive(c) && IsCycle(c) && r <= |c| && EvaluateRotation(c, fee, r).Some?
    ensures RateProductPositive(c)
  {
    var d := Rotation(c, r);
    RotationIsCycle(c, r);
    SizedLegsAreOf(d);
    var legs := Sized(d).value;
    LegsCycle(d, legs);
    RisklessMeansFunded(legs);
    FairMultiplies(d, legs);
    FundedMultiplies(legs);
    Squeeze(Prod(ReceiveSeq(legs)), Prod(PaySeq(legs)), Prod(OfferSeq(d)), Prod(AskSeq(d)));
    MarginIsProducts(d);
    RotationKeepsMargin(c, r);
  }

  // --------------------------------------------------------- best rotation

  /** The running best over any candidates. */
  function BestBy(f: nat -> Option<Evaluated>, n: nat): Option<Evaluated> {
    if n == 0 then None else Pick(BestBy(f, n - 1), f(n - 1))
  }

  lemma {:induction false} BestIsBestBy(orders: seq<Order>, fee: int, f: nat -> Option<Evaluated>, n: nat)
    requires n <= |orders| && forall k: nat | k < n :: f(k) == EvaluateRotation(orders, fee, k)
    ensures BestOf(orders, fee, n) == BestBy(f, n)
  {
    if n > 0 {
      BestIsBestBy(orders, fee, f, n - 1);
    }
  }

  /** Candidate k is no better than the best, and worse if it came before it. */
  predicate Beaten(best: Evaluated, at: nat, candidate: Option<Evaluated>, k: nat) {
    candidate.Some? ==>
      !Better(candidate.value, best) && (k < at ==> Better(best, candidate.value))
  }

  lemma {:induction false} BetterOrder(a: Evaluated, b: Evaluated, c: Evaluated)
    ensures Better(a, b) && !Better(c, b) ==> !Better(c, a) && Better(a, c)
    ensures !Better(a, a)
  {
  }

  lemma {:induction false} BestByIsBest(f: nat -> Option<Evaluated>, n: nat) returns (r: nat)
    ensures BestBy(f, n).None? ==> forall k: nat | k < n :: f(k).None?
    ensures BestBy(f, n).Some? ==>
      && r < n && BestBy(f, n) == f(r)
      && forall k: nat | k < n :: Beaten(BestBy(f, n).value, r, f(k), k)
  {
    r := 0;
    if n > 0 {
      r := BestByIsBest(f, n - 1);
      var before, candidate := BestBy(f, n - 1), f(n - 1);
      if candidate.Some? && (before.None? || Better(candidate.value, before.value)) {
        var earlier := r;
        r := n - 1;
        forall k: nat | k < n ensures Beaten(candidate.value, r, f(k), k) {
          if f(k).Some? && k < n - 1 {
            assert Beaten(before.value, earlier, f(k), k);
            BetterOrder(candidate.value, before.value, f(k).value);
          }
        }
      }
    }
  }

  /**
   * The rotation kept is riskless and has the fewest partial legs, then the most
   * lovelace, the earliest on a tie; one is kept exactly when some rotation is riskless.
   */
  lemma {:induction false} BestIsBest(orders: seq<Order>, fee: int) returns (r: nat)
    ensures Best(orders, fee).None? <==> forall k: nat | k < |orders| :: EvaluateRotation(orders, fee, k).None?
    ensures Best(orders, fee).Some? ==>
      && r < |orders| && Best(orders, fee) == EvaluateRotation(orders, fee, r)
      && forall k: nat | k < |orders| :: Beaten(Best(orders, fee).value, r, EvaluateRotation(orders, fee, k), k)
  {
    var f := (k: nat) => if k < |orders| then EvaluateRotation(orders, fee, k) else None;
    BestIsBestBy(orders, fee, f, |orders|);
    r := BestByIsBest(f, |orders|);
  }
}
