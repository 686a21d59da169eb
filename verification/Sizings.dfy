/**
 * Sizing a rotation loses nothing: each leg is the largest its order and the leg before
 * allow, so whenever the legs of a rotation can be sized to chain risklessly at all, in
 * any way that starts with a whole order, the sizing the scanner tries does too.
 */
module Sizings {
  import opened Wrappers
  import opened Sequences
  import opened Pricing
  import opened Orders
  import opened Arbitrage
  import opened ArbitrageProofs

  // ------------------------------------------------------------- one leg

  /** A leg on the order that the delivery of the leg before can pay; with no leg before, the whole order. */
  ghost predicate Fits(o: Order, carry: Option<int>, l: ArbLeg)
    requires o.offeredAmount > 0 && o.requestedAmount > 0
  {
    LegOf(o, l) && (if carry.None? then l.takeAmount.None? else l.payAmount <= carry.value)
  }

  /** A leg that takes no less pays no less. */
  lemma {:induction false} PayFollowsReceive(o: Order, a: ArbLeg, b: ArbLeg)
    requires o.offeredAmount > 0 && o.requestedAmount > 0 && LegOf(o, a) && LegOf(o, b)
    requires a.receiveAmount <= b.receiveAmount
    ensures a.payAmount <= b.payAmount
  {
    if a.takeAmount.Some? && b.takeAmount.Some? {
      OwedRises(a.receiveAmount, b.receiveAmount, o.requestedAmount, o.offeredAmount);
    }
  }

  lemma {:induction false} OwedRises(a: int, b: int, ask: int, offer: int)
    requires 0 < a <= b && ask > 0 && offer > 0
    ensures Owed(a, ask, offer) <= Owed(b, ask, offer)
  {
    OwedBounds(b, ask, offer);
    assert a * ask <= b * ask;
    OwedIsCeiling(a, ask, offer, Owed(b, ask, offer));
  }

  lemma {:induction false} SizeLegTakesMost(o: Order, carry: Option<int>, l: ArbLeg)
    requires o.offeredAmount > 0 && o.requestedAmount > 0 && Fits(o, carry, l)
    ensures SizeLeg(o, carry).Some? && l.receiveAmount <= SizeLeg(o, carry).value.receiveAmount
  {
    if carry.Some? && l.takeAmount.Some? {
      MaxTakeIsGreatest(carry.value, o.requestedAmount, o.offeredAmount, l.takeAmount.value);
    }
  }

  /**
   * Trimming takes all that the carry buys: the whole order when it covers the ask, else
   * the largest part the builder accepts; and a leg is refused only when no leg fits.
   */
  lemma {:induction false} SizeLegIsGreatest(o: Order, carry: Option<int>)
    requires o.offeredAmount > 0 && o.requestedAmount > 0
    ensures SizeLeg(o, carry).None? <==> forall l :: !Fits(o, carry, l)
    ensures SizeLeg(o, carry).Some? ==>
      && Fits(o, carry, SizeLeg(o, carry).value)
      && (forall l | Fits(o, carry, l) :: l.receiveAmount <= SizeLeg(o, carry).value.receiveAmount)
    ensures carry.None? || o.requestedAmount <= carry.value ==>
      SizeLeg(o, carry).Some? && SizeLeg(o, carry).value.takeAmount.None?
  {
    forall l | Fits(o, carry, l)
      ensures SizeLeg(o, carry).Some? && l.receiveAmount <= SizeLeg(o, carry).value.receiveAmount {
      SizeLegTakesMost(o, carry, l);
    }
    if SizeLeg(o, carry).Some? {
      SizedLegIsOf(o, carry);
      assert Fits(o, carry, SizeLeg(o, carry).value);
    }
  }

  // -------------------------------------------------------- one rotation

  /** Any sizing of the orders in turn: a whole order first, every later leg paid by the one before. */
  ghost predicate WellSized(c: seq<Order>, legs: seq<ArbLeg>)
    requires Positive(c)
  {
    LegsOfCycle(c, legs) && Chained(legs) && (legs != [] ==> legs[0].takeAmount.None?)
  }

  lemma {:induction false} WellSizedPrefix(c: seq<Order>, legs: seq<ArbLeg>)
    requires Positive(c) && c != [] && WellSized(c, legs)
    ensures WellSized(c[..|c| - 1], legs[..|legs| - 1])
    ensures Fits(c[|c| - 1], Carry(legs[..|legs| - 1]), legs[|legs| - 1])
  {
    var n := |c| - 1;
    assert LegOf(c[n], legs[n]);
    forall i | 0 <= i < n ensures LegOf(c[..n][i], legs[..n][i]) {
      assert LegOf(c[i], legs[i]);
    }
    forall i | 0 < i < n ensures legs[..n][i].payAmount <= legs[..n][i - 1].receiveAmount {
      assert legs[i].payAmount <= legs[i - 1].receiveAmount;
    }
    if n > 0 {
      assert legs[n].payAmount <= legs[n - 1].receiveAmount && legs[..n][0] == legs[0];
    }
  }

  /** Leg by leg, no sizing delivers more than the scanner's. */
  lemma {:induction false} SizedDeliversMost(c: seq<Order>, legs: seq<ArbLeg>)
    requires Positive(c) && WellSized(c, legs)
    ensures Sized(c).Some? && forall i | 0 <= i < |c| :: legs[i].receiveAmount <= Sized(c).value[i].receiveAmount
  {
    if c != [] {
      var n := |c| - 1;
      WellSizedPrefix(c, legs);
      SizedDeliversMost(c[..n], legs[..n]);
      var before := Sized(c[..n]).value;
      if n > 0 {
        assert legs[..n][n - 1].receiveAmount <= before[n - 1].receiveAmount;
      }
      SizeLegTakesMost(c[n], Carry(before), legs[n]);
    }
  }

  /** From where another sizing leaves something on, the scanner's leaves something too or delivers more. */
  lemma {:induction false} LeavesOrGains(c: seq<Order>, legs: seq<ArbLeg>, sized: seq<ArbLeg>, i: nat, k: nat) returns (j: nat)
    requires Positive(c) && WellSized(c, legs) && WellSized(c, sized)
    requires forall j | 0 <= j < |c| :: legs[j].receiveAmount <= sized[j].receiveAmount
    requires 0 < i <= k < |c| && LeftOver(legs, i) > 0
    ensures j < |c| && (LeftOver(sized, j) > 0 || legs[k].receiveAmount < sized[k].receiveAmount)
  {
    j := k;
    if k > i {
      j := LeavesOrGains(c, legs, sized, i, k - 1);
    }
    if LeftOver(sized, j) <= 0 {
      j := k;
      GainsOn(c, legs, sized, k);
    }
  }

  /** A leg with more to spend, all of it spent, takes more. */
  lemma {:induction false} GainsOn(c: seq<Order>, legs: seq<ArbLeg>, sized: seq<ArbLeg>, k: nat)
    requires Positive(c) && WellSized(c, legs) && WellSized(c, sized) && 0 < k < |c|
    requires legs[k - 1].receiveAmount <= sized[k - 1].receiveAmount && legs[k].receiveAmount <= sized[k].receiveAmount
    requires legs[k - 1].receiveAmount < sized[k - 1].receiveAmount || LeftOver(legs, k) > 0
    ensures LeftOver(sized, k) > 0 || legs[k].receiveAmount < sized[k].receiveAmount
  {
    assert legs[k].payAmount <= legs[k - 1].receiveAmount;
    assert LegOf(c[k], legs[k]) && LegOf(c[k], sized[k]);
    if legs[k].receiveAmount == sized[k].receiveAmount {
      PayFollowsReceive(c[k], sized[k], legs[k]);
    }
  }

  lemma {:induction false} SizedIsWellSized(c: seq<Order>)
    requires Positive(c) && Sized(c).Some?
    ensures WellSized(c, Sized(c).value)
  {
    SizedLegsAreOf(c);
  }

  /** Around a cycle: if some sizing funds every leg and leaves something over, the scanner's does. */
  lemma {:induction false} SizedFunds(c: seq<Order>, legs: seq<ArbLeg>)
    requires Positive(c) && c != [] && WellSized(c, legs) && LegsFund(legs)
    ensures Sized(c).Some? && LegsFund(Sized(c).value)
  {
    SizedDeliversMost(c, legs);
    SizedIsWellSized(c);
    LeavesSomething(c, legs, Sized(c).value);
  }

  lemma {:induction false} LeavesSomething(c: seq<Order>, legs: seq<ArbLeg>, sized: seq<ArbLeg>)
    requires Positive(c) && c != [] && WellSized(c, legs) && WellSized(c, sized) && LegsFund(legs)
    requires forall j | 0 <= j < |c| :: legs[j].receiveAmount <= sized[j].receiveAmount
    ensures LegsFund(sized)
  {
    ClosesAtLeast(c, legs, sized);
    var i: nat :| i < |c| && LeftOver(legs, i) > 0;
    var j := LeavesAt(c, legs, sized, i);
    assert LeftOver(sized, j) > 0;
  }

  lemma {:induction false} LeavesAt(c: seq<Order>, legs: seq<ArbLeg>, sized: seq<ArbLeg>, i: nat) returns (j: nat)
    requires Positive(c) && WellSized(c, legs) && WellSized(c, sized) && i < |c| && LeftOver(legs, i) > 0
    requires forall j | 0 <= j < |c| :: legs[j].receiveAmount <= sized[j].receiveAmount
    requires LeftOver(legs, 0) >= 0
    requires LeftOver(sized, 0) - LeftOver(legs, 0) == sized[|c| - 1].receiveAmount - legs[|c| - 1].receiveAmount
    ensures j < |c| && LeftOver(sized, j) > 0
  {
    j := 0;
    if i > 0 {
      j := LeavesOrGains(c, legs, sized, i, |c| - 1);
      if LeftOver(sized, j) <= 0 {
        j := 0;
      }
    }
  }

  /** Back at the first order, a sizing that delivers no less leaves no less; on the way none is short. */
  lemma {:induction false} ClosesAtLeast(c: seq<Order>, legs: seq<ArbLeg>, sized: seq<ArbLeg>)
    requires Positive(c) && c != [] && WellSized(c, legs) && WellSized(c, sized) && LegsFund(legs)
    requires forall j | 0 <= j < |c| :: legs[j].receiveAmount <= sized[j].receiveAmount
    ensures LeftOver(sized, 0) - LeftOver(legs, 0) == sized[|c| - 1].receiveAmount - legs[|c| - 1].receiveAmount
    ensures LeftOver(legs, 0) >= 0 && forall i: nat | i < |c| :: LeftOver(sized, i) >= 0
  {
    assert LegOf(c[0], legs[0]) && LegOf(c[0], sized[0]);
    assert LeftOver(legs, 0) >= 0;
    forall i: nat | i < |c| ensures LeftOver(sized, i) >= 0 {
      if i > 0 {
        assert sized[i].payAmount <= sized[i - 1].receiveAmount;
      }
    }
  }

  // ------------------------------------------------------- some rotation

  /** Cut open at r, the cycle can be traded around risklessly in some way or other. */
  ghost predicate Pays(c: seq<Order>, r: nat, legs: seq<ArbLeg>)
    requires Positive(c) && r <= |c|
  {
    Positive(Rotation(c, r)) && WellSized(Rotation(c, r), legs) && LegsFund(legs)
  }

  /** Some rotation of the cycle can be traded around risklessly, its first order whole. */
  ghost predicate SomeRotationPays(c: seq<Order>) {
    Positive(c) && exists r: nat, legs :: r < |c| && Pays(c, r, legs)
  }

  /** The scanner evaluates a rotation as riskless exactly when it can be traded risklessly at all. */
  lemma {:induction false} EvaluatesWhatPays(c: seq<Order>, fee: int, r: nat)
    requires Positive(c) && IsCycle(c) && r <= |c|
    ensures EvaluateRotation(c, fee, r).Some? <==> exists legs :: Pays(c, r, legs)
  {
    var d := Rotation(c, r);
    RotationIsCycle(c, r);
    if Sized(d).Some? {
      SizedIsWellSized(d);
      LegsCycle(d, Sized(d).value);
      RisklessMeansFunded(Sized(d).value);
    }
    if EvaluateRotation(c, fee, r).Some? {
      assert Pays(c, r, Sized(d).value);
    }
    if legs :| Pays(c, r, legs) {
      SizedFunds(d, legs);
    }
  }

  lemma {:induction false} SomeRotationEvaluates(c: seq<Order>, fee: int)
    requires Positive(c) && IsCycle(c)
    ensures (exists r: nat :: r < |c| && EvaluateRotation(c, fee, r).Some?) <==> SomeRotationPays(c)
  {
    forall r: nat | r < |c| ensures EvaluateRotation(c, fee, r).Some? <==> exists legs :: Pays(c, r, legs) {
      EvaluatesWhatPays(c, fee, r);
    }
    if SomeRotationPays(c) {
      var r: nat, legs :| r < |c| && Pays(c, r, legs);
      assert EvaluateRotation(c, fee, r).Some?;
    }
  }

  // --------------------------------------------------------- the best rotation

  function PartialAt(legs: seq<ArbLeg>): set<nat> {
    set i: nat | i < |legs| && legs[i].takeAmount.Some?
  }

  lemma {:induction false} PartialsCount(legs: seq<ArbLeg>)
    ensures PartialCount(legs) == |PartialAt(legs)|
  {
    if legs != [] {
      var n := |legs| - 1;
      PartialsCount(legs[..n]);
      assert PartialAt(legs) == PartialAt(legs[..n]) + (if legs[n].takeAmount.Some? then {n} else {});
    }
  }

  /** What a sizing leaves of lovelace: what its legs deliver of it, less what they pay, the min-ADA and the fee. */
  function LovelaceLeft(legs: seq<ArbLeg>, fee: int): int {
    Flows(legs, "lovelace") - PartialMinAda(legs) - fee
  }

  /** Fewer orders cut, then more lovelace left, then the earlier rotation. */
  predicate RanksFirst(a: seq<ArbLeg>, r: nat, b: seq<ArbLeg>, k: nat, fee: int) {
    || |PartialAt(a)| < |PartialAt(b)|
    || (&& |PartialAt(a)| == |PartialAt(b)|
        && (LovelaceLeft(a, fee) > LovelaceLeft(b, fee)
            || (LovelaceLeft(a, fee) == LovelaceLeft(b, fee) && r <= k)))
  }

  lemma {:induction false} LovelaceIsLeft(orders: seq<Order>, fee: int, r: nat)
    requires r <= |orders| && EvaluateRotation(orders, fee, r).Some?
    ensures var ev := EvaluateRotation(orders, fee, r).value;
      ev.lovelaceNetAfterCosts == LovelaceLeft(ev.legs, fee) && PartialCount(ev.legs) == |PartialAt(ev.legs)|
  {
    var legs := EvaluateRotation(orders, fee, r).value.legs;
    NetsAreFlows(legs, "lovelace");
    PartialsCount(legs);
  }

  /** The sizing reported for a cycle ranks first among those of its rotations that are riskless. */
  lemma {:induction false} BestRanksFirst(orders: seq<Order>, fee: int) returns (r: nat)
    requires Best(orders, fee).Some?
    ensures r < |orders| && Best(orders, fee) == EvaluateRotation(orders, fee, r)
    ensures Best(orders, fee).value.lovelaceNetAfterCosts == LovelaceLeft(Best(orders, fee).value.legs, fee)
    ensures forall k: nat | k < |orders| && EvaluateRotation(orders, fee, k).Some? ::
      RanksFirst(Best(orders, fee).value.legs, r, EvaluateRotation(orders, fee, k).value.legs, k, fee)
  {
    r := BestIsBest(orders, fee);
    var best := Best(orders, fee).value;
    LovelaceIsLeft(orders, fee, r);
    forall k: nat | k < |orders| && EvaluateRotation(orders, fee, k).Some?
      ensures RanksFirst(best.legs, r, EvaluateRotation(orders, fee, k).value.legs, k, fee) {
      LovelaceIsLeft(orders, fee, k);
      assert Beaten(best, r, EvaluateRotation(orders, fee, k), k);
    }
  }
}
