/**
 * Partial-fill pricing: the ask owed for taking part of an order, the largest
 * part a budget can buy, and the clamp the trade panel applies to user input.
 * Amounts are unbounded integers, as the source's bigint is.
 */
module Pricing {
  import opened Wrappers

  /** ceil(take * ask / offer); None where the source throws. */
  function RequiredPayment(take: int, ask: int, offer: int): Option<int>
  {
    if take <= 0 || ask <= 0 || offer <= 0 then None
    else Some((take * ask + offer - 1) / offer)
  }

  /** The payment on positive arguments, where RequiredPayment never throws. */
  function Owed(take: int, ask: int, offer: int): int
    requires take > 0 && ask > 0 && offer > 0
  {
    RequiredPayment(take, ask, offer).value
  }

  function MaxTakeForSpend(spend: int, ask: int, offer: int): int
  {
    if spend <= 0 || ask <= 0 || offer <= 0 then 0 else
    var take := spend * offer / ask;
    var askCap := (ask - 1) * offer / ask;
    var take := if take > askCap then askCap else take;
    var take := if take > offer - 1 then offer - 1 else take;
    if take > 0 then take else 0
  }

  function ClampTake(take: int, ask: int, offer: int): int
  {
    if offer <= 1 || ask <= 1 then 0 else
    var max := MaxTakeForSpend(ask - 1, ask, offer);
    if max <= 0 then 0
    else if take < 1 then 1
    else if take > max then max
    else take
  }

  /** The guards a partial leg must pass in the batch builder. */
  predicate AcceptedTake(take: int, ask: int, offer: int)
    requires ask > 0 && offer > 0
  {
    0 < take < offer && Owed(take, ask, offer) < ask
  }

  /** Owed is the least q with take/offer <= q/ask, cross-multiplied. */
  lemma {:induction false} OwedIsCeiling(take: int, ask: int, offer: int, q: int)
    requires take > 0 && ask > 0 && offer > 0
    ensures take * ask <= q * offer <==> Owed(take, ask, offer) <= q
  {
    var n := take * ask + offer - 1;
    var p := n / offer;
    assert p * offer <= n < p * offer + offer;
    if p <= q {
      assert p * offer <= q * offer;
    } else {
      assert (q + 1) * offer <= p * offer;
    }
  }

  lemma {:induction false} OwedBounds(take: int, ask: int, offer: int)
    requires take > 0 && ask > 0 && offer > 0
    ensures 0 < Owed(take, ask, offer)
    ensures take * ask <= Owed(take, ask, offer) * offer < take * ask + offer
  {
    var p := Owed(take, ask, offer);
    OwedIsCeiling(take, ask, offer, p);
    OwedIsCeiling(take, ask, offer, p - 1);
    OwedIsCeiling(take, ask, offer, 0);
    assert take * ask > 0;
  }

  /** Taking the whole order costs exactly its ask. */
  lemma {:induction false} OwedWhole(ask: int, offer: int)
    requires ask > 0 && offer > 0
    ensures Owed(offer, ask, offer) == ask
  {
    OwedIsCeiling(offer, ask, offer, ask);
    OwedIsCeiling(offer, ask, offer, ask - 1);
    assert offer * ask == ask * offer;
    assert (ask - 1) * offer == ask * offer - offer;
  }

  lemma {:induction false} FloorIsGreatest(n: int, d: int, t: int)
    requires d > 0
    ensures t <= n / d <==> t * d <= n
  {
    var f := n / d;
    assert f * d <= n < f * d + d;
    if t <= f {
      assert t * d <= f * d;
    } else {
      assert (f + 1) * d <= t * d;
    }
  }

  /** A take is buyable and accepted exactly when it lies in 1..MaxTakeForSpend. */
  lemma {:induction false} MaxTakeIsGreatest(spend: int, ask: int, offer: int, take: int)
    requires ask > 0 && offer > 0
    ensures AcceptedTake(take, ask, offer) && Owed(take, ask, offer) <= spend
       <==> 0 < take <= MaxTakeForSpend(spend, ask, offer)
  {
    if take > 0 {
      OwedBounds(take, ask, offer);
      OwedIsCeiling(take, ask, offer, spend);
      OwedIsCeiling(take, ask, offer, ask - 1);
      FloorIsGreatest(spend * offer, ask, take);
      FloorIsGreatest((ask - 1) * offer, ask, take);
    }
  }

  /**
   * The clamp returns 0 exactly when no partial take is acceptable; otherwise it
   * returns the acceptable take nearest to the one asked for.
   */
  lemma {:induction false} ClampTakeIsNearest(take: int, ask: int, offer: int, other: int)
    requires ask > 0 && offer > 0
    ensures var c := ClampTake(take, ask, offer);
      if c == 0 then !AcceptedTake(other, ask, offer)
      else
        && AcceptedTake(c, ask, offer)
        && (AcceptedTake(other, ask, offer) ==> take <= c <= other || other <= c <= take)
  {
    var c := ClampTake(take, ask, offer);
    MaxTakeIsGreatest(ask - 1, ask, offer, other);
    MaxTakeIsGreatest(ask - 1, ask, offer, c);
    if ask == 1 && other > 0 {
      OwedBounds(other, ask, offer);
    }
  }
}
