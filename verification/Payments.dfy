/**
 * What sellers see of a batch: one tagged payment per spent order, worth at least what
 * that order is owed, no payment standing for two orders, and a validity bound no later
 * than any of the orders' expirations.
 */
module Payments {
  import opened Wrappers
  import opened Pricing
  import opened Beacons
  import opened Orders
  import opened OrderDatum
  import opened Ledger
  import opened TxBuilder
  import opened TxBuilderProofs
  import opened RankPairing
  import opened Batches

  // ------------------------------------------------------------ payments

  function TagOf(ref: OutRef): Data {
    EncodePaymentTag(ref.txHash, ref.index)
  }

  /** A tag names one order output, and is not an order's datum. */
  lemma {:induction false} TagNamesOrder(a: OutRef, b: OutRef, d: Datum)
    ensures TagOf(a) == TagOf(b) <==> a == b
    ensures TagOf(a) != EncodeOrderDatum(d)
  {
    assert TagOf(a).fields[0].fields == [BytesData(a.txHash), IntData(a.index)];
    assert TagOf(b).fields[0].fields == [BytesData(b.txHash), IntData(b.index)];
    assert |TagOf(a).fields| == 1 && |EncodeOrderDatum(d).fields| == 10;
    assert TagOf(a).fields[0].fields[0].bytes == a.txHash && TagOf(a).fields[0].fields[1].value == a.index;
    assert TagOf(b).fields[0].fields[0].bytes == b.txHash && TagOf(b).fields[0].fields[1].value == b.index;
  }

  /** Where the payment of leg k lands among the outputs. */
  function PaymentIndex(proto: Protocol, legs: seq<Leg>, k: nat): nat
    requires k < |legs|
  {
    |BatchOf(proto, legs[..k]).outputs|
  }

  lemma {:induction false} PaymentInPlace(proto: Protocol, legs: seq<Leg>, k: nat)
    requires k < |legs|
    ensures PaymentIndex(proto, legs, k) < |BatchOf(proto, legs).outputs|
    ensures BatchOf(proto, legs).outputs[PaymentIndex(proto, legs, k)] == Payment(legs[k])
  {
    OutputsSnoc(proto, legs);
    var init := legs[..|legs| - 1];
    if k == |legs| - 1 {
      assert legs[..k] == init;
      LastOutputs(BatchOf(proto, init).outputs, legs[k], PaymentIndex(proto, legs, k));
    } else {
      PaymentInPlace(proto, init, k);
      SamePaymentIndex(proto, legs, k);
    }
  }

  /** Every output of a batch is the payment of one of its legs, in place, or a continuation. */
  lemma {:induction false} OutputIs(proto: Protocol, legs: seq<Leg>, o: nat) returns (k: nat)
    requires o < |BatchOf(proto, legs).outputs|
    ensures k < |legs|
    ensures var out := BatchOf(proto, legs).outputs[o];
      if o == PaymentIndex(proto, legs, k) then out == Payment(legs[k])
      else legs[k].cut.Some? && out == Continuation(legs[k])
  {
    OutputsSnoc(proto, legs);
    var init := legs[..|legs| - 1];
    if o < |BatchOf(proto, init).outputs| {
      k := OutputIs(proto, init, o);
      assert legs[k] == init[k];
      SamePaymentIndex(proto, legs, k);
    } else {
      k := |legs| - 1;
      assert legs[..k] == init;
      LastOutputs(BatchOf(proto, init).outputs, legs[k], o);
    }
  }

  lemma {:induction false} SamePaymentIndex(proto: Protocol, legs: seq<Leg>, k: nat)
    requires k < |legs| - 1
    ensures PaymentIndex(proto, legs[..|legs| - 1], k) == PaymentIndex(proto, legs, k)
  {
    assert legs[..|legs| - 1][..k] == legs[..k];
  }

  lemma {:induction false} LastOutputs(before: seq<TxOut>, l: Leg, o: nat)
    requires |before| <= o < |before + LegOutputs(l)|
    ensures var out := (before + LegOutputs(l))[o];
      if o == |before| then out == Payment(l) else l.cut.Some? && out == Continuation(l)
  {
  }

  /** What the seller of leg l is owed of u: the ask and the deposit in full, or the cut's ceiling price. */
  function OwedTo(l: Leg, u: Unit): int {
    if l.cut.None?
    then (if u == UnitOf(l.datum.ask) then l.datum.askAmount else 0) + (if u == Lovelace then l.deposit else 0)
    else if u == UnitOf(l.datum.ask) then l.cut.value.required else 0
  }

  lemma {:induction false} PaymentCoversOwed(proto: Protocol, l: Leg, u: Unit)
    requires GoodLeg(proto, l)
    ensures Total(Payment(l).amount, u) >= OwedTo(l, u)
  {
    PaymentTotals(proto, l, u);
  }

  lemma {:induction false} LegIsPaid(proto: Protocol, l: Leg)
    requires GoodLeg(proto, l)
    ensures Payment(l).address == PaymentAddress(l.datum)
    ensures forall u :: Total(Payment(l).amount, u) >= OwedTo(l, u)
  {
    forall u ensures Total(Payment(l).amount, u) >= OwedTo(l, u) {
      PaymentCoversOwed(proto, l, u);
    }
  }

  /**
   * No double satisfaction: the output at a leg's place pays that leg's seller, under the
   * leg's own tag, at least what is owed; no other output of the batch carries that tag,
   * so no payment counts for two orders.
   */
  lemma {:induction false} EachLegIsPaidOnce(proto: Protocol, legs: seq<Leg>, k: nat, o: nat)
    requires GoodLegs(proto, legs) && LegRefsDiffer(legs) && k < |legs| && o < |TakeLegs(proto, legs).draft.outputs|
    ensures PaymentIndex(proto, legs, k) < |TakeLegs(proto, legs).draft.outputs|
    ensures var paid := TakeLegs(proto, legs).draft.outputs[PaymentIndex(proto, legs, k)];
      && paid.address == PaymentAddress(legs[k].datum)
      && (forall u :: Total(paid.amount, u) >= OwedTo(legs[k], u))
    ensures TakeLegs(proto, legs).draft.outputs[o].datum == Some(TagOf(legs[k].ref)) <==> o == PaymentIndex(proto, legs, k)
  {
    PaymentInPlace(proto, legs, k);
    LegIsPaid(proto, legs[k]);
    TagIsAt(proto, legs, k, o);
  }

  lemma {:induction false} TagIsAt(proto: Protocol, legs: seq<Leg>, k: nat, o: nat)
    requires LegRefsDiffer(legs) && k < |legs| && o < |BatchOf(proto, legs).outputs|
    ensures BatchOf(proto, legs).outputs[o].datum == Some(TagOf(legs[k].ref)) <==> o == PaymentIndex(proto, legs, k)
  {
    PaymentInPlace(proto, legs, k);
    var j := OutputIs(proto, legs, o);
    if o == PaymentIndex(proto, legs, j) {
      TagNamesOrder(legs[j].ref, legs[k].ref, legs[k].datum);
    } else {
      TagNamesOrder(legs[k].ref, legs[k].ref, ContinuationDatum(legs[j].datum, legs[j].cut.value));
    }
  }

  // ------------------------------------------------------- validity bound

  /** The bound is the smallest expiration present, and absent exactly when none is. */
  lemma {:induction false} EarliestIsSmallest(legs: seq<Leg>)
    ensures EarliestExpiration(legs).None? <==> forall k | 0 <= k < |legs| :: legs[k].datum.expiration.None?
    ensures EarliestExpiration(legs).Some? ==>
      && (exists k | 0 <= k < |legs| :: legs[k].datum.expiration == EarliestExpiration(legs))
      && (forall k | 0 <= k < |legs| && legs[k].datum.expiration.Some? ::
            EarliestExpiration(legs).value <= legs[k].datum.expiration.value)
  {
    if legs != [] {
      var init := legs[..|legs| - 1];
      EarliestIsSmallest(init);
      assert forall k | 0 <= k < |init| :: init[k] == legs[k];
      if EarliestExpiration(init).Some? {
        var k :| 0 <= k < |init| && init[k].datum.expiration == EarliestExpiration(init);
        assert legs[k].datum.expiration == EarliestExpiration(init);
      }
    }
  }

  /** A batch that is not rejected is still valid now, and no longer than any order it spends. */
  lemma {:induction false} BatchIsTimely(proto: Protocol, utxos: map<OutRef, TxOut>, wallet: Wallet, orders: seq<TakeLeg>,
                                         now: int) returns (legs: seq<Leg>)
    requires BeaconsOnlyInOrders(proto, utxos) && TakeManyOrders(proto, utxos, wallet, orders, now).Ok?
    ensures TakeManyOrders(proto, utxos, wallet, orders, now) == Ok(TakeLegs(proto, legs))
    ensures var until := TakeLegs(proto, legs).draft.invalidHereafter;
      && (until.None? <==> forall k | 0 <= k < |legs| :: legs[k].datum.expiration.None?)
      && (until.Some? ==> now < until.value)
      && (forall k | 0 <= k < |legs| && legs[k].datum.expiration.Some? ::
            until.Some? && until.value <= legs[k].datum.expiration.value)
  {
    var rs;
    rs, legs := AcceptedBatch(proto, utxos, wallet, orders, now);
    EarliestIsSmallest(legs);
    var sorted := Sorting.Sort(LegBefore, rs);
    AnsweredAreGood(proto, utxos, orders, rs);
    SortKeepsGood(proto, utxos, rs);
    PricedAreGood(proto, utxos, sorted);
    LaterThanNow(sorted, legs, now);
  }

  lemma {:induction false} LaterThanNow(sorted: seq<Resolved>, legs: seq<Leg>, now: int)
    requires |sorted| == |legs| && (forall i | 0 <= i < |sorted| :: PricedFrom(sorted[i], legs[i]))
    requires !AnyExpired(sorted, now)
    ensures EarliestExpiration(legs).Some? ==> now < EarliestExpiration(legs).value
  {
    EarliestIsSmallest(legs);
    if EarliestExpiration(legs).Some? {
      var k :| 0 <= k < |legs| && legs[k].datum.expiration == EarliestExpiration(legs);
      assert PricedFrom(sorted[k], legs[k]) && !Expired(sorted[k], now);
    }
  }
}
