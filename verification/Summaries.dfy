/**
 * What the taker is shown. Every line of a batch's summary is what its transaction does:
 * one fill per partial leg with the amounts that leave the order and those locked again,
 * the names burned, the deposits released and the time the batch stays valid.
 */
module Summaries {
  import opened Wrappers
  import opened Sequences
  import opened Pricing
  import opened Beacons
  import opened Orders
  import opened OrderDatum
  import opened Ledger
  import opened TxBuilder
  import opened TxBuilderProofs
  import opened RankPairing
  import opened Batches
  import opened Payments

  // ------------------------------------------------------------ the fills

  /** The legs that take a part, in the batch's order. */
  function PartialLegs(legs: seq<Leg>): seq<Leg> {
    if legs == [] then []
    else
      var last := legs[|legs| - 1];
      PartialLegs(legs[..|legs| - 1]) + (if last.cut.Some? then [last] else [])
  }

  /** The output locks the order again, at the fill's address, for exactly the amounts the fill leaves. */
  predicate ReLocks(out: TxOut, d: Datum, f: PartialFill) {
    && out.address == f.continuationAddress && out.datum.Some?
    && DecodeOrderDatum(out.datum.value) == Some(d.(offerAmount := f.remainingOffer, askAmount := f.remainingAsk))
  }

  /** The fill names the leg's order; what it takes and leaves is the order's offer, what it pays and leaves its ask. */
  ghost predicate TellsFill(draft: Draft, l: Leg, f: PartialFill) {
    && f.ref == l.ref && ScriptInput(f.ref, TakePartial(f.takeAmount)) in draft.inputs
    && f.takeAmount > 0 && l.datum.askAmount > 0 && l.datum.offerAmount > 0
    && f.paidAsk == Owed(f.takeAmount, l.datum.askAmount, l.datum.offerAmount)
    && f.takeAmount + f.remainingOffer == l.datum.offerAmount
    && f.paidAsk + f.remainingAsk == l.datum.askAmount
    && exists o :: 0 <= o < |draft.outputs| && ReLocks(draft.outputs[o], l.datum, f)
  }

  ghost predicate FillsMatch(fills: seq<PartialFill>, partials: seq<Leg>) {
    |fills| == |partials| && forall j | 0 <= j < |partials| :: partials[j].cut.Some? && fills[j] == FillOf(partials[j])
  }

  lemma {:induction false} FillsMatchSnoc(fills: seq<PartialFill>, partials: seq<Leg>, l: Leg)
    requires FillsMatch(fills, partials) && l.cut.Some?
    ensures FillsMatch(fills + [FillOf(l)], partials + [l])
  {
  }

  lemma {:induction false} FillsSnoc(proto: Protocol, legs: seq<Leg>)
    requires legs != []
    ensures var init, l := BatchOf(proto, legs[..|legs| - 1]).fills, legs[|legs| - 1];
      BatchOf(proto, legs).fills == if l.cut.Some? then init + [FillOf(l)] else init
  {
  }

  lemma {:induction false} FillsAre(proto: Protocol, legs: seq<Leg>)
    ensures FillsMatch(BatchOf(proto, legs).fills, PartialLegs(legs))
  {
    if legs != [] {
      var n := |legs| - 1;
      FillsAre(proto, legs[..n]);
      FillsSnoc(proto, legs);
      if legs[n].cut.Some? {
        FillsMatchSnoc(BatchOf(proto, legs[..n]).fills, PartialLegs(legs[..n]), legs[n]);
      }
    }
  }

  lemma {:induction false} OutputsCount(proto: Protocol, legs: seq<Leg>)
    ensures |BatchOf(proto, legs).outputs| == |legs| + |PartialLegs(legs)|
  {
    if legs != [] {
      OutputsCount(proto, legs[..|legs| - 1]);
      OutputsSnoc(proto, legs);
    }
  }

  lemma {:induction false} PartialIsLeg(legs: seq<Leg>, j: nat) returns (k: nat)
    requires j < |PartialLegs(legs)|
    ensures k < |legs| && legs[k] == PartialLegs(legs)[j] && legs[k].cut.Some?
  {
    var n := |legs| - 1;
    if j < |PartialLegs(legs[..n])| {
      k := PartialIsLeg(legs[..n], j);
    } else {
      k := n;
    }
  }

  lemma {:induction false} LegIsPartial(legs: seq<Leg>, k: nat) returns (j: nat)
    requires k < |legs| && legs[k].cut.Some?
    ensures j < |PartialLegs(legs)| && PartialLegs(legs)[j] == legs[k]
  {
    var n := |legs| - 1;
    if k < n {
      j := LegIsPartial(legs[..n], k);
    } else {
      j := |PartialLegs(legs[..n])|;
    }
  }

  lemma {:induction false} ContinuationInPlace(proto: Protocol, legs: seq<Leg>, k: nat)
    requires k < |legs| && legs[k].cut.Some?
    ensures PaymentIndex(proto, legs, k) + 1 < |BatchOf(proto, legs).outputs|
    ensures BatchOf(proto, legs).outputs[PaymentIndex(proto, legs, k) + 1] == Continuation(legs[k])
  {
    OutputsSnoc(proto, legs);
    var init := legs[..|legs| - 1];
    if k == |legs| - 1 {
      assert legs[..k] == init;
      var before := BatchOf(proto, init).outputs;
      assert (before + LegOutputs(legs[k]))[|before| + 1] == Continuation(legs[k]);
    } else {
      ContinuationInPlace(proto, init, k);
      SamePaymentIndex(proto, legs, k);
    }
  }

  lemma {:induction false} ContinuationReLocks(proto: Protocol, l: Leg)
    requires GoodLeg(proto, l) && l.cut.Some?
    ensures ReLocks(Continuation(l), l.datum, FillOf(l))
  {
    ContinuationIsAnOrder(proto, l);
    RoundTrip(ContinuationDatum(l.datum, l.cut.value));
  }

  lemma {:induction false} FillIsTold(proto: Protocol, legs: seq<Leg>, k: nat)
    requires GoodLegs(proto, legs) && k < |legs| && legs[k].cut.Some?
    ensures TellsFill(TakeLegs(proto, legs).draft, legs[k], FillOf(legs[k]))
  {
    assert GoodLeg(proto, legs[k]);
    ContinuationInPlace(proto, legs, k);
    ContinuationReLocks(proto, legs[k]);
    DraftInputs(proto, legs);
    assert LegInputs(legs)[k] == LegInput(legs[k]) == ScriptInput(legs[k].ref, TakePartial(legs[k].cut.value.takeAmount));
    var o := PaymentIndex(proto, legs, k) + 1;
    assert TakeLegs(proto, legs).draft.outputs[o] == Continuation(legs[k]);
  }

  ghost predicate TellsFills(t: TakeTx, legs: seq<Leg>) {
    && |t.summary.partialFills| == |PartialLegs(legs)|
    && |t.draft.outputs| == |legs| + |PartialLegs(legs)|
    && forall j | 0 <= j < |PartialLegs(legs)| :: TellsFill(t.draft, PartialLegs(legs)[j], t.summary.partialFills[j])
  }

  lemma {:induction false} FillsAreTold(proto: Protocol, legs: seq<Leg>)
    requires GoodLegs(proto, legs)
    ensures TellsFills(TakeLegs(proto, legs), legs)
  {
    FillsAre(proto, legs);
    OutputsCount(proto, legs);
    var partials := PartialLegs(legs);
    forall j | 0 <= j < |partials|
      ensures TellsFill(TakeLegs(proto, legs).draft, partials[j], TakeLegs(proto, legs).summary.partialFills[j]) {
      var k := PartialIsLeg(legs, j);
      FillIsTold(proto, legs, k);
    }
  }

  // ------------------------------------------------------------- the totals

  /** Lovelace a full leg's payment holds beyond an ask in ADA. */
  function Returned(l: Leg): int {
    if l.cut.Some? then 0 else Total(Payment(l).amount, Lovelace) - (if IsAda(l.datum.ask) then l.datum.askAmount else 0)
  }

  lemma {:induction false} DepositsAreReturned(proto: Protocol, legs: seq<Leg>)
    requires GoodLegs(proto, legs)
    ensures DepositTotal(legs) == SumBy(Returned, legs)
  {
    if legs != [] {
      GoodPrefix(proto, legs);
      var l := legs[|legs| - 1];
      DepositsAreReturned(proto, legs[..|legs| - 1]);
      PaymentTotals(proto, l, Lovelace);
    }
  }

  /** Burned names as minted, deposits as returned, and the bound as set. */
  ghost predicate TellsTotals(t: TakeTx, legs: seq<Leg>) {
    && (forall name :: MintTotal(t.draft.mint, name) + CountOf(t.summary.burned, name) == 0)
    && t.summary.totalDeposit == SumBy(Returned, legs)
    && t.summary.expiration == t.draft.invalidHereafter
  }

  lemma {:induction false} TotalsAreTold(proto: Protocol, legs: seq<Leg>)
    requires GoodLegs(proto, legs)
    ensures TellsTotals(TakeLegs(proto, legs), legs)
  {
    DepositsAreReturned(proto, legs);
    forall name {
      BurnsAreTold(proto, legs, name);
    }
  }

  lemma {:induction false} BurnsAreTold(proto: Protocol, legs: seq<Leg>, name: TokenName)
    ensures MintTotal(TakeLegs(proto, legs).draft.mint, name) + CountOf(TakeLegs(proto, legs).summary.burned, name) == 0
  {
    MintEntriesAggregate(BatchOf(proto, legs).burned, -1, name);
  }

  // --------------------------------------------------------- the whole summary

  /** A request's take is one of the fills. */
  ghost predicate IsTold(t: TakeTx, o: TakeLeg) {
    o.takeAmount.Some? ==>
      exists j :: 0 <= j < |t.summary.partialFills|
        && ParseOrderId(o.orderId) == Some(t.summary.partialFills[j].ref)
        && t.summary.partialFills[j].takeAmount == o.takeAmount.value
  }

  lemma {:induction false} PartialIsTold(proto: Protocol, legs: seq<Leg>, k: nat, o: TakeLeg)
    requires k < |legs| && ParseOrderId(o.orderId) == Some(legs[k].ref)
    requires o.takeAmount == if legs[k].cut.None? then None else Some(legs[k].cut.value.takeAmount)
    ensures IsTold(TakeLegs(proto, legs), o)
  {
    if legs[k].cut.Some? {
      var j := LegIsPartial(legs, k);
      FillsAre(proto, legs);
      assert TakeLegs(proto, legs).summary.partialFills[j] == FillOf(legs[k]);
    }
  }

  /**
   * The summary of every accepted batch is true: exactly one fill for each partial leg, in
   * the batch's order, each with the amounts the transaction takes, pays and locks again;
   * every partial request among them; and the burns, deposits and bound as they are.
   */
  lemma {:induction false} SummaryIsTrue(proto: Protocol, utxos: map<OutRef, TxOut>, wallet: Wallet, orders: seq<TakeLeg>, now: int)
    returns (legs: seq<Leg>)
    requires BeaconsOnlyInOrders(proto, utxos) && TakeManyOrders(proto, utxos, wallet, orders, now).Ok?
    ensures var t := TakeManyOrders(proto, utxos, wallet, orders, now).value;
      && |legs| == |orders| && GoodLegs(proto, legs) && FromUtxos(utxos, legs)
      && TellsFills(t, legs) && TellsTotals(t, legs)
      && forall i | 0 <= i < |orders| :: IsTold(t, orders[i])
  {
    var rs;
    rs, legs := AcceptedBatch(proto, utxos, wallet, orders, now);
    FillsAreTold(proto, legs);
    TotalsAreTold(proto, legs);
    forall i | 0 <= i < |orders| ensures IsTold(TakeLegs(proto, legs), orders[i]) {
      var k := LegOfRequest(proto, utxos, orders, rs, legs, i);
      PartialIsTold(proto, legs, k, orders[i]);
    }
  }
}
