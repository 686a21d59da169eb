/**
 * Builder and indexer agree on what an order is: every order output the builder
 * places is cached with exactly its terms, a continuation as its parent with lower
 * amounts, and an output without beacons is an order to neither.
 */
module Closure {
  import opened Wrappers
  import opened Pricing
  import opened Beacons
  import opened Orders
  import opened OrderDatum
  import opened Ledger
  import opened TxBuilder
  import opened TxBuilderProofs
  import opened Indexer

  /** The cached record of an order output. */
  function Record(ref: OutRef, address: Address, d: Datum, deposit: int): Order {
    Order(ref, Open, ToPairId(d.offer, d.ask), address, d.ownerKeyHash, PaymentAddress(d),
      d.offer, d.offerAmount, d.ask, d.askAmount, deposit, NamesOf(d), d.expiration, d.version,
      d.allowPartialFill, None, None, None, None)
  }

  lemma {:induction false} ExactHoldsBeacons(proto: Protocol, out: TxOut, d: Datum, deposit: int)
    requires ExactOrder(proto, out, d, deposit)
    ensures HoldsBeacons(proto, out.amount, NamesOf(d))
  {
    var v := NamesOf(d).Values();
    forall i | 0 <= i < 5 ensures QuantityOf(out.amount, BeaconUnit(proto, v[i])) == 1 {
      assert v[i] in v;
      QuantityOfExact(proto, out, d, deposit, BeaconUnit(proto, v[i]));
    }
  }

  /** What the indexer reads of an order output's value. */
  lemma {:induction false} ExactQuantities(proto: Protocol, out: TxOut, d: Datum, deposit: int)
    requires ExactOrder(proto, out, d, deposit)
    ensures QuantityOf(out.amount, Lovelace) == deposit + (if IsAda(d.offer) then d.offerAmount else 0)
    ensures !IsAda(d.offer) ==> QuantityOf(out.amount, UnitOf(d.offer)) == d.offerAmount
  {
    QuantityOfExact(proto, out, d, deposit, Lovelace);
    QuantityOfExact(proto, out, d, deposit, UnitOf(d.offer));
    assert UnitOf(d.offer) == Lovelace <==> IsAda(d.offer);
    assert !IsBeaconUnit(proto, UnitOf(d.offer));
  }

  lemma {:induction false} ExactDatumDecodes(proto: Protocol, out: TxOut, d: Datum, deposit: int)
    requires ExactOrder(proto, out, d, deposit)
    ensures out.datum.Some? && DecodeOrderDatum(out.datum.value) == Some(d) && d.beaconPolicyId == proto.beaconPolicyId
    ensures out.address == OrderAddress(proto, d.ownerKeyHash) && deposit > 0
  {
    RoundTrip(d);
  }

  /** The indexer caches an order output with its own datum's terms and its deposit. */
  lemma {:induction false} ExactOrderIsIndexed(proto: Protocol, ref: OutRef, out: TxOut, d: Datum, deposit: int)
    requires ExactOrder(proto, out, d, deposit)
    ensures ValidateAndMap(proto, ref, out) == Some(Record(ref, out.address, d, deposit))
  {
    ExactDatumDecodes(proto, out, d, deposit);
    ExactHoldsBeacons(proto, out, d, deposit);
    ExactQuantities(proto, out, d, deposit);
    RecordOf(proto, ref, out, d, deposit);
  }

  lemma {:induction false} RecordOf(proto: Protocol, ref: OutRef, out: TxOut, d: Datum, deposit: int)
    requires out.datum.Some? && DecodeOrderDatum(out.datum.value) == Some(d) && d.beaconPolicyId == proto.beaconPolicyId
    requires out.address == OrderAddress(proto, d.ownerKeyHash) && deposit > 0
    requires HoldsBeacons(proto, out.amount, NamesOf(d))
    requires QuantityOf(out.amount, Lovelace) == deposit + (if IsAda(d.offer) then d.offerAmount else 0)
    requires !IsAda(d.offer) ==> QuantityOf(out.amount, UnitOf(d.offer)) == d.offerAmount
    ensures ValidateAndMap(proto, ref, out) == Some(Record(ref, out.address, d, deposit))
  {
  }

  /** A cached order at a new reference, its amounts lowered by what was taken and paid. */
  function Lowered(o: Order, ref: OutRef, taken: int, paid: int): Order {
    o.(ref := ref, offeredAmount := o.offeredAmount - taken, requestedAmount := o.requestedAmount - paid)
  }

  lemma {:induction false} LoweredRecord(l: Leg, child: OutRef)
    requires l.cut.Some? && NamesOf(ContinuationDatum(l.datum, l.cut.value)) == NamesOf(l.datum)
    ensures Record(child, l.output.address, ContinuationDatum(l.datum, l.cut.value), l.deposit)
         == Lowered(Record(l.ref, l.output.address, l.datum, l.deposit), child,
                    l.cut.value.takeAmount, l.cut.value.required)
  {
  }

  /**
   * The cached continuation is the cached parent at its new reference: same owner,
   * pair, assets, beacon names, addresses, expiry and deposit, with the amounts
   * lowered by the take and by its ceiling price.
   */
  lemma {:induction false} ContinuationIsIndexed(proto: Protocol, l: Leg, child: OutRef) returns (parent: Order)
    requires GoodLeg(proto, l) && l.cut.Some?
    ensures ValidateAndMap(proto, l.ref, l.output) == Some(parent)
    ensures parent.offeredAmount == l.datum.offerAmount > 0 && parent.requestedAmount == l.datum.askAmount > 0
    ensures parent.allowPartialFill && AcceptedTake(l.cut.value.takeAmount, parent.requestedAmount, parent.offeredAmount)
    ensures ValidateAndMap(proto, child, Continuation(l))
         == Some(Lowered(parent, child, l.cut.value.takeAmount,
                         Owed(l.cut.value.takeAmount, parent.requestedAmount, parent.offeredAmount)))
  {
    parent := ParentRecord(proto, l);
    ContinuationRecord(proto, l, child);
    ContinuationTerms(proto, l);
    LoweredRecord(l, child);
  }

  lemma {:induction false} ParentRecord(proto: Protocol, l: Leg) returns (parent: Order)
    requires GoodLeg(proto, l)
    ensures ValidateAndMap(proto, l.ref, l.output) == Some(parent)
    ensures parent == Record(l.ref, l.output.address, l.datum, l.deposit)
  {
    ExactOrderIsIndexed(proto, l.ref, l.output, l.datum, l.deposit);
    parent := Record(l.ref, l.output.address, l.datum, l.deposit);
  }

  lemma {:induction false} ContinuationRecord(proto: Protocol, l: Leg, child: OutRef)
    requires GoodLeg(proto, l) && l.cut.Some?
    ensures ValidateAndMap(proto, child, Continuation(l))
         == Some(Record(child, l.output.address, ContinuationDatum(l.datum, l.cut.value), l.deposit))
  {
    ContinuationIsAnOrder(proto, l);
    ExactOrderIsIndexed(proto, child, Continuation(l), ContinuationDatum(l.datum, l.cut.value), l.deposit);
  }

  /** An output that carries no beacon is an order to neither. */
  lemma {:induction false} BeaconlessIsNoOrder(proto: Protocol, ref: OutRef, out: TxOut)
    requires NoBeacons(proto, out.amount)
    ensures ValidateAndMap(proto, ref, out) == None
    ensures ResolveOutput(proto, ref, out).Err?
  {
    forall d: Datum ensures !HoldsBeacons(proto, out.amount, NamesOf(d)) {
      TotalOfAbsent(out.amount, BeaconUnit(proto, NamesOf(d).Values()[0]));
    }
  }

  // ------------------------------------------- whatever else is on the chain

  /** The output's datum is this one, of this protocol, and the output holds one of each beacon the datum implies. */
  ghost predicate Vouches(proto: Protocol, out: TxOut, d: Datum) {
    && out.datum.Some? && DecodeOrderDatum(out.datum.value) == Some(d) && d.beaconPolicyId == proto.beaconPolicyId
    && forall i | 0 <= i < 5 :: Total(out.amount, BeaconUnit(proto, NamesOf(d).Values()[i])) == 1
  }

  /** It also sits at the validator, staked to the datum's owner, and holds the whole offer. */
  ghost predicate Backs(proto: Protocol, out: TxOut, d: Datum) {
    && Vouches(proto, out, d)
    && out.address.payment == ScriptHash(proto.orderValidatorHash) && StakeKeyOf(out.address) == d.ownerKeyHash
    && Total(out.amount, UnitOf(d.offer)) >= d.offerAmount
  }

  lemma {:induction false} VouchesIs(proto: Protocol, out: TxOut, d: Datum)
    requires DistinctUnits(out.amount)
    ensures Vouches(proto, out, d) <==>
      && out.datum.Some? && DecodeOrderDatum(out.datum.value) == Some(d) && d.beaconPolicyId == proto.beaconPolicyId
      && HoldsBeacons(proto, out.amount, NamesOf(d))
  {
    forall i | 0 <= i < 5 ensures QuantityOf(out.amount, BeaconUnit(proto, NamesOf(d).Values()[i]))
        == Total(out.amount, BeaconUnit(proto, NamesOf(d).Values()[i])) {
      QuantityIsTotal(out.amount, BeaconUnit(proto, NamesOf(d).Values()[i]));
    }
  }

  lemma {:induction false} ResolvesWhatVouches(proto: Protocol, ref: OutRef, out: TxOut, d: Datum)
    requires DistinctUnits(out.amount) && out.datum.Some? && DecodeOrderDatum(out.datum.value) == Some(d)
    ensures ResolveOutput(proto, ref, out).Ok? <==> Vouches(proto, out, d)
  {
    VouchesIs(proto, out, d);
  }

  lemma {:induction false} MapsWhatBacks(proto: Protocol, ref: OutRef, out: TxOut, d: Datum)
    requires d.beaconPolicyId == proto.beaconPolicyId && HoldsBeacons(proto, out.amount, NamesOf(d)) && DistinctUnits(out.amount)
    ensures MapDatum(proto, ref, out, d) ==
      if StakeKeyOf(out.address) == d.ownerKeyHash && Total(out.amount, UnitOf(d.offer)) >= d.offerAmount
      then Some(Record(ref, out.address, d, Besides(out, d))) else None
  {
    QuantityIsTotal(out.amount, Lovelace);
    QuantityIsTotal(out.amount, UnitOf(d.offer));
  }

  lemma {:induction false} IndexesWhatBacks(proto: Protocol, ref: OutRef, out: TxOut, d: Datum)
    requires DistinctUnits(out.amount) && out.datum.Some? && DecodeOrderDatum(out.datum.value) == Some(d)
    ensures ValidateAndMap(proto, ref, out) ==
      if Backs(proto, out, d) then Some(Record(ref, out.address, d, Besides(out, d))) else None
  {
    VouchesIs(proto, out, d);
    if Vouches(proto, out, d) {
      MapsWhatBacks(proto, ref, out, d);
    }
  }

  /** Lovelace the output holds besides an offer of ADA. */
  function Besides(out: TxOut, d: Datum): int {
    Total(out.amount, Lovelace) - (if IsAda(d.offer) then d.offerAmount else 0)
  }

  /**
   * No counterfeit is accepted, whatever anyone puts on the chain: the builder resolves an
   * output exactly when its beacons vouch for its datum, and the indexer caches it exactly
   * when it also backs the datum where it stands, with the datum's terms and what it holds
   * besides an offer of ADA as the deposit.
   */
  lemma {:induction false} NoCounterfeit(proto: Protocol, ref: OutRef, out: TxOut)
    requires DistinctUnits(out.amount)
    ensures ResolveOutput(proto, ref, out).Ok? <==> exists d :: Vouches(proto, out, d)
    ensures ValidateAndMap(proto, ref, out).Some? <==> exists d :: Backs(proto, out, d)
    ensures forall d | Backs(proto, out, d) ::
      ValidateAndMap(proto, ref, out) == Some(Record(ref, out.address, d, Besides(out, d)))
  {
    if out.datum.Some? && DecodeOrderDatum(out.datum.value).Some? {
      var d := DecodeOrderDatum(out.datum.value).value;
      ResolvesWhatVouches(proto, ref, out, d);
      IndexesWhatBacks(proto, ref, out, d);
    }
  }

  /** What the builder's transactions place: order outputs, or outputs without beacons. */
  ghost predicate Clean(proto: Protocol, out: TxOut) {
    NoBeacons(proto, out.amount) || IsOrderOutput(proto, out)
  }

  /** On such outputs the indexer caches exactly what the builder can resolve. */
  lemma {:induction false} IndexerAgreesWithBuilder(proto: Protocol, ref: OutRef, out: TxOut)
    requires Clean(proto, out)
    ensures ValidateAndMap(proto, ref, out).Some? <==> ResolveOutput(proto, ref, out).Ok?
    ensures ValidateAndMap(proto, ref, out).Some? <==> IsOrderOutput(proto, out)
  {
    if IsOrderOutput(proto, out) {
      var d, deposit :| ExactOrder(proto, out, d, deposit);
      ExactOrderIsIndexed(proto, ref, out, d, deposit);
      ExactOrderResolves(proto, ref, out, d, deposit);
    } else {
      BeaconlessIsNoOrder(proto, ref, out);
    }
  }
}
