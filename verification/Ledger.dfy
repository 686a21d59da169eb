/**
 * Ledger values and outputs. A native token's unit is its policy and name kept
 * apart; the lovelace unit has one spelling.
 */
module Ledger {
  import opened Wrappers
  import opened ByteStrings
  import opened Beacons
  import opened Orders
  import opened OrderDatum

  datatype Unit = Lovelace | Token(policyId: string, name: TokenName)

  datatype Asset = Asset(unit: Unit, quantity: int)

  datatype TxOut = TxOut(address: Address, amount: seq<Asset>, datum: Option<Data>)

  datatype Protocol = Protocol(
    beaconPolicyId: string,
    orderValidatorHash: string,
    depositLovelace: int,
    maxOrdersPerTx: nat)

  function UnitOf(a: AssetClass): Unit {
    if IsAda(a) then Lovelace else Token(a.policyId, Literal(a.assetName))
  }

  predicate IsBeaconUnit(proto: Protocol, u: Unit) {
    u.Token? && u.policyId == proto.beaconPolicyId
  }

  function BeaconUnit(proto: Protocol, name: TokenName): Unit {
    Token(proto.beaconPolicyId, name)
  }

  function OrderAddress(proto: Protocol, ownerKeyHash: string): Address {
    Address(ScriptHash(proto.orderValidatorHash), Some(KeyHash(ownerKeyHash)))
  }

  function NamesOf(d: Datum): BeaconNames {
    DeriveBeaconNames(d.offer, d.ask, d.ownerKeyHash)
  }

  function PaymentAddress(d: Datum): Address {
    Address(KeyHash(d.paymentPubKeyHash),
      if d.paymentStakeKeyHash.Some? then Some(KeyHash(d.paymentStakeKeyHash.value)) else None)
  }

  /** The quantity of the first entry for u, 0 if there is none. */
  function QuantityOf(amount: seq<Asset>, u: Unit): int {
    if amount == [] then 0
    else if amount[0].unit == u then amount[0].quantity
    else QuantityOf(amount[1..], u)
  }

  /** The value holds each of the five beacons exactly once, by its first entry. */
  predicate HoldsBeacons(proto: Protocol, amount: seq<Asset>, names: BeaconNames) {
    forall i | 0 <= i < 5 :: QuantityOf(amount, BeaconUnit(proto, names.Values()[i])) == 1
  }

  /** What a list of entries holds of u. */
  function Total(amount: seq<Asset>, u: Unit): int {
    if amount == [] then 0
    else (if amount[0].unit == u then amount[0].quantity else 0) + Total(amount[1..], u)
  }

  function TotalOut(outputs: seq<TxOut>, u: Unit): int {
    if outputs == [] then 0 else Total(outputs[0].amount, u) + TotalOut(outputs[1..], u)
  }

  ghost predicate DistinctUnits(amount: seq<Asset>) {
    forall i, j | 0 <= i < j < |amount| :: amount[i].unit != amount[j].unit
  }

  ghost predicate AllPositive(amount: seq<Asset>) {
    forall i | 0 <= i < |amount| :: amount[i].quantity > 0
  }

  lemma {:induction false} TotalAppend(a: seq<Asset>, b: seq<Asset>, u: Unit)
    ensures Total(a + b, u) == Total(a, u) + Total(b, u)
  {
    if a == [] {
      assert a + b == b;
    } else {
      assert (a + b)[1..] == a[1..] + b;
      TotalAppend(a[1..], b, u);
    }
  }

  lemma {:induction false} TotalOutAppend(a: seq<TxOut>, b: seq<TxOut>, u: Unit)
    ensures TotalOut(a + b, u) == TotalOut(a, u) + TotalOut(b, u)
  {
    if a == [] {
      assert a + b == b;
    } else {
      assert (a + b)[1..] == a[1..] + b;
      TotalOutAppend(a[1..], b, u);
    }
  }

  lemma {:induction false} TotalOfAbsent(amount: seq<Asset>, u: Unit)
    requires forall i | 0 <= i < |amount| :: amount[i].unit != u
    ensures Total(amount, u) == 0 && QuantityOf(amount, u) == 0
  {
    if amount != [] {
      TotalOfAbsent(amount[1..], u);
    }
  }

  lemma {:induction false} QuantityIsTotal(amount: seq<Asset>, u: Unit)
    requires DistinctUnits(amount)
    ensures QuantityOf(amount, u) == Total(amount, u)
  {
    if amount != [] {
      if amount[0].unit == u {
        TotalOfAbsent(amount[1..], u);
      } else {
        QuantityIsTotal(amount[1..], u);
      }
    }
  }

  lemma {:induction false} TotalOfEntry(amount: seq<Asset>, i: nat)
    requires DistinctUnits(amount) && i < |amount|
    ensures Total(amount, amount[i].unit) == amount[i].quantity
  {
    if i == 0 {
      TotalOfAbsent(amount[1..], amount[0].unit);
    } else {
      TotalOfEntry(amount[1..], i - 1);
    }
  }

  /** Some output entry under the beacon policy with the order beacon's name. */
  predicate HasOrderBeacon(proto: Protocol, out: TxOut) {
    exists i | 0 <= i < |out.amount| ::
      out.amount[i].unit == BeaconUnit(proto, Literal(ORDER_BEACON_NAME_HEX)) && out.amount[i].quantity > 0
  }

  ghost predicate NoBeacons(proto: Protocol, amount: seq<Asset>) {
    forall i | 0 <= i < |amount| :: !IsBeaconUnit(proto, amount[i].unit)
  }

  /** The ledger's input order, as the builder sorts it: hex transaction id, then index. */
  predicate RefLess(a: OutRef, b: OutRef) {
    if a.txHash != b.txHash then StrLess(a.txHash, b.txHash) else a.index < b.index
  }

  /** The ledger's own order: transaction id bytes, then index. */
  predicate LedgerLess(a: OutRef, b: OutRef) {
    if a.txHash != b.txHash then BytesLess(FromHex(a.txHash), FromHex(b.txHash)) else a.index < b.index
  }

  lemma {:induction false} BuilderSortsAsLedger(a: OutRef, b: OutRef)
    requires IsTxHash(a.txHash) && IsTxHash(b.txHash)
    ensures RefLess(a, b) <==> LedgerLess(a, b)
  {
    HexKeepsOrder(a.txHash, b.txHash);
  }

  lemma {:induction false} RefLessIsStrictTotal(a: OutRef, b: OutRef, c: OutRef)
    ensures !RefLess(a, a)
    ensures a != b ==> RefLess(a, b) || RefLess(b, a)
    ensures !(RefLess(a, b) && RefLess(b, a))
    ensures RefLess(a, b) && RefLess(b, c) ==> RefLess(a, c)
  {
    StrLessIsStrictTotal(a.txHash, b.txHash, c.txHash);
    StrLessIsStrictTotal(b.txHash, c.txHash, a.txHash);
    StrLessIsStrictTotal(a.txHash, a.txHash, a.txHash);
  }
}
