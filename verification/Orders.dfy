/** Output references, order ids and the cached order record. */
module Orders {
  import opened Wrappers
  import opened ByteStrings
  import opened Decimals
  import opened Beacons

  datatype Credential = KeyHash(hash: string) | ScriptHash(hash: string)

  /** CIP-0089: an order sits at the validator's credential plus its owner's staking key. */
  datatype Address = Address(payment: Credential, stake: Option<Credential>)

  /** A transaction id in hex and an output index. */
  datatype OutRef = OutRef(txHash: string, index: nat)

  datatype OrderStatus = Open | Taken | PartiallyFilled | Cancelled | Unknown

  datatype Order = Order(
    ref: OutRef,
    status: OrderStatus,
    pairId: string,
    contractAddress: Address,
    ownerStakeCredential: string,
    paymentAddress: Address,
    offer: AssetClass,
    offeredAmount: int,
    ask: AssetClass,
    requestedAmount: int,
    depositLovelace: int,
    names: BeaconNames,
    expiration: Option<int>,
    version: int,
    allowPartialFill: bool,
    parent: Option<OutRef>,
    root: Option<OutRef>,
    createdAtSlot: Option<int>,
    spentTxHash: Option<string>)

  predicate IsOrderExpired(o: Order, nowPosixMs: int) {
    o.expiration.Some? && o.expiration.value <= nowPosixMs
  }

  /** The planners' asset ids look at the policy only. */
  function PlannerAssetId(a: AssetClass): string {
    if a.policyId == "" then "lovelace" else a.policyId + "." + a.assetName
  }

  function OfferedAssetId(o: Order): string {
    PlannerAssetId(o.offer)
  }

  function RequestedAssetId(o: Order): string {
    PlannerAssetId(o.ask)
  }

  /** No output is listed twice. */
  ghost predicate DistinctOrders(orders: seq<Order>) {
    forall i, j | 0 <= i < j < |orders| :: orders[i].ref != orders[j].ref
  }

  /** A book as the chain supplies it: distinct outputs with well-formed transaction ids. */
  ghost predicate DistinctBook(book: seq<Order>) {
    (forall i | 0 <= i < |book| :: IsTxHash(book[i].ref.txHash)) && DistinctOrders(book)
  }

  // ---------------------------------------------------------- order ids

  predicate IsTxHash(s: string) {
    |s| == 64 && IsLowerHex(s)
  }

  function OrderId(r: OutRef): string {
    r.txHash + "#" + PrintNat(r.index)
  }

  /** ^([0-9a-f]{64})#([0-9]+)$, with the index read as a number. */
  function ParseOrderId(id: string): Option<OutRef> {
    if |id| < 66 || !IsTxHash(id[..64]) || id[64] != '#' || !Digits(id[65..]) then None
    else Some(OutRef(id[..64], ReadNat(id[65..])))
  }

  predicate CanonicalOrderId(id: string) {
    |id| >= 66 && (|id| > 66 ==> id[65] != '0')
  }

  lemma {:induction false} ParsePrinted(r: OutRef)
    requires IsTxHash(r.txHash)
    ensures ParseOrderId(OrderId(r)) == Some(r) && CanonicalOrderId(OrderId(r))
  {
    var id := OrderId(r);
    PrintHasNoLeadingZero(r.index);
    assert id[..64] == r.txHash && id[65..] == PrintNat(r.index);
  }

  /** An accepted id is the printed form of its reference exactly when it has no leading zero. */
  lemma {:induction false} PrintParsed(id: string)
    requires ParseOrderId(id).Some?
    ensures OrderId(ParseOrderId(id).value) == id <==> CanonicalOrderId(id)
  {
    var digits := id[65..];
    PrintRead(digits);
    assert id == id[..64] + "#" + digits;
    PrintHasNoLeadingZero(ReadNat(digits));
    assert digits[0] == id[65];
    var other := OrderId(ParseOrderId(id).value);
    assert other[65..] == PrintNat(ReadNat(digits));
  }

  lemma {:induction false} OrderIdInjective(r: OutRef, s: OutRef)
    requires IsTxHash(r.txHash) && IsTxHash(s.txHash)
    ensures OrderId(r) == OrderId(s) <==> r == s
  {
    ParsePrinted(r);
    ParsePrinted(s);
  }

  /** An accepted id with the leading zeros of its index removed. */
  function Unpadded(id: string): string
    requires ParseOrderId(id).Some?
  {
    id[..65] + StripLeadingZeros(id[65..])
  }

  lemma {:induction false} UnpaddedIsPrinted(id: string)
    requires ParseOrderId(id).Some?
    ensures Unpadded(id) == OrderId(ParseOrderId(id).value)
  {
    PrintRead(id[65..]);
    assert id[..65] == id[..64] + "#";
  }

  /** The pattern also accepts leading zeros: two ids name one output exactly when they differ in nothing else. */
  lemma {:induction false} SameOutputSameId(a: string, b: string)
    requires ParseOrderId(a).Some? && ParseOrderId(b).Some?
    ensures ParseOrderId(a) == ParseOrderId(b) <==> Unpadded(a) == Unpadded(b)
  {
    UnpaddedIsPrinted(a);
    UnpaddedIsPrinted(b);
    OrderIdInjective(ParseOrderId(a).value, ParseOrderId(b).value);
  }

  /** An id with one more zero before its index. */
  function Padded(id: string): string {
    if |id| < 65 then id else id[..65] + "0" + id[65..]
  }

  lemma {:induction false} PaddedNamesTheSame(id: string)
    requires ParseOrderId(id).Some?
    ensures Padded(id) != id && ParseOrderId(Padded(id)) == ParseOrderId(id)
  {
    var other := Padded(id);
    assert other[..64] == id[..64] && other[64] == id[64] && other[65..] == "0" + id[65..];
    assert other[65..][1..] == id[65..];
    assert other[..65] == id[..65];
    SameOutputSameId(id, other);
  }
}
