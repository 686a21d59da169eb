/**
 * The order datum and its codec over Plutus Data trees. A throw is None. CBOR and
 * the conversion of integers to JavaScript numbers are not modelled.
 */
module OrderDatum {
  import opened Wrappers
  import opened ByteStrings
  import opened Beacons

  datatype Data =
    | Constr(alt: nat, fields: seq<Data>)
    | IntData(value: int)
    | BytesData(bytes: string)
    | ListData(items: seq<Data>)
    | MapData(entries: seq<(Data, Data)>)

  datatype Datum = Datum(
    version: int,
    beaconPolicyId: string,
    ownerKeyHash: string,
    paymentPubKeyHash: string,
    paymentStakeKeyHash: Option<string>,
    offer: AssetClass,
    offerAmount: int,
    ask: AssetClass,
    askAmount: int,
    expiration: Option<int>,
    allowPartialFill: bool)

  // ---------------------------------------------------------- encoding

  function CredentialKey(hash: string): Data {
    Constr(0, [BytesData(hash)])
  }

  function KeyAddress(pubKeyHash: string, stakeKeyHash: Option<string>): Data {
    var stake :=
      if stakeKeyHash.None? then Constr(1, [])
      else Constr(0, [Constr(0, [CredentialKey(stakeKeyHash.value)])]);
    Constr(0, [CredentialKey(pubKeyHash), stake])
  }

  function EncodeAssetClass(a: AssetClass): Data {
    Constr(0, [BytesData(a.policyId), BytesData(a.assetName)])
  }

  function EncodeExpiration(e: Option<int>): Data {
    if e.None? then Constr(1, []) else Constr(0, [IntData(e.value)])
  }

  function EncodeBool(b: bool): Data {
    if b then Constr(1, []) else Constr(0, [])
  }

  function EncodeOrderDatum(d: Datum): Data {
    Constr(0, [
      IntData(d.version),
      BytesData(d.beaconPolicyId),
      CredentialKey(d.ownerKeyHash),
      KeyAddress(d.paymentPubKeyHash, d.paymentStakeKeyHash),
      EncodeAssetClass(d.offer),
      IntData(d.offerAmount),
      EncodeAssetClass(d.ask),
      IntData(d.askAmount),
      EncodeExpiration(d.expiration),
      EncodeBool(d.allowPartialFill)])
  }

  /** The tag every seller payment carries: the order output it settles. */
  function EncodePaymentTag(orderTxHash: string, outputIndex: nat): Data {
    Constr(0, [Constr(0, [BytesData(orderTxHash), IntData(outputIndex)])])
  }

  // ---------------------------------------------------------- decoding

  function ConstrFields(node: Data, expected: nat): Option<seq<Data>> {
    if node.Constr? && node.alt == expected then Some(node.fields) else None
  }

  function ConstrAlt(node: Data): Option<nat> {
    if node.Constr? then Some(node.alt) else None
  }

  function AsInt(node: Data): Option<int> {
    if node.IntData? then Some(node.value) else None
  }

  function AsBytes(node: Data): Option<string> {
    if node.BytesData? then Some(ToLower(node.bytes)) else None
  }

  /** A missing field is undefined, which every reader of it rejects. */
  function Field(fields: seq<Data>, i: nat): Option<Data> {
    if i < |fields| then Some(fields[i]) else None
  }

  function DecodeAssetClass(node: Data): Option<AssetClass> {
    var fields :- ConstrFields(node, 0);
    var policy :- Field(fields, 0);
    var policyId :- AsBytes(policy);
    var name :- Field(fields, 1);
    var assetName :- AsBytes(name);
    Some(AssetClass(policyId, assetName))
  }

  function DecodeKey(node: Data): Option<string> {
    var fields :- ConstrFields(node, 0);
    var hash :- Field(fields, 0);
    AsBytes(hash)
  }

  function DecodeStake(node: Data): Option<Option<string>> {
    var alt :- ConstrAlt(node);
    if alt != 0 then Some(None) else
    var outer :- ConstrFields(node, 0);
    var inl :- Field(outer, 0);
    var inner :- ConstrFields(inl, 0);
    var cred :- Field(inner, 0);
    var hash :- DecodeKey(cred);
    Some(Some(hash))
  }

  function DecodeExpiration(node: Data): Option<Option<int>> {
    var alt :- ConstrAlt(node);
    if alt != 0 then Some(None) else
    var fields :- ConstrFields(node, 0);
    var e :- Field(fields, 0);
    var n :- AsInt(e);
    Some(Some(n))
  }

  function DecodeOrderDatum(root: Data): Option<Datum> {
    var f :- ConstrFields(root, 0);
    if |f| != 10 then None else
    var version :- AsInt(f[0]);
    var beaconPolicyId :- AsBytes(f[1]);
    var ownerKeyHash :- DecodeKey(f[2]);
    var address :- ConstrFields(f[3], 0);
    var payCred :- Field(address, 0);
    var stakeOpt :- Field(address, 1);
    var paymentPubKeyHash :- DecodeKey(payCred);
    var paymentStakeKeyHash :- DecodeStake(stakeOpt);
    var offer :- DecodeAssetClass(f[4]);
    var offerAmount :- AsInt(f[5]);
    var ask :- DecodeAssetClass(f[6]);
    var askAmount :- AsInt(f[7]);
    var expiration :- DecodeExpiration(f[8]);
    var flag :- ConstrAlt(f[9]);
    if version != 1 || offerAmount <= 0 || askAmount <= 0 then None
    else Some(Datum(version, beaconPolicyId, ownerKeyHash, paymentPubKeyHash, paymentStakeKeyHash,
      offer, offerAmount, ask, askAmount, expiration, flag == 1))
  }

  // ------------------------------------------------------------- proofs

  function LowerAsset(a: AssetClass): AssetClass {
    AssetClass(ToLower(a.policyId), ToLower(a.assetName))
  }

  /** The datum with every hex field in lower case. */
  function Lower(d: Datum): Datum {
    d.(beaconPolicyId := ToLower(d.beaconPolicyId),
       ownerKeyHash := ToLower(d.ownerKeyHash),
       paymentPubKeyHash := ToLower(d.paymentPubKeyHash),
       paymentStakeKeyHash :=
         if d.paymentStakeKeyHash.None? then None else Some(ToLower(d.paymentStakeKeyHash.value)),
       offer := LowerAsset(d.offer),
       ask := LowerAsset(d.ask))
  }

  /** A datum the decoder can return: version 1, positive amounts, lower-case hex. */
  predicate IsOrderDatum(d: Datum) {
    d.version == 1 && d.offerAmount > 0 && d.askAmount > 0 && Lower(d) == d
  }

  lemma {:induction false} DecodeKeyAddress(d: Datum)
    ensures var address := KeyAddress(d.paymentPubKeyHash, d.paymentStakeKeyHash);
      && DecodeKey(address.fields[0]) == Some(Lower(d).paymentPubKeyHash)
      && DecodeStake(address.fields[1]) == Some(Lower(d).paymentStakeKeyHash)
  {
  }

  lemma {:induction false} DecodeEncodedAsset(a: AssetClass)
    ensures DecodeAssetClass(EncodeAssetClass(a)) == Some(LowerAsset(a))
  {
  }

  /**
   * Decoding what was encoded: the datum itself in lower case, or a rejection
   * exactly when the version or an amount is out of range.
   */
  lemma {:induction false} DecodeEncoded(d: Datum)
    ensures DecodeOrderDatum(EncodeOrderDatum(d)) ==
      if d.version == 1 && d.offerAmount > 0 && d.askAmount > 0 then Some(Lower(d)) else None
  {
    var f := EncodeOrderDatum(d).fields;
    DecodeKeyAddress(d);
    DecodeEncodedAsset(d.offer);
    DecodeEncodedAsset(d.ask);
    assert DecodeKey(f[2]) == Some(ToLower(d.ownerKeyHash));
    assert DecodeExpiration(f[8]) == Some(d.expiration);
    assert ConstrAlt(f[9]) == Some(if d.allowPartialFill then 1 else 0);
  }

  /** The encoder and decoder are inverse on exactly the order data. */
  lemma {:induction false} RoundTrip(d: Datum)
    ensures DecodeOrderDatum(EncodeOrderDatum(d)) == Some(d) <==> IsOrderDatum(d)
  {
    DecodeEncoded(d);
  }

  lemma {:induction false} LowerIdempotent(s: string)
    ensures ToLower(ToLower(s)) == ToLower(s)
  {
  }

  lemma {:induction false} LowerAssetIdempotent(a: AssetClass)
    ensures LowerAsset(LowerAsset(a)) == LowerAsset(a)
  {
    LowerIdempotent(a.policyId);
    LowerIdempotent(a.assetName);
  }

  lemma {:induction false} DecodedAssetIsLower(node: Data)
    requires DecodeAssetClass(node).Some?
    ensures LowerAsset(DecodeAssetClass(node).value) == DecodeAssetClass(node).value
  {
    LowerAssetIdempotent(AssetClass(node.fields[0].bytes, node.fields[1].bytes));
  }

  lemma {:induction false} DecodedKeyIsLower(node: Data)
    requires DecodeKey(node).Some?
    ensures ToLower(DecodeKey(node).value) == DecodeKey(node).value
  {
    LowerIdempotent(node.fields[0].bytes);
  }

  /** Everything the decoder accepts is an order datum, so it survives re-encoding. */
  lemma {:induction false} DecodedIsOrderDatum(root: Data)
    requires DecodeOrderDatum(root).Some?
    ensures IsOrderDatum(DecodeOrderDatum(root).value)
    ensures var d := DecodeOrderDatum(root).value; DecodeOrderDatum(EncodeOrderDatum(d)) == Some(d)
  {
    var f := root.fields;
    var d := DecodeOrderDatum(root).value;
    LowerIdempotent(f[1].bytes);
    DecodedKeyIsLower(f[2]);
    DecodedKeyIsLower(f[3].fields[0]);
    DecodedAssetIsLower(f[4]);
    DecodedAssetIsLower(f[6]);
    if d.paymentStakeKeyHash.Some? {
      DecodedKeyIsLower(f[3].fields[1].fields[0].fields[0]);
    }
    RoundTrip(d);
  }

  // Which trees are re-encoded byte for byte: exact arities, only the two
  // alternatives the encoder uses, lower-case bytes.

  predicate CanonicalBytes(node: Data) {
    node.BytesData? && ToLower(node.bytes) == node.bytes
  }

  predicate CanonicalKey(node: Data) {
    node.Constr? && node.alt == 0 && |node.fields| == 1 && CanonicalBytes(node.fields[0])
  }

  predicate CanonicalAsset(node: Data) {
    && node.Constr? && node.alt == 0 && |node.fields| == 2
    && CanonicalBytes(node.fields[0]) && CanonicalBytes(node.fields[1])
  }

  predicate CanonicalNone(node: Data) {
    node == Constr(1, [])
  }

  predicate CanonicalStake(node: Data) {
    CanonicalNone(node) ||
    (node.Constr? && node.alt == 0 && |node.fields| == 1
     && node.fields[0].Constr? && node.fields[0].alt == 0 && |node.fields[0].fields| == 1
     && CanonicalKey(node.fields[0].fields[0]))
  }

  predicate CanonicalExpiration(node: Data) {
    CanonicalNone(node) || (node.Constr? && node.alt == 0 && |node.fields| == 1 && node.fields[0].IntData?)
  }

  predicate CanonicalTree(root: Data) {
    && root.Constr? && |root.fields| == 10
    && var f := root.fields;
    && CanonicalBytes(f[1]) && CanonicalKey(f[2])
    && f[3].Constr? && |f[3].fields| == 2 && CanonicalKey(f[3].fields[0]) && CanonicalStake(f[3].fields[1])
    && CanonicalAsset(f[4]) && CanonicalAsset(f[6])
    && CanonicalExpiration(f[8])
    && (f[9] == Constr(0, []) || f[9] == Constr(1, []))
  }

  lemma {:induction false} AssetTreeKept(node: Data)
    requires DecodeAssetClass(node).Some?
    ensures EncodeAssetClass(DecodeAssetClass(node).value) == node <==> CanonicalAsset(node)
  {
    if CanonicalAsset(node) {
      assert node.fields == [node.fields[0], node.fields[1]];
    }
  }

  lemma {:induction false} KeyTreeKept(node: Data)
    requires DecodeKey(node).Some?
    ensures CredentialKey(DecodeKey(node).value) == node <==> CanonicalKey(node)
  {
    if CanonicalKey(node) {
      assert node.fields == [node.fields[0]];
    }
  }

  lemma {:induction false} StakeTreeKept(node: Data)
    requires DecodeStake(node).Some?
    ensures KeyAddress("", DecodeStake(node).value).fields[1] == node <==> CanonicalStake(node)
  {
    var tree := KeyAddress("", DecodeStake(node).value).fields[1];
    if node.alt == 0 {
      var cred := node.fields[0].fields[0];
      KeyTreeKept(cred);
      if CanonicalStake(node) {
        assert node.fields == [node.fields[0]] && node.fields[0].fields == [cred];
      }
      if tree == node {
        assert tree.fields[0].fields[0] == CredentialKey(DecodeKey(cred).value);
      }
    }
  }

  lemma {:induction false} ExpirationTreeKept(node: Data)
    requires DecodeExpiration(node).Some?
    ensures EncodeExpiration(DecodeExpiration(node).value) == node <==> CanonicalExpiration(node)
  {
    if node.alt == 0 && CanonicalExpiration(node) {
      assert node.fields == [node.fields[0]];
    }
  }

  lemma {:induction false} AddressTreeKept(node: Data)
    requires node.Constr? && node.alt == 0 && |node.fields| >= 2
    requires DecodeKey(node.fields[0]).Some? && DecodeStake(node.fields[1]).Some?
    ensures KeyAddress(DecodeKey(node.fields[0]).value, DecodeStake(node.fields[1]).value) == node
       <==> |node.fields| == 2 && CanonicalKey(node.fields[0]) && CanonicalStake(node.fields[1])
  {
    var tree := KeyAddress(DecodeKey(node.fields[0]).value, DecodeStake(node.fields[1]).value);
    KeyTreeKept(node.fields[0]);
    StakeTreeKept(node.fields[1]);
    assert tree.fields[1] == KeyAddress("", DecodeStake(node.fields[1]).value).fields[1];
    if |node.fields| == 2 {
      assert node.fields == [node.fields[0], node.fields[1]];
    }
  }

  lemma {:induction false} SameTen(f: seq<Data>, g: seq<Data>)
    requires |f| == |g| == 10
    ensures g == f <==>
      && g[0] == f[0] && g[1] == f[1] && g[2] == f[2] && g[3] == f[3] && g[4] == f[4]
      && g[5] == f[5] && g[6] == f[6] && g[7] == f[7] && g[8] == f[8] && g[9] == f[9]
  {
  }

  /**
   * A decoded tree is re-encoded to the identical tree exactly when it was
   * canonical: the decoder ignores extra fields and other alternatives.
   */
  lemma {:induction false} ReencodeIsIdentity(root: Data)
    requires DecodeOrderDatum(root).Some?
    ensures EncodeOrderDatum(DecodeOrderDatum(root).value) == root <==> CanonicalTree(root)
  {
    var f := root.fields;
    var g := EncodeOrderDatum(DecodeOrderDatum(root).value).fields;
    SameTen(f, g);
    assert g[0] == f[0] && g[5] == f[5] && g[7] == f[7];
    assert g[1] == f[1] <==> CanonicalBytes(f[1]);
    KeyTreeKept(f[2]);
    AddressTreeKept(f[3]);
    AssetTreeKept(f[4]);
    AssetTreeKept(f[6]);
    ExpirationTreeKept(f[8]);
  }
}
