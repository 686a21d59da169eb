/**
 * Beacon token names and the API's asset and pair identifiers. Policy ids, asset
 * names and key hashes are hex text, as in the source. SHA-256 is taken to be
 * injective with 32-byte digests: a digest is modelled by its preimage, so it
 * never equals another digest with a different preimage or a shorter literal name.
 */
module Beacons {
  import opened Wrappers
  import opened ByteStrings

  datatype AssetClass = AssetClass(policyId: string, assetName: string)

  const ADA := AssetClass("", "")

  const ORDER_BEACON_NAME_HEX := "6f72646572"

  datatype TokenName = Literal(hex: string) | Sha256(preimage: Bytes)

  datatype BeaconNames = BeaconNames(
    order: TokenName, pair: TokenName, offer: TokenName, ask: TokenName, owner: TokenName)
  {
    /** Object.values, in declaration order. */
    function Values(): (s: seq<TokenName>)
      ensures |s| == 5
    {
      [order, pair, offer, ask, owner]
    }
  }

  predicate IsAda(a: AssetClass) {
    a.policyId == "" && a.assetName == ""
  }

  /** What the ledger can hold: ADA, or a 28-byte policy and a whole-byte name. */
  predicate WellFormed(a: AssetClass) {
    IsAda(a) ||
    (|a.policyId| == 56 && IsLowerHex(a.policyId)
     && IsLowerHex(a.assetName) && |a.assetName| % 2 == 0)
  }

  /** What the API accepts: ADA, or a 28-byte policy and up to 64 hex digits of name, odd or even. */
  predicate Accepted(a: AssetClass) {
    IsAda(a) ||
    (|a.policyId| == 56 && IsLowerHex(a.policyId) && IsLowerHex(a.assetName) && |a.assetName| <= 64)
  }

  function IdBytes(a: AssetClass): Bytes {
    FromHex(a.policyId + a.assetName)
  }

  /** One length byte, truncated as Buffer.from([n]) truncates, then the bytes. */
  function LengthPrefixed(id: Bytes): Bytes {
    [(|id| % 256) as byte] + id
  }

  function PairPreimage(a: AssetClass, b: AssetClass): Bytes {
    var ia, ib := IdBytes(a), IdBytes(b);
    var lo := if !BytesLess(ib, ia) then ia else ib;
    var hi := if !BytesLess(ib, ia) then ib else ia;
    [0] + LengthPrefixed(lo) + LengthPrefixed(hi)
  }

  function PairBeaconName(a: AssetClass, b: AssetClass): TokenName {
    Sha256(PairPreimage(a, b))
  }

  function OfferBeaconName(offer: AssetClass): TokenName {
    Sha256([1] + IdBytes(offer))
  }

  function AskBeaconName(ask: AssetClass): TokenName {
    Sha256([2] + IdBytes(ask))
  }

  function OwnerBeaconName(ownerKeyHash: string): TokenName {
    Literal(ToLower(ownerKeyHash))
  }

  function DeriveBeaconNames(offer: AssetClass, ask: AssetClass, ownerKeyHash: string): BeaconNames {
    BeaconNames(Literal(ORDER_BEACON_NAME_HEX), PairBeaconName(offer, ask),
      OfferBeaconName(offer), AskBeaconName(ask), OwnerBeaconName(ownerKeyHash))
  }

  function ToApiAssetId(a: AssetClass): string {
    if IsAda(a) then "lovelace" else a.policyId + "." + a.assetName
  }

  /** Index of the first c at or after i, or the length. */
  function IndexOf(s: string, c: char, i: nat): (k: nat)
    requires i <= |s|
    ensures i <= k <= |s| && (k < |s| ==> s[k] == c)
    ensures forall j | i <= j < k :: s[j] != c
    decreases |s| - i
  {
    if i == |s| || s[i] == c then i else IndexOf(s, c, i + 1)
  }

  /** Parts after the second dot are dropped, a missing name is "". */
  function FromApiAssetId(id: string): Option<AssetClass> {
    if id == "lovelace" then Some(ADA) else
    var dot := IndexOf(id, '.', 0);
    var policyId := id[..dot];
    var assetName := if dot == |id| then "" else id[dot + 1..IndexOf(id, '.', dot + 1)];
    if |policyId| != 56 || !IsLowerHex(policyId) then None
    else if !IsLowerHex(assetName) || |assetName| > 64 then None
    else Some(AssetClass(policyId, assetName))
  }

  function ToPairId(a: AssetClass, b: AssetClass): string {
    var x, y := ToApiAssetId(a), ToApiAssetId(b);
    if StrLess(y, x) then y + "_" + x else x + "_" + y
  }

  predicate SamePair(a: AssetClass, b: AssetClass, c: AssetClass, d: AssetClass) {
    (a == c && b == d) || (a == d && b == c)
  }

  // ------------------------------------------------------------- proofs

  lemma {:induction false} IdBytesInjective(a: AssetClass, b: AssetClass)
    requires WellFormed(a) && WellFormed(b)
    ensures IdBytes(a) == IdBytes(b) <==> a == b
  {
    var x, y := a.policyId + a.assetName, b.policyId + b.assetName;
    FromHexInjective(x, y);
    if x == y && !IsAda(a) {
      assert a.policyId == x[..56] && a.assetName == x[56..];
      assert b.policyId == y[..56] && b.assetName == y[56..];
    }
  }

  lemma {:induction false} LengthPrefixedSplits(lo: Bytes, hi: Bytes, lo': Bytes, hi': Bytes)
    requires |lo| < 256 && |hi| < 256 && |lo'| < 256 && |hi'| < 256
    requires [0] + LengthPrefixed(lo) + LengthPrefixed(hi) == [0] + LengthPrefixed(lo') + LengthPrefixed(hi')
    ensures lo == lo' && hi == hi'
  {
    var p, p' := [0] + LengthPrefixed(lo) + LengthPrefixed(hi), [0] + LengthPrefixed(lo') + LengthPrefixed(hi');
    assert p[1] as int == |lo| && p'[1] as int == |lo'|;
    assert p[2..2 + |lo|] == lo && p'[2..2 + |lo'|] == lo';
    assert p[3 + |lo|..] == hi && p'[3 + |lo'|..] == hi';
  }

  /**
   * Pair beacons coincide exactly when the unordered asset pairs do, for asset
   * ids of at most 255 bytes.
   */
  lemma {:induction false} PairBeaconIdentifiesPair(a: AssetClass, b: AssetClass, c: AssetClass, d: AssetClass)
    requires WellFormed(a) && WellFormed(b) && WellFormed(c) && WellFormed(d)
    requires |IdBytes(a)| < 256 && |IdBytes(b)| < 256 && |IdBytes(c)| < 256 && |IdBytes(d)| < 256
    ensures PairBeaconName(a, b) == PairBeaconName(c, d) <==> SamePair(a, b, c, d)
  {
    LexTrichotomy(ByteRank, IdBytes(a), IdBytes(b));
    LexTrichotomy(ByteRank, IdBytes(c), IdBytes(d));
    IdBytesInjective(a, c);
    IdBytesInjective(b, d);
    IdBytesInjective(a, d);
    IdBytesInjective(b, c);
    if PairBeaconName(a, b) == PairBeaconName(c, d) {
      var lo, hi := if !BytesLess(IdBytes(b), IdBytes(a)) then IdBytes(a) else IdBytes(b),
                    if !BytesLess(IdBytes(b), IdBytes(a)) then IdBytes(b) else IdBytes(a);
      var lo', hi' := if !BytesLess(IdBytes(d), IdBytes(c)) then IdBytes(c) else IdBytes(d),
                      if !BytesLess(IdBytes(d), IdBytes(c)) then IdBytes(d) else IdBytes(c);
      LengthPrefixedSplits(lo, hi, lo', hi');
    }
  }

  /**
   * The five names are distinct unless the owner's "key hash" spells "order";
   * together they identify the offer, the ask and the owner.
   */
  lemma {:induction false} FiveNamesDistinct(offer: AssetClass, ask: AssetClass, owner: string)
    ensures var v := DeriveBeaconNames(offer, ask, owner).Values();
      (forall i, j | 0 <= i < j < 5 :: v[i] != v[j]) <==> ToLower(owner) != ORDER_BEACON_NAME_HEX
  {
    var n := DeriveBeaconNames(offer, ask, owner);
    var v := n.Values();
    assert n.pair.preimage[0] == 0 && n.offer.preimage[0] == 1 && n.ask.preimage[0] == 2;
    assert v[0] == n.order && v[4] == n.owner;
  }

  /** Pair, offer and ask preimages never collide, for any assets of any orders; nor does a digest with a literal name. */
  lemma {:induction false} NameKindsNeverCollide(a: AssetClass, b: AssetClass, o: AssetClass, k: AssetClass, owner: string)
    ensures PairPreimage(a, b) != [1] + IdBytes(o) && PairPreimage(a, b) != [2] + IdBytes(k)
    ensures [1] + IdBytes(o) != [2] + IdBytes(k)
    ensures PairBeaconName(a, b) != Literal(ORDER_BEACON_NAME_HEX) && PairBeaconName(a, b) != OwnerBeaconName(owner)
    ensures OfferBeaconName(o) != Literal(ORDER_BEACON_NAME_HEX) && OfferBeaconName(o) != OwnerBeaconName(owner)
    ensures AskBeaconName(k) != Literal(ORDER_BEACON_NAME_HEX) && AskBeaconName(k) != OwnerBeaconName(owner)
  {
    assert PairPreimage(a, b)[0] == 0 && ([1] + IdBytes(o))[0] == 1 && ([2] + IdBytes(k))[0] == 2;
  }

  /** Each name alone tells what it stands for: the pair, the asset offered, the asset asked, the owner. */
  lemma {:induction false} EachNameIdentifies(o: AssetClass, a: AssetClass, k: string, o': AssetClass, a': AssetClass, k': string)
    requires WellFormed(o) && WellFormed(a) && WellFormed(o') && WellFormed(a')
    requires |IdBytes(o)| < 256 && |IdBytes(a)| < 256 && |IdBytes(o')| < 256 && |IdBytes(a')| < 256
    ensures var n, n' := DeriveBeaconNames(o, a, k), DeriveBeaconNames(o', a', k');
      && (n.pair == n'.pair <==> SamePair(o, a, o', a')) && (n.offer == n'.offer <==> o == o')
      && (n.ask == n'.ask <==> a == a') && (n.owner == n'.owner <==> ToLower(k) == ToLower(k'))
  {
    PairBeaconIdentifiesPair(o, a, o', a');
    IdBytesInjective(o, o');
    IdBytesInjective(a, a');
    assert IdBytes(o) == ([1] + IdBytes(o))[1..] && IdBytes(o') == ([1] + IdBytes(o'))[1..];
    assert IdBytes(a) == ([2] + IdBytes(a))[1..] && IdBytes(a') == ([2] + IdBytes(a'))[1..];
  }

  lemma {:induction false} NamesIdentifyOrderTerms(o: AssetClass, a: AssetClass, k: string, o': AssetClass, a': AssetClass, k': string)
    requires WellFormed(o) && WellFormed(a) && WellFormed(o') && WellFormed(a')
    ensures DeriveBeaconNames(o, a, k) == DeriveBeaconNames(o', a', k')
       <==> o == o' && a == a' && ToLower(k) == ToLower(k')
  {
    IdBytesInjective(o, o');
    IdBytesInjective(a, a');
    if DeriveBeaconNames(o, a, k) == DeriveBeaconNames(o', a', k') {
      assert IdBytes(o) == ([1] + IdBytes(o))[1..] == ([1] + IdBytes(o'))[1..] == IdBytes(o');
      assert IdBytes(a) == ([2] + IdBytes(a))[1..] == ([2] + IdBytes(a'))[1..] == IdBytes(a');
    }
  }

  predicate CleanId(s: string) {
    forall i | 0 <= i < |s| :: s[i] != '_'
  }

  lemma {:induction false} ApiIdShape(a: AssetClass)
    requires WellFormed(a) || Accepted(a)
    ensures CleanId(ToApiAssetId(a))
    ensures !IsAda(a) ==> ToApiAssetId(a)[..56] == a.policyId && ToApiAssetId(a)[57..] == a.assetName
    ensures !IsAda(a) ==> ToApiAssetId(a)[56] == '.'
  {
  }

  lemma {:induction false} ApiIdInjective(a: AssetClass, b: AssetClass)
    requires (WellFormed(a) || Accepted(a)) && (WellFormed(b) || Accepted(b))
    ensures ToApiAssetId(a) == ToApiAssetId(b) <==> a == b
  {
    ApiIdShape(a);
    ApiIdShape(b);
  }

  lemma {:induction false} IndexOfIs(s: string, c: char, i: nat, k: nat)
    requires i <= k <= |s| && (k < |s| ==> s[k] == c)
    requires forall j | i <= j < k :: s[j] != c
    ensures IndexOf(s, c, i) == k
  {
  }

  /** Reading an API id back: whatever was printed from an acceptable asset is accepted. */
  lemma {:induction false} ApiIdReadsBack(a: AssetClass)
    requires Accepted(a)
    ensures FromApiAssetId(ToApiAssetId(a)) == Some(a)
  {
    ApiIdShape(a);
    var id := ToApiAssetId(a);
    if !IsAda(a) {
      IndexOfIs(id, '.', 0, 56);
      IndexOfIs(id, '.', 57, |id|);
      assert id[57..|id|] == a.assetName;
    }
  }

  /** An accepted id is printed back unchanged exactly when it has one dot or is "lovelace". */
  lemma {:induction false} ApiIdPrintsBack(id: string)
    requires FromApiAssetId(id).Some?
    ensures ToApiAssetId(FromApiAssetId(id).value) == id
       <==> id == "lovelace" || (IndexOf(id, '.', 0) < |id| && IndexOf(id, '.', 57) == |id|)
  {
    if id != "lovelace" {
      var dot := IndexOf(id, '.', 0);
      assert dot == 56;
      if dot < |id| {
        assert id == id[..56] + "." + id[57..];
      }
    }
  }

  /** An id as far as it is read: a missing dot supplied, everything from a second dot dropped. */
  function Spelling(id: string): string {
    var dot := IndexOf(id, '.', 0);
    if dot == |id| then id + "." else id[..IndexOf(id, '.', dot + 1)]
  }

  lemma {:induction false} AcceptedParts(id: string)
    requires FromApiAssetId(id).Some? && id != "lovelace"
    ensures var a := FromApiAssetId(id).value;
      Accepted(a) && !IsAda(a) && Spelling(id) == a.policyId + "." + a.assetName
  {
    var dot := IndexOf(id, '.', 0);
    assert dot == 56;
    if dot < |id| {
      var end := IndexOf(id, '.', dot + 1);
      assert id[..end] == id[..dot] + "." + id[dot + 1..end];
    } else {
      assert id == id[..dot];
    }
  }

  lemma {:induction false} LovelaceSpelling()
    ensures |Spelling("lovelace")| <= 9
  {
    assert "lovelace"[..8] == "lovelace";
    IndexOfIs("lovelace", '.', 0, 8);
  }

  /** Two accepted ids denote one asset exactly when they are read as the same spelling. */
  lemma {:induction false} SameAssetSameSpelling(x: string, y: string)
    requires FromApiAssetId(x).Some? && FromApiAssetId(y).Some?
    ensures FromApiAssetId(x) == FromApiAssetId(y) <==> Spelling(x) == Spelling(y)
  {
    LovelaceSpelling();
    if x != "lovelace" { AcceptedParts(x); }
    if y != "lovelace" { AcceptedParts(y); }
    if x != "lovelace" && y != "lovelace" {
      var a, b := FromApiAssetId(x).value, FromApiAssetId(y).value;
      SpellingSplits(a, b);
    }
  }

  lemma {:induction false} SpellingSplits(a: AssetClass, b: AssetClass)
    requires |a.policyId| == 56 && |b.policyId| == 56
    ensures a.policyId + "." + a.assetName == b.policyId + "." + b.assetName <==> a == b
  {
    var x, y := a.policyId + "." + a.assetName, b.policyId + "." + b.assetName;
    assert x[..56] == a.policyId && x[57..] == a.assetName;
    assert y[..56] == b.policyId && y[57..] == b.assetName;
  }

  /** The asset ids the service's routes admit: ^(lovelace|[0-9a-f]{56}\.[0-9a-f]{0,64})$. */
  predicate RouteAssetId(id: string) {
    id == "lovelace" ||
    (57 <= |id| <= 121 && IsLowerHex(id[..56]) && id[56] == '.' && IsLowerHex(id[57..]))
  }

  /** Every such id is accepted and prints back unchanged. */
  lemma {:induction false} RouteIdsPrintBack(id: string)
    requires RouteAssetId(id)
    ensures FromApiAssetId(id).Some? && ToApiAssetId(FromApiAssetId(id).value) == id
  {
    if id != "lovelace" {
      RouteDots(id);
      assert id[57..|id|] == id[57..];
      assert id == id[..56] + "." + id[57..];
    }
  }

  lemma {:induction false} RouteDots(id: string)
    requires RouteAssetId(id) && id != "lovelace"
    ensures IndexOf(id, '.', 0) == 56 && IndexOf(id, '.', 57) == |id|
  {
    assert forall i | 0 <= i < 56 :: id[i] == id[..56][i];
    assert forall i | 57 <= i < |id| :: id[i] == id[57..][i - 57];
    IndexOfIs(id, '.', 0, 56);
    IndexOfIs(id, '.', 57, |id|);
  }

  /** A nameless token has two accepted ids, so comparing ids does not always compare assets. */
  lemma {:induction false} TwoIdsOneAsset(policy: string)
    requires |policy| == 56 && IsLowerHex(policy)
    ensures policy != policy + "."
    ensures FromApiAssetId(policy) == FromApiAssetId(policy + ".") == Some(AssetClass(policy, ""))
  {
    IndexOfIs(policy, '.', 0, 56);
    IndexOfIs(policy + ".", '.', 0, 56);
    IndexOfIs(policy + ".", '.', 57, 57);
    assert policy[..56] == policy && (policy + ".")[..56] == policy;
  }

  lemma {:induction false} JoinSplits(x: string, y: string, x': string, y': string)
    requires CleanId(x) && CleanId(x')
    requires x + "_" + y == x' + "_" + y'
    ensures x == x' && y == y'
  {
    var s, s' := x + "_" + y, x' + "_" + y';
    assert s[|x|] == '_' && s'[|x'|] == '_';
    assert |x| == |x'| by {
      assert forall i | 0 <= i < |x| :: s[i] == x[i];
      assert forall i | 0 <= i < |x'| :: s'[i] == x'[i];
    }
    assert x == s[..|x|] && x' == s'[..|x'|];
    assert y == s[|x| + 1..] && y' == s'[|x'| + 1..];
  }

  /** Pair ids coincide exactly when the unordered pairs do, for every accepted or ledger asset. */
  lemma {:induction false} PairIdIdentifiesPair(a: AssetClass, b: AssetClass, c: AssetClass, d: AssetClass)
    requires (WellFormed(a) || Accepted(a)) && (WellFormed(b) || Accepted(b))
    requires (WellFormed(c) || Accepted(c)) && (WellFormed(d) || Accepted(d))
    ensures ToPairId(a, b) == ToPairId(c, d) <==> SamePair(a, b, c, d)
  {
    var x, y, x', y' := ToApiAssetId(a), ToApiAssetId(b), ToApiAssetId(c), ToApiAssetId(d);
    ApiIdShape(a);
    ApiIdShape(b);
    ApiIdShape(c);
    ApiIdShape(d);
    ApiIdInjective(a, c);
    ApiIdInjective(b, d);
    ApiIdInjective(a, d);
    ApiIdInjective(b, c);
    StrLessIsStrictTotal(x, y, x);
    StrLessIsStrictTotal(x', y', x');
    if ToPairId(a, b) == ToPairId(c, d) {
      var lo, hi := if StrLess(y, x) then y else x, if StrLess(y, x) then x else y;
      var lo', hi' := if StrLess(y', x') then y' else x', if StrLess(y', x') then x' else y';
      JoinSplits(lo, hi, lo', hi');
    }
  }

  lemma {:induction false} FromHexDropsOddDigit(s: string, c: char)
    requires |s| % 2 == 0
    ensures FromHex(s + [c]) == FromHex(s)
  {
    if |s| >= 2 {
      assert (s + [c])[2..] == s[2..] + [c];
      FromHexDropsOddDigit(s[2..], c);
    }
  }

  /** The asset the beacons see: an odd last name digit is dropped when hex becomes bytes. */
  function Trim(a: AssetClass): AssetClass {
    if |a.assetName| % 2 == 0 then a else AssetClass(a.policyId, a.assetName[..|a.assetName| - 1])
  }

  lemma {:induction false} BeaconsSeeTrimmed(a: AssetClass)
    requires Accepted(a)
    ensures WellFormed(Trim(a)) && IdBytes(Trim(a)) == IdBytes(a) && |IdBytes(a)| < 256
  {
    var s := Trim(a).policyId + Trim(a).assetName;
    FromHexLength(s);
    if |a.assetName| % 2 == 1 {
      var last := a.assetName[|a.assetName| - 1];
      FromHexDropsOddDigit(s, last);
      assert a.policyId + a.assetName == s + [last];
    }
  }

  /** For every accepted asset: pair beacons coincide exactly when the trimmed unordered pairs do. */
  lemma {:induction false} PairBeaconOfAccepted(a: AssetClass, b: AssetClass, c: AssetClass, d: AssetClass)
    requires Accepted(a) && Accepted(b) && Accepted(c) && Accepted(d)
    ensures PairBeaconName(a, b) == PairBeaconName(c, d) <==> SamePair(Trim(a), Trim(b), Trim(c), Trim(d))
  {
    BeaconsSeeTrimmed(a);
    BeaconsSeeTrimmed(b);
    BeaconsSeeTrimmed(c);
    BeaconsSeeTrimmed(d);
    PairBeaconIdentifiesPair(Trim(a), Trim(b), Trim(c), Trim(d));
  }

  lemma {:induction false} TrimIsAccepted(a: AssetClass)
    requires Accepted(a)
    ensures Accepted(Trim(a)) && Trim(Trim(a)) == Trim(a)
    ensures Trim(a) == a <==> |a.assetName| % 2 == 0
  {
  }

  /** Changing one side of a pair changes the unordered pair. */
  lemma {:induction false} OneSideChanged(a: AssetClass, b: AssetClass, a': AssetClass)
    ensures SamePair(a, b, a', b) <==> a == a'
  {
  }

  /**
   * An id with an odd number of name digits is accepted by the API, and there pair
   * beacons and pair ids disagree, whatever the other asset: the beacon is that of the
   * trimmed asset, the pair id is not.
   */
  lemma {:induction false} OddNameBreaksAgreement(a: AssetClass, b: AssetClass)
    requires Accepted(a) && Accepted(b) && |a.assetName| % 2 == 1
    ensures FromApiAssetId(ToApiAssetId(a)) == Some(a)
    ensures Accepted(Trim(a)) && Trim(a) != a
    ensures PairBeaconName(a, b) == PairBeaconName(Trim(a), b)
    ensures ToPairId(a, b) != ToPairId(Trim(a), b)
  {
    ApiIdReadsBack(a);
    TrimIsAccepted(a);
    OneSideChanged(a, b, Trim(a));
    PairBeaconOfAccepted(a, b, Trim(a), b);
    PairIdIdentifiesPair(a, b, Trim(a), b);
  }

  /** The two identities of a pair agree exactly when trimming does not merge the pairs. */
  lemma {:induction false} PairIdentitiesAgree(a: AssetClass, b: AssetClass, c: AssetClass, d: AssetClass)
    requires Accepted(a) && Accepted(b) && Accepted(c) && Accepted(d)
    ensures (PairBeaconName(a, b) == PairBeaconName(c, d) <==> ToPairId(a, b) == ToPairId(c, d))
       <==> (SamePair(Trim(a), Trim(b), Trim(c), Trim(d)) ==> SamePair(a, b, c, d))
  {
    PairBeaconOfAccepted(a, b, c, d);
    PairIdIdentifiesPair(a, b, c, d);
  }
}
