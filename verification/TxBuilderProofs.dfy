/**
 * Properties of the transactions the builder makes: what an order output holds,
 * that creation and continuation produce one, conservation of every asset across a
 * batch, the mint field, and the taker's net.
 */
module TxBuilderProofs {
  import opened Wrappers
  import opened ByteStrings
  import opened Sorting
  import opened Pricing
  import opened Beacons
  import opened Orders
  import opened OrderDatum
  import opened Ledger
  import opened TxBuilder

  // ------------------------------------------------- what an order holds

  /** Deposit, offer and one of each beacon, nothing else. */
  function Expected(proto: Protocol, d: Datum, deposit: int, u: Unit): int {
    (if u == Lovelace then deposit else 0)
    + (if u == UnitOf(d.offer) then d.offerAmount else 0)
    + (if IsBeaconUnit(proto, u) && u.name in NamesOf(d).Values() then 1 else 0)
  }

  ghost predicate HoldsExactly(proto: Protocol, amount: seq<Asset>, d: Datum, deposit: int) {
    && DistinctUnits(amount) && AllPositive(amount)
    && forall u :: Total(amount, u) == Expected(proto, d, deposit, u)
  }

  /** A datum of this protocol: distinct beacon names, and assets the API accepts, none of them beacons. */
  predicate ProtocolDatum(proto: Protocol, d: Datum) {
    && IsOrderDatum(d) && d.beaconPolicyId == proto.beaconPolicyId
    && Accepted(d.offer) && Accepted(d.ask)
    && d.offer.policyId != proto.beaconPolicyId && d.ask.policyId != proto.beaconPolicyId
    && d.ownerKeyHash != ORDER_BEACON_NAME_HEX
  }

  /** An order output: the order address, the exact value, the encoded datum. */
  ghost predicate ExactOrder(proto: Protocol, out: TxOut, d: Datum, deposit: int) {
    && ProtocolDatum(proto, d)
    && out.datum == Some(EncodeOrderDatum(d))
    && out.address == OrderAddress(proto, d.ownerKeyHash)
    && deposit > 0
    && HoldsExactly(proto, out.amount, d, deposit)
  }

  lemma {:induction false} NamesDistinct(proto: Protocol, d: Datum)
    requires ProtocolDatum(proto, d)
    ensures forall i, j | 0 <= i < j < 5 :: NamesOf(d).Values()[i] != NamesOf(d).Values()[j]
  {
    assert Lower(d).ownerKeyHash == d.ownerKeyHash;
    FiveNamesDistinct(d.offer, d.ask, d.ownerKeyHash);
    var v := NamesOf(d).Values();
    assert v == DeriveBeaconNames(d.offer, d.ask, d.ownerKeyHash).Values();
  }

  lemma {:induction false} QuantityOfExact(proto: Protocol, out: TxOut, d: Datum, deposit: int, u: Unit)
    requires ExactOrder(proto, out, d, deposit)
    ensures QuantityOf(out.amount, u) == Expected(proto, d, deposit, u)
  {
    QuantityIsTotal(out.amount, u);
  }

  /** The builder resolves an order output to its own datum and deposit. */
  lemma {:induction false} ExactOrderResolves(proto: Protocol, ref: OutRef, out: TxOut, d: Datum, deposit: int)
    requires ExactOrder(proto, out, d, deposit)
    ensures ResolveOutput(proto, ref, out) == Ok(Resolved(ref, out, d, deposit, None))
  {
    RoundTrip(d);
    QuantityOfExact(proto, out, d, deposit, Lovelace);
    var v := NamesOf(d).Values();
    forall i | 0 <= i < 5 ensures QuantityOf(out.amount, BeaconUnit(proto, v[i])) == 1 {
      assert v[i] in v;
      QuantityOfExact(proto, out, d, deposit, BeaconUnit(proto, v[i]));
    }
    assert HoldsBeacons(proto, out.amount, NamesOf(d));
  }

  // -------------------------------------------------------------- create

  /** Key hashes and policy ids as the wallet and the configuration supply them. */
  predicate IsKeyHash(s: string) {
    |s| == 56 && IsLowerHex(s)
  }

  predicate HashOk(c: Credential) {
    IsKeyHash(c.hash)
  }

  predicate AddressOk(a: Address) {
    HashOk(a.payment) && (a.stake.Some? ==> HashOk(a.stake.value))
  }

  predicate ConfigOk(proto: Protocol) {
    IsKeyHash(proto.beaconPolicyId) && proto.depositLovelace > 0
  }

  lemma {:induction false} BeaconTotals(proto: Protocol, d: Datum, u: Unit)
    requires ProtocolDatum(proto, d)
    ensures Total(BeaconAssets(proto, NamesOf(d)), u)
         == if IsBeaconUnit(proto, u) && u.name in NamesOf(d).Values() then 1 else 0
    ensures DistinctUnits(BeaconAssets(proto, NamesOf(d)))
  {
    NamesDistinct(proto, d);
    var names := NamesOf(d);
    var s := BeaconAssets(proto, names);
    assert forall i | 0 <= i < 5 :: s[i] == Asset(BeaconUnit(proto, names.Values()[i]), 1);
    if exists i :: 0 <= i < 5 && s[i].unit == u {
      var i :| 0 <= i < 5 && s[i].unit == u;
      TotalOfEntry(s, i);
      assert names.Values()[i] == u.name;
    } else {
      TotalOfAbsent(s, u);
      assert forall i | 0 <= i < 5 :: names.Values()[i] == s[i].unit.name;
    }
  }

  lemma {:induction false} CreateTotals(proto: Protocol, d: Datum, u: Unit)
    requires ProtocolDatum(proto, d)
    ensures Total(CreateOutput(proto, d).amount, u) == Expected(proto, d, proto.depositLovelace, u)
  {
    var head := [Asset(Lovelace, if IsAda(d.offer) then d.offerAmount + proto.depositLovelace else proto.depositLovelace)];
    var offer := if IsAda(d.offer) then [] else [Asset(UnitOf(d.offer), d.offerAmount)];
    BeaconTotals(proto, d, u);
    assert HeadAssets(proto, d) == head + offer;
    TotalAppend(HeadAssets(proto, d), BeaconAssets(proto, NamesOf(d)), u);
    TotalAppend(head, offer, u);
    assert head[1..] == [] && (offer != [] ==> offer[1..] == []);
  }

  lemma {:induction false} DistinctJoin(proto: Protocol, a: seq<Asset>, b: seq<Asset>)
    requires DistinctUnits(a) && DistinctUnits(b) && NoBeacons(proto, a)
    requires forall i | 0 <= i < |b| :: IsBeaconUnit(proto, b[i].unit)
    ensures DistinctUnits(a + b)
  {
  }

  lemma {:induction false} CreateUnitsDistinct(proto: Protocol, d: Datum)
    requires ProtocolDatum(proto, d) && proto.depositLovelace > 0
    ensures DistinctUnits(CreateOutput(proto, d).amount) && AllPositive(CreateOutput(proto, d).amount)
  {
    BeaconTotals(proto, d, Lovelace);
    PlainHead(proto, d);
    DistinctJoin(proto, HeadAssets(proto, d), BeaconAssets(proto, NamesOf(d)));
  }

  lemma {:induction false} PlainHead(proto: Protocol, d: Datum)
    requires d.offerAmount > 0 && proto.depositLovelace > 0 && d.offer.policyId != proto.beaconPolicyId
    ensures CreateOutput(proto, d).amount == HeadAssets(proto, d) + BeaconAssets(proto, NamesOf(d))
    ensures DistinctUnits(HeadAssets(proto, d)) && AllPositive(HeadAssets(proto, d)) && NoBeacons(proto, HeadAssets(proto, d))
  {
  }

  lemma {:induction false} CreateHoldsExactly(proto: Protocol, d: Datum)
    requires ProtocolDatum(proto, d) && proto.depositLovelace > 0
    ensures HoldsExactly(proto, CreateOutput(proto, d).amount, d, proto.depositLovelace)
  {
    forall u ensures Total(CreateOutput(proto, d).amount, u) == Expected(proto, d, proto.depositLovelace, u) {
      CreateTotals(proto, d, u);
    }
    CreateUnitsDistinct(proto, d);
  }

  lemma {:induction false} LowerHexIsLower(s: string)
    requires IsLowerHex(s)
    ensures ToLower(s) == s
  {
  }

  /** What the asset id parser accepts is lower-case hex already. */
  lemma {:induction false} ParsedAssetIsLower(id: string)
    requires FromApiAssetId(id).Some?
    ensures LowerAsset(FromApiAssetId(id).value) == FromApiAssetId(id).value
  {
    LowerHexIsLower(FromApiAssetId(id).value.policyId);
    LowerHexIsLower(FromApiAssetId(id).value.assetName);
  }

  /** The datum names this address's payment key and its staking key, no staking key where the address has none. */
  predicate Names(d: Datum, payee: Address) {
    && payee.payment == KeyHash(d.paymentPubKeyHash)
    && (match payee.stake
        case Some(KeyHash(hash)) => d.paymentStakeKeyHash == Some(hash)
        case _ => d.paymentStakeKeyHash == None)
  }

  /** The address a creation asks to be paid at: the wallet's own unless it gives another. */
  ghost predicate AsksFor(p: CreateParams, payee: Address) {
    match p.paymentAddress
    case Some(address) => payee == address
    case None => payee == p.wallet.changeAddress
  }

  /** The order a creation asks for, to pay this address. */
  ghost predicate Fulfils(proto: Protocol, p: CreateParams, d: Datum, payee: Address) {
    && ProtocolDatum(proto, d) && AsksFor(p, payee) && Names(d, payee)
    && p.wallet.changeAddress.stake == Some(KeyHash(d.ownerKeyHash))
    && d.offerAmount == p.offerAmount && d.askAmount == p.askAmount
    && FromApiAssetId(p.offerAsset) == Some(d.offer) && FromApiAssetId(p.askAsset) == Some(d.ask)
    && d.expiration == p.expiration && d.allowPartialFill == p.allowPartialFill
  }

  /**
   * A creation that is not rejected mints five single beacons and places exactly one
   * output: an order for the requested amounts, owned by the wallet's staking key, that
   * pays the address asked for.
   */
  lemma {:induction false} CreateMakesAnOrder(proto: Protocol, p: CreateParams, now: int) returns (d: Datum, payee: Address)
    requires ConfigOk(proto) && AddressOk(p.wallet.changeAddress)
    requires p.paymentAddress.Some? ==> AddressOk(p.paymentAddress.value)
    requires BuildCreateOrder(proto, p, now).Ok?
    ensures var draft := BuildCreateOrder(proto, p, now).value;
      && draft.inputs == [] && |draft.outputs| == 1 && draft.mint == MintEntries(NamesOf(d).Values(), 1)
      && draft.invalidHereafter == None && draft.requiredSigner == None
      && ExactOrder(proto, draft.outputs[0], d, proto.depositLovelace)
    ensures Fulfils(proto, p, d, payee)
  {
    var draft := BuildCreateOrder(proto, p, now).value;
    var owner := p.wallet.changeAddress.stake.value.hash;
    payee := p.paymentAddress.GetOr(p.wallet.changeAddress);
    d := CreateDatum(proto, p, FromApiAssetId(p.offerAsset).value, FromApiAssetId(p.askAsset).value, owner, payee);
    CreateDatumIsProtocols(proto, p, d, owner, payee);
    CreateHoldsExactly(proto, d);
    assert draft.outputs[0] == CreateOutput(proto, d);
  }

  lemma {:induction false} CreateDatumIsProtocols(proto: Protocol, p: CreateParams, d: Datum, owner: string, pay: Address)
    requires ConfigOk(proto) && FromApiAssetId(p.offerAsset).Some? && FromApiAssetId(p.askAsset).Some?
    requires IsKeyHash(owner) && pay.payment.KeyHash? && AddressOk(pay)
    requires p.offerAmount > 0 && p.askAmount > 0
    requires FromApiAssetId(p.offerAsset).value.policyId != proto.beaconPolicyId
    requires FromApiAssetId(p.askAsset).value.policyId != proto.beaconPolicyId
    requires d == CreateDatum(proto, p, FromApiAssetId(p.offerAsset).value, FromApiAssetId(p.askAsset).value, owner, pay)
    ensures ProtocolDatum(proto, d)
  {
    ParsedAssetIsLower(p.offerAsset);
    ParsedAssetIsLower(p.askAsset);
    LowerHexIsLower(proto.beaconPolicyId);
    LowerHexIsLower(owner);
    LowerHexIsLower(pay.payment.hash);
    if d.paymentStakeKeyHash.Some? {
      LowerHexIsLower(d.paymentStakeKeyHash.value);
    }
    assert |owner| == 56 && |ORDER_BEACON_NAME_HEX| == 10;
  }

  /**
   * Creation compares ids, not assets. What it accepts is a self-trade exactly when both
   * ids are read as one spelling, and never when both are printed as this API prints them.
   */
  lemma {:induction false} SelfTradeIsOneSpelling(proto: Protocol, p: CreateParams, now: int)
    requires BuildCreateOrder(proto, p, now).Ok?
    ensures FromApiAssetId(p.offerAsset) == FromApiAssetId(p.askAsset) <==> Spelling(p.offerAsset) == Spelling(p.askAsset)
    ensures ToApiAssetId(FromApiAssetId(p.offerAsset).value) == p.offerAsset
         && ToApiAssetId(FromApiAssetId(p.askAsset).value) == p.askAsset
        ==> FromApiAssetId(p.offerAsset) != FromApiAssetId(p.askAsset)
  {
    SameAssetSameSpelling(p.offerAsset, p.askAsset);
  }

  /** No creation the service's route passes on is a self-trade: there the guard is exact. */
  lemma {:induction false} RoutedCreationIsNoSelfTrade(proto: Protocol, p: CreateParams, now: int)
    requires RouteAssetId(p.offerAsset) && RouteAssetId(p.askAsset)
    ensures FromApiAssetId(p.offerAsset).Some? && FromApiAssetId(p.askAsset).Some?
    ensures p.offerAsset == p.askAsset <==> FromApiAssetId(p.offerAsset) == FromApiAssetId(p.askAsset)
    ensures BuildCreateOrder(proto, p, now).Ok? ==> FromApiAssetId(p.offerAsset) != FromApiAssetId(p.askAsset)
  {
    RouteIdsPrintBack(p.offerAsset);
    RouteIdsPrintBack(p.askAsset);
  }

  /** To a direct caller: any request that is accepted is also accepted as a trade of one nameless token for itself. */
  lemma {:induction false} SelfTradeIsBuilt(proto: Protocol, p: CreateParams, now: int, policy: string)
    requires BuildCreateOrder(proto, p, now).Ok?
    requires |policy| == 56 && IsLowerHex(policy) && policy != proto.beaconPolicyId
    ensures FromApiAssetId(policy) == FromApiAssetId(policy + ".") == Some(AssetClass(policy, ""))
    ensures BuildCreateOrder(proto, p.(offerAsset := policy, askAsset := policy + "."), now).Ok?
  {
    TwoIdsOneAsset(policy);
  }

  // -------------------------------------------------------- continuation

  ghost predicate CutFits(amount: seq<Asset>, u: Unit, take: int) {
    forall i | 0 <= i < |amount| :: amount[i].unit == u ==> amount[i].quantity > take
  }

  lemma {:induction false} ReduceKeepsEntries(amount: seq<Asset>, u: Unit, take: int)
    requires AllPositive(amount) && CutFits(amount, u, take)
    ensures |Reduce(amount, u, take)| == |amount| && AllPositive(Reduce(amount, u, take))
    ensures forall i | 0 <= i < |amount| ::
      Reduce(amount, u, take)[i]
        == Asset(amount[i].unit, amount[i].quantity - (if amount[i].unit == u then take else 0))
  {
    if amount != [] {
      ReduceKeepsEntries(amount[..|amount| - 1], u, take);
    }
  }

  lemma {:induction false} TotalsByEntry(a: seq<Asset>, b: seq<Asset>, u: Unit, take: int, v: Unit)
    requires DistinctUnits(a) && DistinctUnits(b) && |a| == |b|
    requires forall i | 0 <= i < |a| ::
      b[i] == Asset(a[i].unit, a[i].quantity - (if a[i].unit == u then take else 0))
    requires exists i :: 0 <= i < |a| && a[i].unit == u
    ensures Total(b, v) == Total(a, v) - (if v == u then take else 0)
  {
    if exists i :: 0 <= i < |a| && a[i].unit == v {
      var i :| 0 <= i < |a| && a[i].unit == v;
      TotalOfEntry(a, i);
      TotalOfEntry(b, i);
    } else {
      TotalOfAbsent(a, v);
      TotalOfAbsent(b, v);
    }
  }

  lemma {:induction false} EntryOf(amount: seq<Asset>, u: Unit) returns (i: nat)
    requires DistinctUnits(amount) && Total(amount, u) > 0
    ensures i < |amount| && amount[i] == Asset(u, Total(amount, u))
  {
    if forall i | 0 <= i < |amount| :: amount[i].unit != u {
      TotalOfAbsent(amount, u);
    }
    i :| 0 <= i < |amount| && amount[i].unit == u;
    TotalOfEntry(amount, i);
  }

  /** The continuation's value is the order's value less exactly the taken offer. */
  lemma {:induction false} ReduceTakesExactly(amount: seq<Asset>, u: Unit, take: int)
    requires DistinctUnits(amount) && AllPositive(amount) && 0 < take < Total(amount, u)
    ensures DistinctUnits(Reduce(amount, u, take)) && AllPositive(Reduce(amount, u, take))
    ensures forall v :: Total(Reduce(amount, u, take), v) == Total(amount, v) - (if v == u then take else 0)
  {
    var k := EntryOf(amount, u);
    ReduceKeepsEntries(amount, u, take);
    forall v ensures Total(Reduce(amount, u, take), v) == Total(amount, v) - (if v == u then take else 0) {
      TotalsByEntry(amount, Reduce(amount, u, take), u, take, v);
    }
  }

  /** A leg on an order output whose cut, if any, passed the builder's guards. */
  ghost predicate GoodLeg(proto: Protocol, l: Leg) {
    && ExactOrder(proto, l.output, l.datum, l.deposit)
    && (l.cut.Some? ==>
          && l.datum.allowPartialFill
          && AcceptedTake(l.cut.value.takeAmount, l.datum.askAmount, l.datum.offerAmount)
          && l.cut.value.required == Owed(l.cut.value.takeAmount, l.datum.askAmount, l.datum.offerAmount))
  }

  ghost predicate GoodLegs(proto: Protocol, legs: seq<Leg>) {
    forall i | 0 <= i < |legs| :: GoodLeg(proto, legs[i])
  }

  lemma {:induction false} ContinuationTerms(proto: Protocol, l: Leg)
    requires GoodLeg(proto, l) && l.cut.Some?
    ensures ProtocolDatum(proto, ContinuationDatum(l.datum, l.cut.value))
    ensures NamesOf(ContinuationDatum(l.datum, l.cut.value)) == NamesOf(l.datum)
  {
    OwedBounds(l.cut.value.takeAmount, l.datum.askAmount, l.datum.offerAmount);
  }

  lemma {:induction false} OfferHeld(proto: Protocol, out: TxOut, d: Datum, deposit: int)
    requires ExactOrder(proto, out, d, deposit)
    ensures Total(out.amount, UnitOf(d.offer)) == d.offerAmount + (if IsAda(d.offer) then deposit else 0)
  {
    assert !IsBeaconUnit(proto, UnitOf(d.offer));
  }

  /**
   * Closure: the continuation is again an order output, with the same owner, assets,
   * beacons, payment address, expiry, partial-fill flag, address and deposit; only
   * the two amounts fall, by the take and by its ceiling price.
   */
  lemma {:induction false} ContinuationIsAnOrder(proto: Protocol, l: Leg)
    requires GoodLeg(proto, l) && l.cut.Some?
    ensures var d, cut := l.datum, l.cut.value;
      && ExactOrder(proto, Continuation(l), ContinuationDatum(d, cut), l.deposit)
      && ContinuationDatum(d, cut)
         == d.(offerAmount := d.offerAmount - cut.takeAmount,
               askAmount := d.askAmount - Owed(cut.takeAmount, d.askAmount, d.offerAmount))
      && NamesOf(ContinuationDatum(d, cut)) == NamesOf(d)
      && Continuation(l).address == l.output.address
  {
    var d, cut := l.datum, l.cut.value;
    var d' := ContinuationDatum(d, cut);
    ContinuationTerms(proto, l);
    OfferHeld(proto, l.output, d, l.deposit);
    ReduceTakesExactly(l.output.amount, UnitOf(d.offer), cut.takeAmount);
    forall u ensures Total(Continuation(l).amount, u) == Expected(proto, d', l.deposit, u) {
      assert Total(l.output.amount, u) == Expected(proto, d, l.deposit, u);
    }
  }

  // ------------------------------------------------------- conservation

  function TotalIn(legs: seq<Leg>, u: Unit): int {
    if legs == [] then 0
    else TotalIn(legs[..|legs| - 1], u) + Total(legs[|legs| - 1].output.amount, u)
  }

  function MintTotal(mint: seq<MintEntry>, name: TokenName): int {
    if mint == [] then 0
    else (if mint[0].name == name then mint[0].quantity else 0) + MintTotal(mint[1..], name)
  }

  /** The minted quantity of a unit: only beacons are ever minted or burned. */
  function Minted(proto: Protocol, mint: seq<MintEntry>, u: Unit): int {
    if IsBeaconUnit(proto, u) then MintTotal(mint, u.name) else 0
  }

  function FullLegsCarrying(legs: seq<Leg>, name: TokenName): nat {
    if legs == [] then 0
    else
      var l := legs[|legs| - 1];
      FullLegsCarrying(legs[..|legs| - 1], name)
      + (if l.cut.None? && name in NamesOf(l.datum).Values() then 1 else 0)
  }

  lemma {:induction false} MintTotalAbsent(mint: seq<MintEntry>, name: TokenName)
    requires forall i | 0 <= i < |mint| :: mint[i].name != name
    ensures MintTotal(mint, name) == 0
  {
    if mint != [] {
      MintTotalAbsent(mint[1..], name);
    }
  }

  lemma {:induction false} MintTotalOfEntry(mint: seq<MintEntry>, i: nat)
    requires i < |mint| && forall j, k | 0 <= j < k < |mint| :: mint[j].name != mint[k].name
    ensures MintTotal(mint, mint[i].name) == mint[i].quantity
  {
    if i == 0 {
      MintTotalAbsent(mint[1..], mint[0].name);
    } else {
      MintTotalOfEntry(mint[1..], i - 1);
    }
  }

  /** One entry per name used, none for others, each for sign times its uses. */
  lemma {:induction false} MintEntriesAggregate(names: seq<TokenName>, sign: int, name: TokenName)
    ensures var m := MintEntries(names, sign);
      && (forall j, k | 0 <= j < k < |m| :: m[j].name != m[k].name)
      && (forall j | 0 <= j < |m| :: m[j].name in names && m[j].quantity == sign * CountOf(names, m[j].name))
      && MintTotal(m, name) == sign * CountOf(names, name)
  {
    var m, uses := MintEntries(names, sign), FirstUses(names);
    forall j | 0 <= j < |m| ensures m[j].name in names && m[j].quantity == sign * CountOf(names, m[j].name) {
      assert m[j].name == uses[j] && uses[j] in uses;
    }
    if name in uses {
      var i :| 0 <= i < |uses| && uses[i] == name;
      MintTotalOfEntry(m, i);
    } else {
      MintTotalAbsent(m, name);
      assert CountOf(names, name) == 0;
      assert sign * 0 == 0;
    }
  }

  lemma {:induction false} GoodPrefix(proto: Protocol, legs: seq<Leg>)
    requires GoodLegs(proto, legs) && legs != []
    ensures GoodLegs(proto, legs[..|legs| - 1]) && GoodLeg(proto, legs[|legs| - 1])
  {
  }

  /** Each full leg burns each of its names once. */
  lemma {:induction false} BurnedCounts(proto: Protocol, legs: seq<Leg>, name: TokenName)
    requires GoodLegs(proto, legs)
    ensures CountOf(BatchOf(proto, legs).burned, name) == FullLegsCarrying(legs, name)
  {
    if legs != [] {
      GoodPrefix(proto, legs);
      var init, l := legs[..|legs| - 1], legs[|legs| - 1];
      BurnedCounts(proto, init, name);
      NamesDistinct(proto, l.datum);
      CountWithoutRepeats(NamesOf(l.datum).Values(), name);
    }
  }

  /** Each name of the batch's mint field is minted for minus its number of full legs. */
  lemma {:induction false} BatchMintTotal(proto: Protocol, legs: seq<Leg>, name: TokenName)
    requires GoodLegs(proto, legs)
    ensures MintTotal(TakeLegs(proto, legs).draft.mint, name) == 0 - FullLegsCarrying(legs, name)
  {
    MintEntriesAggregate(BatchOf(proto, legs).burned, -1, name);
    BurnedCounts(proto, legs, name);
  }

  /**
   * The mint field of a batch is a map: no name twice, and each entry present burns
   * as many as there are full legs carrying the name, at least one.
   */
  lemma {:induction false} BatchMintField(proto: Protocol, legs: seq<Leg>, j: nat)
    requires GoodLegs(proto, legs) && j < |TakeLegs(proto, legs).draft.mint|
    ensures forall k | 0 <= k < |TakeLegs(proto, legs).draft.mint| && k != j ::
      TakeLegs(proto, legs).draft.mint[k].name != TakeLegs(proto, legs).draft.mint[j].name
    ensures TakeLegs(proto, legs).draft.mint[j].quantity
         == 0 - FullLegsCarrying(legs, TakeLegs(proto, legs).draft.mint[j].name) < 0
  {
    var burned := BatchOf(proto, legs).burned;
    var m := MintEntries(burned, -1);
    MintEntriesAggregate(burned, -1, m[j].name);
    BurnedCounts(proto, legs, m[j].name);
    assert m[j].name in multiset(burned);
  }

  lemma {:induction false} AddNetEffect(proto: Protocol, net: map<Unit, int>, amount: seq<Asset>, sign: int, u: Unit)
    requires sign == 1 || sign == -1
    ensures NetOf(AddNet(proto, net, amount, sign), u)
         == NetOf(net, u) + (if IsBeaconUnit(proto, u) then 0 else sign * Total(amount, u))
  {
    if amount != [] {
      var init, a := amount[..|amount| - 1], amount[|amount| - 1];
      AddNetEffect(proto, net, init, sign, u);
      assert amount == init + [a];
      TotalAppend(init, [a], u);
      assert [a][1..] == [];
    }
  }

  lemma {:induction false} LegNetEffect(proto: Protocol, net: map<Unit, int>, l: Leg, u: Unit)
    ensures NetOf(LegNet(proto, net, l), u) == NetOf(net, u) +
      (if IsBeaconUnit(proto, u) then 0
       else Total(l.output.amount, u) - Total(PaymentAmount(l), u)
            - (if l.cut.None? then 0 else Total(Continuation(l).amount, u)))
  {
    AddNetEffect(proto, net, l.output.amount, 1, u);
    var n := AddNet(proto, net, l.output.amount, 1);
    AddNetEffect(proto, n, PaymentAmount(l), -1, u);
    if l.cut.Some? {
      AddNetEffect(proto, AddNet(proto, n, PaymentAmount(l), -1), Continuation(l).amount, -1, u);
    }
  }

  lemma {:induction false} TotalOfTwo(a: Asset, b: Asset, u: Unit)
    ensures Total([a], u) == if a.unit == u then a.quantity else 0
    ensures Total([a, b], u) == Total([a], u) + Total([b], u)
  {
    assert [a][1..] == [] && [a, b][1..] == [b];
  }

  /** Payments carry the ask and lovelace only. */
  lemma {:induction false} PaymentTotals(proto: Protocol, l: Leg, u: Unit)
    requires l.datum.ask.policyId != proto.beaconPolicyId
    ensures IsBeaconUnit(proto, u) ==> Total(PaymentAmount(l), u) == 0
    ensures Total(PaymentAmount(l), u) ==
      if l.cut.None?
      then (if u == Lovelace then l.deposit else 0) + (if u == UnitOf(l.datum.ask) then l.datum.askAmount else 0)
      else (if u == UnitOf(l.datum.ask) then l.cut.value.required else 0) + (if u == Lovelace then Gift(l) else 0)
  {
    var s := PaymentAmount(l);
    TotalOfTwo(s[0], s[|s| - 1], u);
    TotalOfTwo(s[|s| - 1], s[0], u);
    assert |s| == 1 ==> s == [s[0]];
    assert |s| == 2 ==> s == [s[0], s[1]];
    assert UnitOf(l.datum.ask) == Lovelace <==> IsAda(l.datum.ask);
  }

  /** Lovelace the taker adds to a partial payment beyond what is owed. */
  function Gift(l: Leg): int
    requires l.cut.Some?
  {
    if !IsAda(l.datum.ask) then PARTIAL_PAYMENT_LOVELACE
    else if l.cut.value.required < PARTIAL_PAYMENT_LOVELACE
    then PARTIAL_PAYMENT_LOVELACE - l.cut.value.required
    else 0
  }

  lemma {:induction false} LegOutputTotal(l: Leg, u: Unit)
    ensures TotalOut(LegOutputs(l), u)
         == Total(PaymentAmount(l), u) + (if l.cut.None? then 0 else Total(Continuation(l).amount, u))
  {
    var p := Payment(l);
    assert [p][1..] == [];
    if l.cut.Some? {
      var c := Continuation(l);
      assert [p, c][1..] == [c] && [c][1..] == [];
      assert TotalOut([c], u) == Total(c.amount, u);
    }
  }

  /** Beacon accounting of one leg: a full leg's go to the burn, a partial leg's to the continuation. */
  lemma {:induction false} LegBeacons(proto: Protocol, l: Leg, u: Unit)
    requires GoodLeg(proto, l) && IsBeaconUnit(proto, u)
    ensures Total(l.output.amount, u) == if u.name in NamesOf(l.datum).Values() then 1 else 0
    ensures TotalOut(LegOutputs(l), u)
         == if l.cut.Some? && u.name in NamesOf(l.datum).Values() then 1 else 0
  {
    LegOutputTotal(l, u);
    PaymentTotals(proto, l, u);
    assert Total(l.output.amount, u) == Expected(proto, l.datum, l.deposit, u);
    if l.cut.Some? {
      ContinuationIsAnOrder(proto, l);
      assert Total(Continuation(l).amount, u)
          == Expected(proto, ContinuationDatum(l.datum, l.cut.value), l.deposit, u);
    }
  }

  lemma {:induction false} BatchFlows(proto: Protocol, legs: seq<Leg>, u: Unit)
    requires GoodLegs(proto, legs)
    ensures var b := BatchOf(proto, legs);
      TotalIn(legs, u) - (if IsBeaconUnit(proto, u) then FullLegsCarrying(legs, u.name) else 0)
        == TotalOut(b.outputs, u) + NetOf(b.net, u)
  {
    if legs != [] {
      GoodPrefix(proto, legs);
      var init, l := legs[..|legs| - 1], legs[|legs| - 1];
      var b := BatchOf(proto, init);
      BatchFlows(proto, init, u);
      TotalOutAppend(b.outputs, LegOutputs(l), u);
      LegNetEffect(proto, b.net, l, u);
      if IsBeaconUnit(proto, u) {
        LegBeacons(proto, l, u);
      } else {
        LegOutputTotal(l, u);
      }
    }
  }

  /**
   * Conservation, asset by asset: what the consumed orders hold plus what is minted
   * equals what the outputs hold plus the taker's net.
   */
  lemma {:induction false} BatchConserves(proto: Protocol, legs: seq<Leg>, u: Unit)
    requires GoodLegs(proto, legs)
    ensures var t := TakeLegs(proto, legs);
      TotalIn(legs, u) + Minted(proto, t.draft.mint, u)
        == TotalOut(t.draft.outputs, u) + NetOf(t.summary.takerNet, u)
  {
    BatchFlows(proto, legs, u);
    if IsBeaconUnit(proto, u) {
      BatchMintTotal(proto, legs, u.name);
    }
  }

  // ------------------------------------------------------- the taker's net

  /** One leg seen by the taker: the offer gained, the ask paid, the min-ADA given. */
  function TakerGain(l: Leg, u: Unit): int {
    var d := l.datum;
    if l.cut.None? then
      (if u == UnitOf(d.offer) then d.offerAmount else 0) - (if u == UnitOf(d.ask) then d.askAmount else 0)
    else
      (if u == UnitOf(d.offer) then l.cut.value.takeAmount else 0)
      - (if u == UnitOf(d.ask) then l.cut.value.required else 0)
      - (if u == Lovelace then Gift(l) else 0)
  }

  function TakerGains(legs: seq<Leg>, u: Unit): int {
    if legs == [] then 0
    else TakerGains(legs[..|legs| - 1], u) + TakerGain(legs[|legs| - 1], u)
  }

  lemma {:induction false} LegGain(proto: Protocol, net: map<Unit, int>, l: Leg, u: Unit)
    requires GoodLeg(proto, l) && !IsBeaconUnit(proto, u)
    ensures NetOf(LegNet(proto, net, l), u) == NetOf(net, u) + TakerGain(l, u)
  {
    LegNetEffect(proto, net, l, u);
    PaymentTotals(proto, l, u);
    assert Total(l.output.amount, u) == Expected(proto, l.datum, l.deposit, u);
    if l.cut.Some? {
      ContinuationIsAnOrder(proto, l);
      assert Total(Continuation(l).amount, u)
          == Expected(proto, ContinuationDatum(l.datum, l.cut.value), l.deposit, u);
    }
  }

  /** takerNet is the sum of the legs' gains: every deposit cancels. */
  lemma {:induction false} TakerNetIsGains(proto: Protocol, legs: seq<Leg>, u: Unit)
    requires GoodLegs(proto, legs)
    ensures NetOf(BatchOf(proto, legs).net, u) == if IsBeaconUnit(proto, u) then 0 else TakerGains(legs, u)
  {
    if legs != [] {
      GoodPrefix(proto, legs);
      var init, l := legs[..|legs| - 1], legs[|legs| - 1];
      TakerNetIsGains(proto, init, u);
      LegNetEffect(proto, BatchOf(proto, init).net, l, u);
      if !IsBeaconUnit(proto, u) {
        LegGain(proto, BatchOf(proto, init).net, l, u);
      }
    }
  }

  // -------------------------------------- from an accepted request to good legs

  ghost predicate IsOrderOutput(proto: Protocol, out: TxOut) {
    exists d, deposit :: ExactOrder(proto, out, d, deposit)
  }

  /** Every unspent output is an order output or carries no beacon at all. */
  ghost predicate BeaconsOnlyInOrders(proto: Protocol, utxos: map<OutRef, TxOut>) {
    forall ref | ref in utxos :: NoBeacons(proto, utxos[ref].amount) || IsOrderOutput(proto, utxos[ref])
  }

  ghost predicate GoodResolved(proto: Protocol, utxos: map<OutRef, TxOut>, r: Resolved) {
    && r.ref in utxos && r.output == utxos[r.ref]
    && ExactOrder(proto, r.output, r.datum, r.deposit)
  }

  lemma {:induction false} ResolvedIsGood(proto: Protocol, utxos: map<OutRef, TxOut>, orderId: string)
    requires BeaconsOnlyInOrders(proto, utxos) && ResolveOrder(proto, utxos, orderId).Ok?
    ensures GoodResolved(proto, utxos, ResolveOrder(proto, utxos, orderId).value)
    ensures ParseOrderId(orderId) == Some(ResolveOrder(proto, utxos, orderId).value.ref)
  {
    var r := ResolveOrder(proto, utxos, orderId).value;
    if IsOrderOutput(proto, r.output) {
      var d, deposit :| ExactOrder(proto, r.output, d, deposit);
      ExactOrderResolves(proto, r.ref, r.output, d, deposit);
    } else {
      TotalOfAbsent(r.output.amount, BeaconUnit(proto, NamesOf(r.datum).Values()[0]));
    }
  }

  /** What resolving and pricing make of one requested leg. */
  ghost predicate Answers(proto: Protocol, utxos: map<OutRef, TxOut>, o: TakeLeg, r: Resolved) {
    && GoodResolved(proto, utxos, r)
    && ParseOrderId(o.orderId) == Some(r.ref)
    && r.takeAmount == o.takeAmount
  }

  predicate PricedFrom(r: Resolved, l: Leg) {
    && l.ref == r.ref && l.output == r.output && l.datum == r.datum && l.deposit == r.deposit
    && (if r.takeAmount.None? then l.cut.None? else l.cut.Some? && l.cut.value.takeAmount == r.takeAmount.value)
  }

  ghost predicate AllAnswered(proto: Protocol, utxos: map<OutRef, TxOut>, orders: seq<TakeLeg>, rs: seq<Resolved>) {
    |rs| == |orders| && forall i | 0 <= i < |orders| :: Answers(proto, utxos, orders[i], rs[i])
  }

  lemma {:induction false} AnsweredSnoc(proto: Protocol, utxos: map<OutRef, TxOut>, orders: seq<TakeLeg>,
                                        before: seq<Resolved>, one: Resolved)
    requires orders != [] && AllAnswered(proto, utxos, orders[..|orders| - 1], before)
    requires Answers(proto, utxos, orders[|orders| - 1], one)
    ensures AllAnswered(proto, utxos, orders, before + [one])
  {
  }

  lemma {:induction false} ResolveStep(proto: Protocol, utxos: map<OutRef, TxOut>, orders: seq<TakeLeg>)
    returns (before: seq<Resolved>, one: Resolved)
    requires orders != [] && BeaconsOnlyInOrders(proto, utxos) && ResolveAll(proto, utxos, orders).Ok?
    ensures ResolveAll(proto, utxos, orders[..|orders| - 1]) == Ok(before)
    ensures ResolveAll(proto, utxos, orders) == Ok(before + [one])
    ensures Answers(proto, utxos, orders[|orders| - 1], one)
  {
    var last := orders[|orders| - 1];
    before := ResolveAll(proto, utxos, orders[..|orders| - 1]).value;
    one := ResolveOrder(proto, utxos, last.orderId).value.(takeAmount := last.takeAmount);
    ResolvedIsGood(proto, utxos, last.orderId);
  }

  lemma {:induction false} ResolvedAreGood(proto: Protocol, utxos: map<OutRef, TxOut>, orders: seq<TakeLeg>, rs: seq<Resolved>)
    requires BeaconsOnlyInOrders(proto, utxos) && ResolveAll(proto, utxos, orders) == Ok(rs)
    ensures AllAnswered(proto, utxos, orders, rs)
  {
    if orders != [] {
      var before, one := ResolveStep(proto, utxos, orders);
      ResolvedAreGood(proto, utxos, orders[..|orders| - 1], before);
      AnsweredSnoc(proto, utxos, orders, before, one);
    }
  }

  /** Pricing keeps the legs in order and leaves only acceptable ceiling-priced cuts. */
  lemma {:induction false} PricedAreGood(proto: Protocol, utxos: map<OutRef, TxOut>, rs: seq<Resolved>)
    requires forall i | 0 <= i < |rs| :: GoodResolved(proto, utxos, rs[i])
    requires PriceAll(rs).Some?
    ensures |PriceAll(rs).value| == |rs| && GoodLegs(proto, PriceAll(rs).value)
    ensures forall i | 0 <= i < |rs| :: PricedFrom(rs[i], PriceAll(rs).value[i])
  {
    if rs != [] {
      var init, last := rs[..|rs| - 1], rs[|rs| - 1];
      PricedAreGood(proto, utxos, init);
      var before, one := PriceAll(init).value, PriceLeg(last).value;
      assert PriceAll(rs).value == before + [one];
      assert GoodLeg(proto, one) && PricedFrom(last, one);
      LastIsPriced(rs, before, one);
    }
  }

  lemma {:induction false} LastIsPriced(rs: seq<Resolved>, before: seq<Leg>, one: Leg)
    requires |rs| == |before| + 1 && PricedFrom(rs[|before|], one)
    requires forall i | 0 <= i < |before| :: PricedFrom(rs[..|rs| - 1][i], before[i])
    ensures forall i | 0 <= i < |rs| :: PricedFrom(rs[i], (before + [one])[i])
  {
    forall i | 0 <= i < |rs| ensures PricedFrom(rs[i], (before + [one])[i]) {
      if i < |before| {
        assert PricedFrom(rs[..|rs| - 1][i], before[i]);
      }
    }
  }
}
