/**
 * The unsigned-transaction builder: create, cancel, and the batch take with full
 * and partial legs. The functions say what a transaction consists of; the methods
 * at the end are the source's loops over a mutable transaction body.
 * Coin selection, fees and signing are the wallet library's and not modelled.
 */
module TxBuilder {
  import opened Wrappers
  import opened Sorting
  import opened Sequences
  import opened Pricing
  import opened Beacons
  import opened Orders
  import opened OrderDatum
  import opened Ledger

  /** Thrown is an exception that is not a BuildError: a malformed asset id or datum. */
  datatype BuildError = InvalidRequest | OrderNotFound | OrderExpired | NotAnOrder | Thrown

  datatype OrderRedeemer = Cancel | Take | TakePartial(takeAmount: int) {
    /** The Plutus constructor index. */
    function Index(): nat {
      match this
      case Cancel => 0
      case Take => 1
      case TakePartial(_) => 2
    }
  }

  datatype ScriptInput = ScriptInput(ref: OutRef, redeemer: OrderRedeemer)

  datatype MintEntry = MintEntry(name: TokenName, quantity: int)

  /** A transaction body before coin selection. */
  datatype Draft = Draft(
    inputs: seq<ScriptInput>,
    outputs: seq<TxOut>,
    mint: seq<MintEntry>,
    invalidHereafter: Option<int>,
    requiredSigner: Option<string>)

  datatype Wallet = Wallet(changeAddress: Address, utxos: seq<OutRef>, collateral: Option<OutRef>)

  datatype CreateParams = CreateParams(
    wallet: Wallet,
    paymentAddress: Option<Address>,
    offerAsset: string,
    offerAmount: int,
    askAsset: string,
    askAmount: int,
    expiration: Option<int>,
    allowPartialFill: bool)

  datatype TakeLeg = TakeLeg(orderId: string, takeAmount: Option<int>)

  /** A requested leg with its order re-read from the chain. */
  datatype Resolved = Resolved(ref: OutRef, output: TxOut, datum: Datum, deposit: int, takeAmount: Option<int>)

  /** A partial leg's two amounts: taken of the offer, owed of the ask. */
  datatype Cut = Cut(takeAmount: int, required: int)

  /** A leg that passed its guards: full when there is no cut. */
  datatype Leg = Leg(ref: OutRef, output: TxOut, datum: Datum, deposit: int, cut: Option<Cut>)

  datatype PartialFill = PartialFill(
    ref: OutRef, takeAmount: int, paidAsk: int, remainingOffer: int, remainingAsk: int,
    continuationAddress: Address)

  datatype TakeSummary = TakeSummary(
    takerNet: map<Unit, int>,
    partialFills: seq<PartialFill>,
    burned: seq<TokenName>,
    totalDeposit: int,
    expiration: Option<int>)

  datatype TakeTx = TakeTx(draft: Draft, summary: TakeSummary)

  /** Lovelace the taker puts into a partial leg's payment output. */
  const PARTIAL_PAYMENT_LOVELACE := 1_400_000

  // ------------------------------------------------------------- shared

  /** The wallet checks of every build: UTxOs, collateral, and something besides it. */
  predicate WalletCanBuild(w: Wallet) {
    w.collateral.Some? && exists i | 0 <= i < |w.utxos| :: w.utxos[i] != w.collateral.value
  }

  function ResolveOutput(proto: Protocol, ref: OutRef, out: TxOut): Result<Resolved, BuildError> {
    if out.datum.None? then Err(NotAnOrder) else
    var decoded := DecodeOrderDatum(out.datum.value);
    if decoded.None? then Err(Thrown) else
    var d := decoded.value;
    if d.beaconPolicyId != proto.beaconPolicyId then Err(NotAnOrder)
    else if !HoldsBeacons(proto, out.amount, NamesOf(d)) then Err(NotAnOrder)
    else
      var lovelace := QuantityOf(out.amount, Lovelace);
      Ok(Resolved(ref, out, d, if IsAda(d.offer) then lovelace - d.offerAmount else lovelace, None))
  }

  /** utxos are the unspent outputs of the chain at build time. */
  function ResolveOrder(proto: Protocol, utxos: map<OutRef, TxOut>, orderId: string): Result<Resolved, BuildError> {
    var ref := ParseOrderId(orderId);
    if ref.None? then Err(InvalidRequest)
    else if ref.value !in utxos then Err(OrderNotFound)
    else ResolveOutput(proto, ref.value, utxos[ref.value])
  }

  function CountOf(names: seq<TokenName>, name: TokenName): nat {
    multiset(names)[name]
  }

  function FirstUses(names: seq<TokenName>): (r: seq<TokenName>)
    ensures forall n :: n in r <==> n in names
    ensures forall i, j | 0 <= i < j < |r| :: r[i] != r[j]
  {
    if names == [] then []
    else
      var last := names[|names| - 1];
      var r := FirstUses(names[..|names| - 1]);
      assert names == names[..|names| - 1] + [last];
      if last in r then r else r + [last]
  }

  /** One entry per name, in order of first use, for the number of times it is listed. */
  function MintEntries(names: seq<TokenName>, sign: int): seq<MintEntry> {
    var uses := FirstUses(names);
    seq(|uses|, i requires 0 <= i < |uses| => MintEntry(uses[i], sign * CountOf(names, uses[i])))
  }

  // ------------------------------------------------------------- create

  function BeaconAssets(proto: Protocol, names: BeaconNames): seq<Asset> {
    [Asset(BeaconUnit(proto, names.order), 1), Asset(BeaconUnit(proto, names.pair), 1),
     Asset(BeaconUnit(proto, names.offer), 1), Asset(BeaconUnit(proto, names.ask), 1),
     Asset(BeaconUnit(proto, names.owner), 1)]
  }

  function CreateDatum(proto: Protocol, p: CreateParams, offer: AssetClass, ask: AssetClass,
                       owner: string, pay: Address): Datum
    requires pay.payment.KeyHash?
  {
    Datum(1, proto.beaconPolicyId, owner, pay.payment.hash,
      if pay.stake.Some? && pay.stake.value.KeyHash? then Some(pay.stake.value.hash) else None,
      offer, p.offerAmount, ask, p.askAmount, p.expiration, p.allowPartialFill)
  }

  /** What a created order holds besides its beacons. */
  function HeadAssets(proto: Protocol, d: Datum): seq<Asset> {
    [Asset(Lovelace, if IsAda(d.offer) then d.offerAmount + proto.depositLovelace else proto.depositLovelace)]
    + (if IsAda(d.offer) then [] else [Asset(UnitOf(d.offer), d.offerAmount)])
  }

  function CreateOutput(proto: Protocol, d: Datum): TxOut {
    var names := DeriveBeaconNames(d.offer, d.ask, d.ownerKeyHash);
    var amount := HeadAssets(proto, d) + BeaconAssets(proto, names);
    TxOut(OrderAddress(proto, d.ownerKeyHash), amount, Some(EncodeOrderDatum(d)))
  }

  function BuildCreateOrder(proto: Protocol, p: CreateParams, now: int): Result<Draft, BuildError> {
    var offer, ask := FromApiAssetId(p.offerAsset), FromApiAssetId(p.askAsset);
    if offer.None? || ask.None? then Err(Thrown)
    else if p.offerAsset == p.askAsset then Err(InvalidRequest)
    else if p.offerAmount <= 0 || p.askAmount <= 0 then Err(InvalidRequest)
    else if offer.value.policyId == proto.beaconPolicyId || ask.value.policyId == proto.beaconPolicyId
    then Err(InvalidRequest)
    else if p.expiration.Some? && p.expiration.value <= now then Err(InvalidRequest)
    else
      var stake := p.wallet.changeAddress.stake;
      if stake.None? || !stake.value.KeyHash? then Err(InvalidRequest) else
      var pay := p.paymentAddress.GetOr(p.wallet.changeAddress);
      if !pay.payment.KeyHash? then Err(InvalidRequest)
      else if !WalletCanBuild(p.wallet) then Err(InvalidRequest)
      else
        var d := CreateDatum(proto, p, offer.value, ask.value, stake.value.hash, pay);
        var names := DeriveBeaconNames(d.offer, d.ask, d.ownerKeyHash);
        Ok(Draft([], [CreateOutput(proto, d)], MintEntries(names.Values(), 1), None, None))
  }

  // ------------------------------------------------------------- cancel

  function BuildCancelOrder(proto: Protocol, utxos: map<OutRef, TxOut>, wallet: Wallet, orderId: string)
    : Result<Draft, BuildError>
  {
    var leg :- ResolveOrder(proto, utxos, orderId);
    if !WalletCanBuild(wallet) then Err(InvalidRequest)
    else Ok(Draft([ScriptInput(leg.ref, Cancel)], [], MintEntries(NamesOf(leg.datum).Values(), -1), None,
      Some(leg.datum.ownerKeyHash)))
  }

  // --------------------------------------------------------------- take

  /** The guards of one leg: None where the source rejects it. */
  function PriceLeg(r: Resolved): Option<Leg> {
    if r.takeAmount.None? then Some(Leg(r.ref, r.output, r.datum, r.deposit, None)) else
    var d, take := r.datum, r.takeAmount.value;
    if !d.allowPartialFill || take <= 0 || take >= d.offerAmount then None else
    var required := RequiredPayment(take, d.askAmount, d.offerAmount);
    if required.None? || required.value >= d.askAmount then None
    else Some(Leg(r.ref, r.output, d, r.deposit, Some(Cut(take, required.value))))
  }

  function PriceAll(orders: seq<Resolved>): Option<seq<Leg>> {
    if orders == [] then Some([])
    else
      var before :- PriceAll(orders[..|orders| - 1]);
      var leg :- PriceLeg(orders[|orders| - 1]);
      Some(before + [leg])
  }

  function PaymentAmount(l: Leg): seq<Asset> {
    var askUnit := UnitOf(l.datum.ask);
    if l.cut.None? then
      if askUnit == Lovelace then [Asset(Lovelace, l.datum.askAmount + l.deposit)]
      else [Asset(Lovelace, l.deposit), Asset(askUnit, l.datum.askAmount)]
    else
      var required := l.cut.value.required;
      if askUnit == Lovelace
      then [Asset(Lovelace, if required > PARTIAL_PAYMENT_LOVELACE then required else PARTIAL_PAYMENT_LOVELACE)]
      else [Asset(Lovelace, PARTIAL_PAYMENT_LOVELACE), Asset(askUnit, required)]
  }

  function Payment(l: Leg): TxOut {
    TxOut(PaymentAddress(l.datum), PaymentAmount(l), Some(EncodePaymentTag(l.ref.txHash, l.ref.index)))
  }

  /** The order's value less the taken offer, entries that reach zero dropped. */
  function Reduce(amount: seq<Asset>, u: Unit, take: int): seq<Asset> {
    if amount == [] then []
    else
      var last := amount[|amount| - 1];
      var a := if last.unit == u then Asset(u, last.quantity - take) else last;
      Reduce(amount[..|amount| - 1], u, take) + (if a.quantity > 0 then [a] else [])
  }

  function ContinuationDatum(d: Datum, cut: Cut): Datum {
    d.(offerAmount := d.offerAmount - cut.takeAmount, askAmount := d.askAmount - cut.required)
  }

  function Continuation(l: Leg): TxOut
    requires l.cut.Some?
  {
    TxOut(l.output.address, Reduce(l.output.amount, UnitOf(l.datum.offer), l.cut.value.takeAmount),
      Some(EncodeOrderDatum(ContinuationDatum(l.datum, l.cut.value))))
  }

  function LegOutputs(l: Leg): seq<TxOut> {
    if l.cut.None? then [Payment(l)] else [Payment(l), Continuation(l)]
  }

  function LegInput(l: Leg): ScriptInput {
    ScriptInput(l.ref, if l.cut.None? then Take else TakePartial(l.cut.value.takeAmount))
  }

  function FillOf(l: Leg): PartialFill
    requires l.cut.Some?
  {
    var d := ContinuationDatum(l.datum, l.cut.value);
    PartialFill(l.ref, l.cut.value.takeAmount, l.cut.value.required, d.offerAmount, d.askAmount, l.output.address)
  }

  function NetOf(net: map<Unit, int>, u: Unit): int {
    if u in net then net[u] else 0
  }

  /** addNet: entries added with a sign, beacons skipped. */
  function AddNet(proto: Protocol, net: map<Unit, int>, amount: seq<Asset>, sign: int): map<Unit, int> {
    if amount == [] then net
    else
      var before := AddNet(proto, net, amount[..|amount| - 1], sign);
      var a := amount[|amount| - 1];
      if IsBeaconUnit(proto, a.unit) then before
      else before[a.unit := NetOf(before, a.unit) + sign * a.quantity]
  }

  /** One leg's effect on takerNet: its value in, then each of its outputs out. */
  function LegNet(proto: Protocol, net: map<Unit, int>, l: Leg): map<Unit, int> {
    var paid := AddNet(proto, AddNet(proto, net, l.output.amount, 1), PaymentAmount(l), -1);
    if l.cut.None? then paid else AddNet(proto, paid, Continuation(l).amount, -1)
  }

  /** What the batch loop accumulates, leg by leg. */
  datatype Batch = Batch(
    inputs: seq<ScriptInput>,
    outputs: seq<TxOut>,
    net: map<Unit, int>,
    fills: seq<PartialFill>,
    burned: seq<TokenName>)

  const EMPTY_BATCH := Batch([], [], map[], [], [])

  function AddLeg(proto: Protocol, b: Batch, l: Leg): Batch {
    Batch(
      b.inputs + [LegInput(l)],
      b.outputs + LegOutputs(l),
      LegNet(proto, b.net, l),
      b.fills + (if l.cut.Some? then [FillOf(l)] else []),
      b.burned + (if l.cut.None? then NamesOf(l.datum).Values() else []))
  }

  /** The deposits the full legs release. */
  function DepositTotal(legs: seq<Leg>): int {
    if legs == [] then 0
    else
      var l := legs[|legs| - 1];
      DepositTotal(legs[..|legs| - 1]) + (if l.cut.None? then l.deposit else 0)
  }

  /** Math.min over the expirations present: the batch's validity bound. */
  function EarliestExpiration(legs: seq<Leg>): Option<int> {
    if legs == [] then None
    else
      var before, e := EarliestExpiration(legs[..|legs| - 1]), legs[|legs| - 1].datum.expiration;
      if e.None? then before
      else if before.None? || e.value < before.value then e
      else before
  }

  function BatchOf(proto: Protocol, legs: seq<Leg>): Batch {
    if legs == [] then EMPTY_BATCH
    else AddLeg(proto, BatchOf(proto, legs[..|legs| - 1]), legs[|legs| - 1])
  }

  predicate Expired(l: Resolved, now: int) {
    l.datum.expiration.Some? && l.datum.expiration.value <= now
  }

  predicate LegBefore(a: Resolved, b: Resolved) {
    RefLess(a.ref, b.ref)
  }

  /** Resolve every leg in the order given; the first failure wins. */
  function ResolveAll(proto: Protocol, utxos: map<OutRef, TxOut>, orders: seq<TakeLeg>)
    : (r: Result<seq<Resolved>, BuildError>)
    ensures r.Ok? ==> |r.value| == |orders|
  {
    if orders == [] then Ok([])
    else
      var before :- ResolveAll(proto, utxos, orders[..|orders| - 1]);
      var last := orders[|orders| - 1];
      var leg :- ResolveOrder(proto, utxos, last.orderId);
      Ok(before + [leg.(takeAmount := last.takeAmount)])
  }

  function OrderIds(orders: seq<TakeLeg>): set<string> {
    set o | o in orders :: o.orderId
  }

  function FinishBatch(b: Batch, totalDeposit: int, earliest: Option<int>): TakeTx {
    TakeTx(
      Draft(b.inputs, b.outputs, if b.burned == [] then [] else MintEntries(b.burned, -1), earliest, None),
      TakeSummary(b.net, b.fills, b.burned, totalDeposit, earliest))
  }

  function TakeLegs(proto: Protocol, legs: seq<Leg>): TakeTx {
    FinishBatch(BatchOf(proto, legs), DepositTotal(legs), EarliestExpiration(legs))
  }

  predicate AnyExpired(orders: seq<Resolved>, now: int) {
    exists i | 0 <= i < |orders| :: Expired(orders[i], now)
  }

  function TakeSorted(proto: Protocol, wallet: Wallet, sorted: seq<Resolved>, now: int): Result<TakeTx, BuildError> {
    if AnyExpired(sorted, now) then Err(OrderExpired)
    else
      var legs := PriceAll(sorted);
      if legs.None? || !WalletCanBuild(wallet) then Err(InvalidRequest)
      else Ok(TakeLegs(proto, legs.value))
  }

  /** The batch take: every rejection in the order the source makes it, else the batch. */
  function TakeManyOrders(proto: Protocol, utxos: map<OutRef, TxOut>, wallet: Wallet,
                          orders: seq<TakeLeg>, now: int): Result<TakeTx, BuildError>
  {
    if orders == [] then Err(InvalidRequest)
    else if |OrderIds(orders)| != |orders| then Err(InvalidRequest)
    else if |orders| > proto.maxOrdersPerTx then Err(InvalidRequest)
    else
      var unsorted :- ResolveAll(proto, utxos, orders);
      TakeSorted(proto, wallet, Sort(LegBefore, unsorted), now)
  }

  // ------------------------------------------------- the source's loops

  /** The mutable transaction body the builder appends to. */
  class MeshTxBuilder {
    var inputs: seq<ScriptInput>
    var outputs: seq<TxOut>
    var mint: seq<MintEntry>
    var invalidHereafter: Option<int>

    constructor ()
      ensures inputs == [] && outputs == [] && mint == [] && invalidHereafter == None
    {
      inputs, outputs, mint, invalidHereafter := [], [], [], None;
    }

    method TxIn(ref: OutRef, redeemer: OrderRedeemer)
      modifies this`inputs
      ensures inputs == old(inputs) + [ScriptInput(ref, redeemer)]
    {
      inputs := inputs + [ScriptInput(ref, redeemer)];
    }

    method Send(address: Address, amount: seq<Asset>, datum: Data)
      modifies this`outputs
      ensures outputs == old(outputs) + [TxOut(address, amount, Some(datum))]
    {
      outputs := outputs + [TxOut(address, amount, Some(datum))];
    }

    method Mint(name: TokenName, quantity: int)
      modifies this`mint
      ensures mint == old(mint) + [MintEntry(name, quantity)]
    {
      mint := mint + [MintEntry(name, quantity)];
    }

    method InvalidHereafter(time: int)
      modifies this`invalidHereafter
      ensures invalidHereafter == Some(time)
    {
      invalidHereafter := Some(time);
    }
  }

  /** The counting map mintBeacons fills, one name at a time. */
  function Counts(names: seq<TokenName>): map<TokenName, nat> {
    if names == [] then map[]
    else
      var before, name := Counts(names[..|names| - 1]), names[|names| - 1];
      before[name := (if name in before then before[name] else 0) + 1]
  }

  lemma {:induction false} CountsCount(names: seq<TokenName>, n: TokenName)
    ensures n in Counts(names) <==> n in names
    ensures n in names ==> Counts(names)[n] == CountOf(names, n)
  {
    if names != [] {
      CountsCount(names[..|names| - 1], n);
      assert names == names[..|names| - 1] + [names[|names| - 1]];
    }
  }

  method CountNames(names: seq<TokenName>) returns (keys: seq<TokenName>, counts: map<TokenName, nat>)
    ensures keys == FirstUses(names) && counts == Counts(names)
  {
    counts, keys := map[], [];
    for i := 0 to |names|
      invariant keys == FirstUses(names[..i]) && counts == Counts(names[..i])
    {
      PrefixStep(names, i);
      var name := names[i];
      CountsCount(names[..i], name);
      if name !in counts {
        keys := keys + [name];
      }
      counts := counts[name := (if name in counts then counts[name] else 0) + 1];
    }
    assert names[..|names|] == names;
  }

  /** mintBeacons: count the names in a map, then one mint per map entry. */
  method MintBeacons(txb: MeshTxBuilder, names: seq<TokenName>, sign: int)
    modifies txb`mint
    ensures txb.mint == old(txb.mint) + MintEntries(names, sign)
  {
    var keys, counts := CountNames(names);
    ghost var entries := MintEntries(names, sign);
    for i := 0 to |keys|
      invariant txb.mint == old(txb.mint) + entries[..i]
    {
      CountsCount(names, keys[i]);
      txb.Mint(keys[i], sign * counts[keys[i]]);
      assert entries[..i + 1] == entries[..i] + [entries[i]];
    }
    assert entries[..|keys|] == entries;
  }

  method AddNetLoop(proto: Protocol, takerNet: map<Unit, int>, amount: seq<Asset>, sign: int)
    returns (net: map<Unit, int>)
    ensures net == AddNet(proto, takerNet, amount, sign)
  {
    net := takerNet;
    for i := 0 to |amount|
      invariant net == AddNet(proto, takerNet, amount[..i], sign)
    {
      PrefixStep(amount, i);
      var a := amount[i];
      if IsBeaconUnit(proto, a.unit) {
        continue;
      }
      net := net[a.unit := (if a.unit in net then net[a.unit] else 0) + sign * a.quantity];
    }
    assert amount[..|amount|] == amount;
  }

  method ReduceLoop(amount: seq<Asset>, offerUnit: Unit, takeAmount: int) returns (r: seq<Asset>)
    ensures r == Reduce(amount, offerUnit, takeAmount)
  {
    r := [];
    for i := 0 to |amount|
      invariant r == Reduce(amount[..i], offerUnit, takeAmount)
    {
      PrefixStep(amount, i);
      var a := amount[i];
      var reduced := if a.unit == offerUnit then Asset(a.unit, a.quantity - takeAmount) else a;
      if reduced.quantity > 0 {
        r := r + [reduced];
      }
    }
    assert amount[..|amount|] == amount;
  }

  method ResolveLegs(proto: Protocol, utxos: map<OutRef, TxOut>, orders: seq<TakeLeg>)
    returns (r: Result<seq<Resolved>, BuildError>)
    ensures r == ResolveAll(proto, utxos, orders)
  {
    var unsorted: seq<Resolved> := [];
    for i := 0 to |orders|
      invariant ResolveAll(proto, utxos, orders[..i]) == Ok(unsorted)
    {
      PrefixStep(orders, i);
      var resolved := ResolveOrder(proto, utxos, orders[i].orderId);
      if resolved.Err? {
        ResolveFailsOn(proto, utxos, orders, i + 1, resolved.error);
        return Err(resolved.error);
      }
      unsorted := unsorted + [resolved.value.(takeAmount := orders[i].takeAmount)];
    }
    assert orders[..|orders|] == orders;
    return Ok(unsorted);
  }

  lemma {:induction false} ResolveFailsOn(proto: Protocol, utxos: map<OutRef, TxOut>, orders: seq<TakeLeg>, i: nat, e: BuildError)
    requires i <= |orders| && ResolveAll(proto, utxos, orders[..i]) == Err(e)
    ensures ResolveAll(proto, utxos, orders) == Err(e)
    decreases |orders| - i
  {
    if i == |orders| {
      assert orders[..i] == orders;
    } else {
      PrefixStep(orders, i);
      ResolveFailsOn(proto, utxos, orders, i + 1, e);
    }
  }

  /** A full fill: exact ask plus deposit to the seller. */
  method TakeFull(proto: Protocol, txb: MeshTxBuilder, order: Leg, takerNet: map<Unit, int>)
    returns (net: map<Unit, int>)
    requires order.cut.None?
    modifies txb`inputs, txb`outputs
    ensures txb.inputs == old(txb.inputs) + [LegInput(order)]
    ensures txb.outputs == old(txb.outputs) + LegOutputs(order)
    ensures net == LegNet(proto, takerNet, order)
  {
    var datum := order.datum;
    var askUnit := UnitOf(datum.ask);
    net := AddNetLoop(proto, takerNet, order.output.amount, 1);
    txb.TxIn(order.ref, Take);
    var paymentAmount :=
      if askUnit == Lovelace then [Asset(Lovelace, datum.askAmount + order.deposit)]
      else [Asset(Lovelace, order.deposit), Asset(askUnit, datum.askAmount)];
    net := AddNetLoop(proto, net, paymentAmount, -1);
    txb.Send(PaymentAddress(datum), paymentAmount, EncodePaymentTag(order.ref.txHash, order.ref.index));
  }

  /** A partial fill: the ceiling price to the seller, the rest re-locked. */
  method TakePart(proto: Protocol, txb: MeshTxBuilder, order: Leg, takerNet: map<Unit, int>)
    returns (net: map<Unit, int>, fill: PartialFill)
    requires order.cut.Some?
    modifies txb`inputs, txb`outputs
    ensures txb.inputs == old(txb.inputs) + [LegInput(order)]
    ensures txb.outputs == old(txb.outputs) + LegOutputs(order)
    ensures net == LegNet(proto, takerNet, order) && fill == FillOf(order)
  {
    var datum, takeAmount, required := order.datum, order.cut.value.takeAmount, order.cut.value.required;
    var askUnit := UnitOf(datum.ask);
    net := AddNetLoop(proto, takerNet, order.output.amount, 1);
    txb.TxIn(order.ref, TakePartial(takeAmount));
    var paymentAmount :=
      if askUnit == Lovelace
      then [Asset(Lovelace, if required > PARTIAL_PAYMENT_LOVELACE then required else PARTIAL_PAYMENT_LOVELACE)]
      else [Asset(Lovelace, PARTIAL_PAYMENT_LOVELACE), Asset(askUnit, required)];
    net := AddNetLoop(proto, net, paymentAmount, -1);
    txb.Send(PaymentAddress(datum), paymentAmount, EncodePaymentTag(order.ref.txHash, order.ref.index));

    var continuationAmount := ReduceLoop(order.output.amount, UnitOf(datum.offer), takeAmount);
    var continuationDatum :=
      datum.(offerAmount := datum.offerAmount - takeAmount, askAmount := datum.askAmount - required);
    net := AddNetLoop(proto, net, continuationAmount, -1);
    txb.Send(order.output.address, continuationAmount, EncodeOrderDatum(continuationDatum));
    fill := PartialFill(order.ref, takeAmount, required, continuationDatum.offerAmount,
      continuationDatum.askAmount, order.output.address);
  }

  /** The batch as the loop's variables hold it. */
  ghost predicate Holds(txb: MeshTxBuilder, b: Batch, takerNet: map<Unit, int>,
                        fills: seq<PartialFill>, burnNames: seq<TokenName>)
    reads txb
  {
    && txb.inputs == b.inputs && txb.outputs == b.outputs
    && takerNet == b.net && fills == b.fills && burnNames == b.burned
  }

  lemma {:induction false} BatchSnoc(proto: Protocol, legs: seq<Leg>, l: Leg)
    ensures BatchOf(proto, legs + [l]) == AddLeg(proto, BatchOf(proto, legs), l)
  {
    assert (legs + [l])[..|legs + [l]| - 1] == legs;
  }

  lemma {:induction false} PriceFailsOn(orders: seq<Resolved>, i: nat)
    requires i <= |orders| && PriceAll(orders[..i]) == None
    ensures PriceAll(orders) == None
    decreases |orders| - i
  {
    if i == |orders| {
      assert orders[..i] == orders;
    } else {
      PrefixStep(orders, i);
      PriceFailsOn(orders, i + 1);
    }
  }

  /** One pass of the batch loop over a leg that passed its guards. */
  method TakeOne(proto: Protocol, txb: MeshTxBuilder, order: Leg, ghost b: Batch, takerNet: map<Unit, int>,
                 fills: seq<PartialFill>, burnNames: seq<TokenName>)
    returns (takerNet': map<Unit, int>, fills': seq<PartialFill>, burnNames': seq<TokenName>)
    requires Holds(txb, b, takerNet, fills, burnNames)
    modifies txb`inputs, txb`outputs
    ensures Holds(txb, AddLeg(proto, b, order), takerNet', fills', burnNames')
  {
    fills', burnNames' := fills, burnNames;
    if order.cut.None? {
      takerNet' := TakeFull(proto, txb, order, takerNet);
      burnNames' := burnNames + NamesOf(order.datum).Values();
    } else {
      var fill;
      takerNet', fill := TakePart(proto, txb, order, takerNet);
      fills' := fills + [fill];
    }
  }

  /** The loop over the sorted legs: guards, spends, payments, continuations, burns and nets. */
  method BuildLegs(proto: Protocol, txb: MeshTxBuilder, orders: seq<Resolved>)
    returns (legs: Option<seq<Leg>>, takerNet: map<Unit, int>, fills: seq<PartialFill>, burnNames: seq<TokenName>)
    requires txb.inputs == [] && txb.outputs == []
    modifies txb`inputs, txb`outputs
    ensures legs == PriceAll(orders)
    ensures legs.Some? ==> Holds(txb, BatchOf(proto, legs.value), takerNet, fills, burnNames)
  {
    takerNet, fills, burnNames := map[], [], [];
    var done: seq<Leg> := [];
    for i := 0 to |orders|
      invariant PriceAll(orders[..i]) == Some(done)
      invariant Holds(txb, BatchOf(proto, done), takerNet, fills, burnNames)
    {
      PrefixStep(orders, i);
      var priced := PriceLeg(orders[i]);
      if priced.None? {
        PriceFailsOn(orders, i + 1);
        return None, takerNet, fills, burnNames;
      }
      BatchSnoc(proto, done, priced.value);
      takerNet, fills, burnNames :=
        TakeOne(proto, txb, priced.value, BatchOf(proto, done), takerNet, fills, burnNames);
      done := done + [priced.value];
    }
    assert orders[..|orders|] == orders;
    legs := Some(done);
  }

  method Expirations(legs: seq<Leg>) returns (earliest: Option<int>, totalDeposit: int)
    ensures earliest == EarliestExpiration(legs) && totalDeposit == DepositTotal(legs)
  {
    earliest, totalDeposit := None, 0;
    for i := 0 to |legs|
      invariant earliest == EarliestExpiration(legs[..i]) && totalDeposit == DepositTotal(legs[..i])
    {
      PrefixStep(legs, i);
      var e := legs[i].datum.expiration;
      if e.Some? && (earliest.None? || e.value < earliest.value) {
        earliest := e;
      }
      if legs[i].cut.None? {
        totalDeposit := totalDeposit + legs[i].deposit;
      }
    }
    assert legs[..|legs|] == legs;
  }

  method FindExpired(sorted: seq<Resolved>, now: int) returns (found: bool)
    ensures found <==> AnyExpired(sorted, now)
  {
    for i := 0 to |sorted|
      invariant forall j | 0 <= j < i :: !Expired(sorted[j], now)
    {
      if sorted[i].datum.expiration.Some? && sorted[i].datum.expiration.value <= now {
        assert Expired(sorted[i], now);
        return true;
      }
    }
    return false;
  }

  /** Validity bound, burns and the wallet checks, on a body that holds the batch's legs. */
  method FinishBody(txb: MeshTxBuilder, wallet: Wallet, legs: seq<Leg>, ghost b: Batch, takerNet: map<Unit, int>,
                    fills: seq<PartialFill>, burnNames: seq<TokenName>)
    returns (r: Result<TakeTx, BuildError>)
    requires Holds(txb, b, takerNet, fills, burnNames) && txb.mint == [] && txb.invalidHereafter == None
    modifies txb
    ensures r == if !WalletCanBuild(wallet) then Err(InvalidRequest)
                 else Ok(FinishBatch(b, DepositTotal(legs), EarliestExpiration(legs)))
  {
    var earliest, totalDeposit := Expirations(legs);
    if earliest.Some? {
      txb.InvalidHereafter(earliest.value);
    }
    if burnNames != [] {
      MintBeacons(txb, burnNames, -1);
      assert txb.mint == MintEntries(burnNames, -1);
    }
    if !WalletCanBuild(wallet) {
      return Err(InvalidRequest);
    }
    return Ok(TakeTx(
      Draft(txb.inputs, txb.outputs, txb.mint, txb.invalidHereafter, None),
      TakeSummary(takerNet, fills, burnNames, totalDeposit, earliest)));
  }

  /** Everything after the orders are resolved and sorted. */
  method AssembleBatch(proto: Protocol, wallet: Wallet, sorted: seq<Resolved>, now: int)
    returns (r: Result<TakeTx, BuildError>)
    ensures r == TakeSorted(proto, wallet, sorted, now)
  {
    var expired := FindExpired(sorted, now);
    if expired {
      return Err(OrderExpired);
    }
    var txb := new MeshTxBuilder();
    var legs, takerNet, fills, burnNames := BuildLegs(proto, txb, sorted);
    if legs.None? {
      return Err(InvalidRequest);
    }
    r := FinishBody(txb, wallet, legs.value, BatchOf(proto, legs.value), takerNet, fills, burnNames);
  }

  method BuildTakeManyOrders(proto: Protocol, utxos: map<OutRef, TxOut>, wallet: Wallet,
                             orders: seq<TakeLeg>, now: int) returns (r: Result<TakeTx, BuildError>)
    ensures r == TakeManyOrders(proto, utxos, wallet, orders, now)
  {
    if orders == [] {
      return Err(InvalidRequest);
    }
    if |OrderIds(orders)| != |orders| {
      return Err(InvalidRequest);
    }
    if |orders| > proto.maxOrdersPerTx {
      return Err(InvalidRequest);
    }
    var unsorted := ResolveLegs(proto, utxos, orders);
    if unsorted.Err? {
      return Err(unsorted.error);
    }
    r := AssembleBatch(proto, wallet, Sort(LegBefore, unsorted.value), now);
  }
}
