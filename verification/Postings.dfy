/**
 * Which drafts a wallet can post: exactly those its funds pay for. A creation locks the
 * deposit and the offer, a batch costs what its reported net says, a cancellation gives
 * back what the order holds; a batch that names one output twice is never posted.
 */
module Postings {
  import opened Wrappers
  import opened Sequences
  import opened Sorting
  import opened Beacons
  import opened Orders
  import opened OrderDatum
  import opened Ledger
  import opened TxBuilder
  import opened TxBuilderProofs
  import opened ChainModel
  import opened Indexer
  import opened RankPairing
  import opened Batches
  import opened Balances
  import opened Closure
  import opened Runs

  /** Distinct unspent outputs without beacons, holding what a ledger output can hold. */
  ghost predicate Spendable(proto: Protocol, c: Chain, funds: seq<OutRef>) {
    && NoRepeats(funds) && WalletFunds(proto, c, Elements(funds))
    && forall i | 0 <= i < |funds| ::
         IsTxHash(funds[i].txHash) && (c.OutputAt(funds[i]).Some? ==> AllPositive(c.OutputAt(funds[i]).value.amount))
  }

  /** The action can be posted under this id from exactly these funds at this fee. */
  ghost predicate CanPost(proto: Protocol, w: World, a: Action, now: int, id: string, funds: seq<OutRef>, fee: nat) {
    exists p, w' :: ChainStep(proto, w, a, now, p, w') && p.id == id && p.wallet == Elements(funds) && p.fee == fee
  }

  lemma {:induction false} LaterPos(txs: map<string, LedgerTx>, ids: set<string>) returns (pos: nat)
    requires ids <= txs.Keys
    ensures forall id | id in ids :: txs[id].pos < pos
  {
    if ids == {} {
      pos := 0;
    } else {
      var id :| id in ids;
      var rest := LaterPos(txs, ids - {id});
      pos := if rest > txs[id].pos then rest else txs[id].pos + 1;
    }
  }

  /** A drafted action on the current outputs, and funds that are none of its script inputs. */
  ghost predicate Drafted(proto: Protocol, w: World, a: Action, now: int, draft: Draft, id: string, funds: seq<OutRef>) {
    && Admissible(proto, a) && OtherFlows(a) == [] && DraftOf(proto, Utxos(w.chain), a, now) == Ok(draft)
    && Spendable(proto, w.chain, funds) && FundsFor(proto, w.chain, draft, funds)
    && IsTxHash(id) && id !in w.chain.txs
  }

  /** A draft in builder order can be posted exactly when the funds pay for it. */
  lemma {:induction false} PostsWhenFunded(proto: Protocol, w: World, a: Action, now: int, draft: Draft, id: string,
                                           funds: seq<OutRef>, fee: nat)
    requires Drafted(proto, w, a, now, draft, id, funds) && InBuilderOrder(draft.inputs)
    ensures CanPost(proto, w, a, now, id, funds, fee) <==> Funded(proto, w.chain, draft, funds, fee)
  {
    if CanPost(proto, w, a, now, id, funds, fee) {
      var p, w' :| ChainStep(proto, w, a, now, p, w') && p.id == id && p.wallet == Elements(funds) && p.fee == fee;
      CompletedIsFunded(proto, w.chain, draft, funds, fee, p.tx, p.change);
    }
    if Funded(proto, w.chain, draft, funds, fee) {
      var p := FundedPosts(proto, w, a, now, draft, id, funds, fee);
    }
  }

  lemma {:induction false} FundedPosts(proto: Protocol, w: World, a: Action, now: int, draft: Draft, id: string,
                                       funds: seq<OutRef>, fee: nat) returns (p: Posting)
    requires Drafted(proto, w, a, now, draft, id, funds) && InBuilderOrder(draft.inputs)
    requires Funded(proto, w.chain, draft, funds, fee)
    ensures p.id == id && p.wallet == Elements(funds) && p.fee == fee
    ensures ChainStep(proto, w, a, now, p, Post(w, p, Fates(proto, Utxos(w.chain), a, p.id)))
  {
    var pos := LaterPos(w.chain.txs, w.chain.txs.Keys);
    var tx, change := FundedCompletes(proto, w.chain, draft, funds, fee, Address(KeyHash(""), None), pos, 0);
    p := Posting(id, tx, Elements(funds), change, fee);
  }

  // ------------------------------------------------------------ creations

  lemma {:induction false} FundsHeld(proto: Protocol, c: Chain, funds: seq<OutRef>, u: Unit)
    requires Spendable(proto, c, funds)
    ensures Held(c, funds, u) >= 0
    ensures IsBeaconUnit(proto, u) ==> Held(c, funds, u) == 0
  {
    if funds != [] {
      var init, last := funds[..|funds| - 1], funds[|funds| - 1];
      assert last in Elements(funds) && forall ref | ref in Elements(init) :: ref in Elements(funds);
      FundsHeld(proto, c, init, u);
      PositiveTotal(c.OutputAt(last).value.amount, u);
      if IsBeaconUnit(proto, u) {
        NoBeaconsTotal(proto, c.OutputAt(last).value.amount, u);
      }
    }
  }

  lemma {:induction false} NamesMinted(proto: Protocol, d: Datum, sign: int, u: Unit)
    requires ProtocolDatum(proto, d) && IsBeaconUnit(proto, u)
    ensures Minted(proto, MintEntries(NamesOf(d).Values(), sign), u)
         == if u.name in NamesOf(d).Values() then sign else 0
  {
    NamesDistinct(proto, d);
    MintedOnce(NamesOf(d).Values(), sign, u.name);
  }

  lemma {:induction false} MintedOnce(names: seq<TokenName>, sign: int, name: TokenName)
    requires NoRepeats(names)
    ensures MintTotal(MintEntries(names, sign), name) == if name in names then sign else 0
  {
    MintEntriesAggregate(names, sign, name);
    CountWithoutRepeats(names, name);
    assert sign * 1 == sign && sign * 0 == 0;
  }

  lemma {:induction false} ExactHolds(proto: Protocol, out: TxOut, d: Datum, deposit: int, u: Unit)
    requires ExactOrder(proto, out, d, deposit)
    ensures Total(out.amount, u) == Expected(proto, d, deposit, u)
    ensures IsBeaconUnit(proto, u) ==> Total(out.amount, u) == if u.name in NamesOf(d).Values() then 1 else 0
  {
    assert UnitOf(d.offer) == Lovelace || !IsBeaconUnit(proto, UnitOf(d.offer));
  }

  lemma {:induction false} OneOutput(outputs: seq<TxOut>, u: Unit)
    requires |outputs| == 1
    ensures TotalOut(outputs, u) == Total(outputs[0].amount, u)
  {
    assert outputs[1..] == [];
    assert TotalOut(outputs[1..], u) == 0;
  }

  lemma {:induction false} OneHeld(c: Chain, ref: OutRef, u: Unit)
    ensures Held(c, [ref], u) == HeldAt(c, u)(ref)
  {
    var f, s := HeldAt(c, u), [ref];
    assert s[..|s| - 1] == [] && SumBy(f, []) == 0;
  }

  lemma {:induction false} SurplusParts(proto: Protocol, c: Chain, draft: Draft, script: seq<OutRef>, funds: seq<OutRef>,
                                        fee: nat, u: Unit)
    requires script == ScriptRefs(draft.inputs)
    ensures Surplus(proto, c, draft, funds, fee, u)
         == Held(c, script, u) + Held(c, funds, u) + Minted(proto, draft.mint, u) - TotalOut(draft.outputs, u) - FeeIn(fee, u)
  {
    HeldAppend(c, script, funds, u);
  }

  /** What a draft that places this order output, and nothing else, leaves of the funds. */
  lemma {:induction false} CreateSurplus(proto: Protocol, c: Chain, draft: Draft, d: Datum, deposit: int,
                                         funds: seq<OutRef>, fee: nat, u: Unit)
    requires Spendable(proto, c, funds) && draft.inputs == [] && |draft.outputs| == 1
    requires ExactOrder(proto, draft.outputs[0], d, deposit) && draft.mint == MintEntries(NamesOf(d).Values(), 1)
    ensures Surplus(proto, c, draft, funds, fee, u)
         == if IsBeaconUnit(proto, u) then 0 else Held(c, funds, u) - Expected(proto, d, deposit, u) - FeeIn(fee, u)
  {
    SurplusParts(proto, c, draft, [], funds, fee, u);
    OneOutput(draft.outputs, u);
    ExactHolds(proto, draft.outputs[0], d, deposit, u);
    if IsBeaconUnit(proto, u) {
      NamesMinted(proto, d, 1, u);
      FundsHeld(proto, c, funds, u);
    }
  }

  /** The wallet's outlay for a creation: deposit, fee and offer. */
  ghost predicate PaysForOrder(c: Chain, funds: seq<OutRef>, offer: AssetClass, offerAmount: int, deposit: int, fee: nat) {
    && Held(c, funds, Lovelace) >= deposit + fee + (if IsAda(offer) then offerAmount else 0)
    && (!IsAda(offer) ==> Held(c, funds, UnitOf(offer)) >= offerAmount)
  }

  /** What the funds must hold of u for a creation. */
  function CreationCost(offer: AssetClass, offerAmount: int, deposit: int, fee: nat, u: Unit): int {
    (if u == Lovelace then deposit + fee else 0) + (if u == UnitOf(offer) then offerAmount else 0)
  }

  lemma {:induction false} CreateFundedIn(proto: Protocol, c: Chain, draft: Draft, d: Datum, deposit: int,
                                          funds: seq<OutRef>, fee: nat, u: Unit)
    requires Spendable(proto, c, funds) && draft.inputs == [] && |draft.outputs| == 1
    requires ExactOrder(proto, draft.outputs[0], d, deposit) && draft.mint == MintEntries(NamesOf(d).Values(), 1)
    ensures FundedIn(proto, c, draft, funds, fee, u)
       <==> IsBeaconUnit(proto, u) || Held(c, funds, u) >= CreationCost(d.offer, d.offerAmount, deposit, fee, u)
  {
    CreateSurplus(proto, c, draft, d, deposit, funds, fee, u);
    OrderPaid(proto, d, deposit);
  }

  lemma {:induction false} PaysForOrderIs(proto: Protocol, c: Chain, funds: seq<OutRef>, d: Datum, deposit: int, fee: nat)
    requires Spendable(proto, c, funds) && ProtocolDatum(proto, d)
    ensures PaysForOrder(c, funds, d.offer, d.offerAmount, deposit, fee)
       <==> forall u | !IsBeaconUnit(proto, u) :: Held(c, funds, u) >= CreationCost(d.offer, d.offerAmount, deposit, fee, u)
  {
    OrderPaid(proto, d, deposit);
    forall u ensures Held(c, funds, u) >= 0 {
      FundsHeld(proto, c, funds, u);
    }
    assert !IsBeaconUnit(proto, Lovelace);
  }

  lemma {:induction false} CreateFunded(proto: Protocol, c: Chain, draft: Draft, d: Datum, deposit: int,
                                        funds: seq<OutRef>, fee: nat)
    requires Spendable(proto, c, funds) && draft.inputs == [] && |draft.outputs| == 1
    requires ExactOrder(proto, draft.outputs[0], d, deposit) && draft.mint == MintEntries(NamesOf(d).Values(), 1)
    ensures Funded(proto, c, draft, funds, fee) <==> PaysForOrder(c, funds, d.offer, d.offerAmount, deposit, fee)
  {
    forall u ensures FundedIn(proto, c, draft, funds, fee, u)
        <==> IsBeaconUnit(proto, u) || Held(c, funds, u) >= CreationCost(d.offer, d.offerAmount, deposit, fee, u) {
      CreateFundedIn(proto, c, draft, d, deposit, funds, fee, u);
    }
    PaysForOrderIs(proto, c, funds, d, deposit, fee);
  }

  /** What an order holds besides its beacons. */
  lemma {:induction false} OrderPaid(proto: Protocol, d: Datum, deposit: int)
    requires ProtocolDatum(proto, d)
    ensures !IsBeaconUnit(proto, UnitOf(d.offer)) && (UnitOf(d.offer) == Lovelace <==> IsAda(d.offer))
    ensures forall u | !IsBeaconUnit(proto, u) ::
      Expected(proto, d, deposit, u)
      == (if u == Lovelace then deposit else 0) + (if u == UnitOf(d.offer) then d.offerAmount else 0)
  {
  }

  /** A creation that is not rejected can be posted exactly from funds that hold the deposit, the fee and the offer. */
  lemma {:induction false} CreatePosts(proto: Protocol, w: World, params: CreateParams, now: int, id: string,
                                       funds: seq<OutRef>, fee: nat)
    requires ConfigOk(proto) && Admissible(proto, CreateOrder(params)) && BuildCreateOrder(proto, params, now).Ok?
    requires Spendable(proto, w.chain, funds) && IsTxHash(id) && id !in w.chain.txs
    ensures FromApiAssetId(params.offerAsset).Some?
    ensures CanPost(proto, w, CreateOrder(params), now, id, funds, fee)
       <==> PaysForOrder(w.chain, funds, FromApiAssetId(params.offerAsset).value, params.offerAmount,
                         proto.depositLovelace, fee)
  {
    var draft, d := CreateReady(proto, w, params, now, id, funds);
    CreateFunded(proto, w.chain, draft, d, proto.depositLovelace, funds, fee);
    PostsWhenFunded(proto, w, CreateOrder(params), now, draft, id, funds, fee);
  }

  lemma {:induction false} CreateReady(proto: Protocol, w: World, params: CreateParams, now: int, id: string, funds: seq<OutRef>)
    returns (draft: Draft, d: Datum)
    requires ConfigOk(proto) && Admissible(proto, CreateOrder(params)) && BuildCreateOrder(proto, params, now).Ok?
    requires Spendable(proto, w.chain, funds) && IsTxHash(id) && id !in w.chain.txs
    ensures Drafted(proto, w, CreateOrder(params), now, draft, id, funds) && InBuilderOrder(draft.inputs)
    ensures draft.inputs == [] && |draft.outputs| == 1 && draft.mint == MintEntries(NamesOf(d).Values(), 1)
    ensures ExactOrder(proto, draft.outputs[0], d, proto.depositLovelace)
    ensures FromApiAssetId(params.offerAsset) == Some(d.offer) && d.offerAmount == params.offerAmount
  {
    draft := BuildCreateOrder(proto, params, now).value;
    var payee;
    d, payee := CreateMakesAnOrder(proto, params, now);
    NoScriptInputs(proto, w, CreateOrder(params), now, draft, id, funds);
  }

  lemma {:induction false} NoScriptInputs(proto: Protocol, w: World, a: Action, now: int, draft: Draft, id: string, funds: seq<OutRef>)
    requires Admissible(proto, a) && OtherFlows(a) == [] && DraftOf(proto, Utxos(w.chain), a, now) == Ok(draft)
    requires Spendable(proto, w.chain, funds) && IsTxHash(id) && id !in w.chain.txs && draft.inputs == []
    ensures Drafted(proto, w, a, now, draft, id, funds) && InBuilderOrder(draft.inputs)
  {
  }

  // -------------------------------------------------------- cancellations

  lemma {:induction false} OrderIsNotFunds(proto: Protocol, c: Chain, ref: OutRef, funds: seq<OutRef>)
    requires Spendable(proto, c, funds) && c.OutputAt(ref).Some? && IsOrderOutput(proto, c.OutputAt(ref).value)
    ensures ref !in funds
  {
    var out := c.OutputAt(ref).value;
    var d, deposit :| ExactOrder(proto, out, d, deposit);
    OrderHasBeacon(proto, out, d, deposit);
    assert ref in funds ==> ref in Elements(funds);
    if NoBeacons(proto, out.amount) {
      NoBeaconsNoOrderBeacon(proto, out);
    }
  }

  lemma {:induction false} CancelSurplus(proto: Protocol, c: Chain, draft: Draft, ref: OutRef, d: Datum, deposit: int,
                                         funds: seq<OutRef>, fee: nat, u: Unit)
    requires Spendable(proto, c, funds) && draft.inputs == [ScriptInput(ref, Cancel)] && draft.outputs == []
    requires c.OutputAt(ref).Some? && ExactOrder(proto, c.OutputAt(ref).value, d, deposit)
    requires draft.mint == MintEntries(NamesOf(d).Values(), -1)
    ensures Surplus(proto, c, draft, funds, fee, u)
         == if IsBeaconUnit(proto, u) then 0 else Held(c, funds, u) + Expected(proto, d, deposit, u) - FeeIn(fee, u)
  {
    CancelParts(proto, c, draft, ref, funds, fee, u);
    ExactHolds(proto, c.OutputAt(ref).value, d, deposit, u);
    if IsBeaconUnit(proto, u) {
      NamesMinted(proto, d, -1, u);
      FundsHeld(proto, c, funds, u);
    }
  }

  lemma {:induction false} CancelParts(proto: Protocol, c: Chain, draft: Draft, ref: OutRef, funds: seq<OutRef>, fee: nat, u: Unit)
    requires draft.inputs == [ScriptInput(ref, Cancel)] && draft.outputs == [] && c.OutputAt(ref).Some?
    ensures Surplus(proto, c, draft, funds, fee, u)
         == Total(c.OutputAt(ref).value.amount, u) + Held(c, funds, u) + Minted(proto, draft.mint, u) - FeeIn(fee, u)
  {
    SurplusParts(proto, c, draft, [ref], funds, fee, u);
    OneHeld(c, ref, u);
  }

  lemma {:induction false} CancelFunded(proto: Protocol, c: Chain, draft: Draft, ref: OutRef, d: Datum, deposit: int,
                                        funds: seq<OutRef>, fee: nat)
    requires Spendable(proto, c, funds) && draft.inputs == [ScriptInput(ref, Cancel)] && draft.outputs == []
    requires c.OutputAt(ref).Some? && ExactOrder(proto, c.OutputAt(ref).value, d, deposit)
    requires draft.mint == MintEntries(NamesOf(d).Values(), -1)
    ensures Funded(proto, c, draft, funds, fee) <==> Held(c, funds, Lovelace) + Expected(proto, d, deposit, Lovelace) >= fee
  {
    forall u ensures Surplus(proto, c, draft, funds, fee, u)
        == if IsBeaconUnit(proto, u) then 0 else Held(c, funds, u) + Expected(proto, d, deposit, u) - FeeIn(fee, u) {
      CancelSurplus(proto, c, draft, ref, d, deposit, funds, fee, u);
    }
    if Funded(proto, c, draft, funds, fee) {
      assert FundedIn(proto, c, draft, funds, fee, Lovelace);
    }
    if Held(c, funds, Lovelace) + Expected(proto, d, deposit, Lovelace) >= fee {
      forall u ensures FundedIn(proto, c, draft, funds, fee, u) {
        FundsHeld(proto, c, funds, u);
      }
    }
  }

  /**
   * A cancellation that is not rejected can be posted exactly when the order's own
   * lovelace (deposit, and the offer if it is ADA) and the funds' cover the fee.
   */
  lemma {:induction false} CancelPosts(proto: Protocol, w: World, wallet: Wallet, orderId: string, now: int, id: string,
                                       funds: seq<OutRef>, fee: nat)
    returns (ref: OutRef, o: Order)
    requires AllClean(proto, w.chain) && BuildCancelOrder(proto, Utxos(w.chain), wallet, orderId).Ok?
    requires Spendable(proto, w.chain, funds) && IsTxHash(id) && id !in w.chain.txs
    ensures ParseOrderId(orderId) == Some(ref) && OrderAt(proto, w.chain, ref) == Some(o)
    ensures CanPost(proto, w, CancelOrder(wallet, orderId), now, id, funds, fee)
       <==> Held(w.chain, funds, Lovelace) + o.depositLovelace + (if IsAda(o.offer) then o.offeredAmount else 0) >= fee
  {
    var draft, d, deposit;
    draft, ref, d, deposit := CancelReady(proto, w, wallet, orderId, now, id, funds);
    o := Closure.Record(ref, w.chain.OutputAt(ref).value.address, d, deposit);
    CancelFunded(proto, w.chain, draft, ref, d, deposit, funds, fee);
    PostsWhenFunded(proto, w, CancelOrder(wallet, orderId), now, draft, id, funds, fee);
    assert Expected(proto, d, deposit, Lovelace) == o.depositLovelace + (if IsAda(o.offer) then o.offeredAmount else 0);
  }

  lemma {:induction false} CancelReady(proto: Protocol, w: World, wallet: Wallet, orderId: string, now: int, id: string,
                                       funds: seq<OutRef>)
    returns (draft: Draft, ref: OutRef, d: Datum, deposit: int)
    requires AllClean(proto, w.chain) && BuildCancelOrder(proto, Utxos(w.chain), wallet, orderId).Ok?
    requires Spendable(proto, w.chain, funds) && IsTxHash(id) && id !in w.chain.txs
    ensures Drafted(proto, w, CancelOrder(wallet, orderId), now, draft, id, funds) && InBuilderOrder(draft.inputs)
    ensures draft.inputs == [ScriptInput(ref, Cancel)] && draft.outputs == []
    ensures draft.mint == MintEntries(NamesOf(d).Values(), -1)
    ensures ParseOrderId(orderId) == Some(ref)
    ensures w.chain.OutputAt(ref).Some? && ExactOrder(proto, w.chain.OutputAt(ref).value, d, deposit)
    ensures OrderAt(proto, w.chain, ref) == Some(Closure.Record(ref, w.chain.OutputAt(ref).value.address, d, deposit))
  {
    draft, ref, d, deposit := CancelShape(proto, w.chain, wallet, orderId);
    OneScriptInput(proto, w.chain, draft, ref, d, deposit, funds);
  }

  lemma {:induction false} OneScriptInput(proto: Protocol, c: Chain, draft: Draft, ref: OutRef, d: Datum, deposit: int, funds: seq<OutRef>)
    requires draft.inputs == [ScriptInput(ref, Cancel)] && IsTxHash(ref.txHash)
    requires Spendable(proto, c, funds) && c.OutputAt(ref).Some? && ExactOrder(proto, c.OutputAt(ref).value, d, deposit)
    ensures InBuilderOrder(draft.inputs) && FundsFor(proto, c, draft, funds)
  {
    assert IsOrderOutput(proto, c.OutputAt(ref).value);
    OrderIsNotFunds(proto, c, ref, funds);
  }

  /** What a cancellation that is not rejected consists of. */
  lemma {:induction false} CancelShape(proto: Protocol, c: Chain, wallet: Wallet, orderId: string)
    returns (draft: Draft, ref: OutRef, d: Datum, deposit: int)
    requires AllClean(proto, c) && BuildCancelOrder(proto, Utxos(c), wallet, orderId).Ok?
    ensures BuildCancelOrder(proto, Utxos(c), wallet, orderId) == Ok(draft)
    ensures draft.inputs == [ScriptInput(ref, Cancel)] && draft.outputs == [] && IsTxHash(ref.txHash)
    ensures draft.mint == MintEntries(NamesOf(d).Values(), -1)
    ensures ParseOrderId(orderId) == Some(ref) && c.OutputAt(ref).Some? && ExactOrder(proto, c.OutputAt(ref).value, d, deposit)
    ensures OrderAt(proto, c, ref) == Some(Closure.Record(ref, c.OutputAt(ref).value.address, d, deposit))
  {
    draft := BuildCancelOrder(proto, Utxos(c), wallet, orderId).value;
    ref := ParseOrderId(orderId).value;
    d, deposit := LiveOrder(proto, c, ref);
    ExactOrderResolves(proto, ref, Utxos(c)[ref], d, deposit);
  }

  lemma {:induction false} LiveOrder(proto: Protocol, c: Chain, ref: OutRef) returns (d: Datum, deposit: int)
    requires AllClean(proto, c) && ref in Utxos(c) && ResolveOutput(proto, ref, Utxos(c)[ref]).Ok?
    ensures c.OutputAt(ref) == Some(Utxos(c)[ref]) && ExactOrder(proto, Utxos(c)[ref], d, deposit)
    ensures OrderAt(proto, c, ref) == Some(Closure.Record(ref, Utxos(c)[ref].address, d, deposit))
  {
    var out := Utxos(c)[ref];
    IndexerAgreesWithBuilder(proto, ref, out);
    d, deposit :| ExactOrder(proto, out, d, deposit);
    ExactOrderIsIndexed(proto, ref, out, d, deposit);
  }

  // ---------------------------------------------------------------- batches

  lemma {:induction false} LegsHeld(c: Chain, legs: seq<Leg>, u: Unit)
    requires forall k | 0 <= k < |legs| :: c.OutputAt(legs[k].ref) == Some(legs[k].output)
    ensures Held(c, LegRefs(legs), u) == TotalIn(legs, u)
  {
    if legs != [] {
      LegsHeld(c, legs[..|legs| - 1], u);
      assert LegRefs(legs)[..|legs| - 1] == LegRefs(legs[..|legs| - 1]);
    }
  }

  /** What a batch leaves of the funds: the funds and the taker's net, less the fee. */
  lemma {:induction false} TakeSurplus(proto: Protocol, c: Chain, legs: seq<Leg>, funds: seq<OutRef>, fee: nat, u: Unit)
    requires GoodLegs(proto, legs) && LegsUnspent(proto, c, legs)
    ensures Surplus(proto, c, TakeLegs(proto, legs).draft, funds, fee, u)
         == Held(c, funds, u) + NetOf(TakeLegs(proto, legs).summary.takerNet, u) - FeeIn(fee, u)
  {
    BatchInputs(proto, legs);
    assert ScriptRefs(LegInputs(legs)) == LegRefs(legs);
    HeldAppend(c, LegRefs(legs), funds, u);
    LegsHeld(c, legs, u);
    BatchConserves(proto, legs, u);
  }

  ghost predicate PaysNet(proto: Protocol, c: Chain, funds: seq<OutRef>, net: map<Unit, int>, fee: nat) {
    forall u | !IsBeaconUnit(proto, u) :: Held(c, funds, u) + NetOf(net, u) >= FeeIn(fee, u)
  }

  lemma {:induction false} TakeFunded(proto: Protocol, c: Chain, legs: seq<Leg>, funds: seq<OutRef>, fee: nat)
    requires GoodLegs(proto, legs) && LegsUnspent(proto, c, legs) && Spendable(proto, c, funds)
    ensures Funded(proto, c, TakeLegs(proto, legs).draft, funds, fee)
       <==> PaysNet(proto, c, funds, TakeLegs(proto, legs).summary.takerNet, fee)
  {
    var t := TakeLegs(proto, legs);
    forall u ensures FundedIn(proto, c, t.draft, funds, fee, u)
        <==> IsBeaconUnit(proto, u) || Held(c, funds, u) + NetOf(t.summary.takerNet, u) >= FeeIn(fee, u) {
      TakeSurplus(proto, c, legs, funds, fee, u);
      FundsHeld(proto, c, funds, u);
      TakerNetIsGains(proto, legs, u);
    }
  }

  lemma {:induction false} LegsAreNotFunds(proto: Protocol, c: Chain, legs: seq<Leg>, funds: seq<OutRef>)
    requires GoodLegs(proto, legs) && LegsUnspent(proto, c, legs) && Spendable(proto, c, funds)
    ensures FundsFor(proto, c, TakeLegs(proto, legs).draft, funds)
  {
    BatchInputs(proto, legs);
    forall k, j | 0 <= k < |legs| && 0 <= j < |funds| ensures LegInputs(legs)[k].ref != funds[j] {
      assert IsOrderOutput(proto, legs[k].output);
      OrderIsNotFunds(proto, c, legs[k].ref, funds);
    }
  }

  /**
   * A batch the builder accepts can be posted exactly when its ids name distinct outputs
   * and the funds make up whatever the reported taker net lacks, the fee included.
   */
  lemma {:induction false} TakePosts(proto: Protocol, w: World, wallet: Wallet, orders: seq<TakeLeg>, now: int, id: string,
                                     funds: seq<OutRef>, fee: nat)
    requires AllClean(proto, w.chain) && TakeManyOrders(proto, Utxos(w.chain), wallet, orders, now).Ok?
    requires Spendable(proto, w.chain, funds) && IsTxHash(id) && id !in w.chain.txs
    ensures CanPost(proto, w, TakeBatch(wallet, orders), now, id, funds, fee)
       <==> DistinctRequests(orders)
            && PaysNet(proto, w.chain, funds,
                 TakeManyOrders(proto, Utxos(w.chain), wallet, orders, now).value.summary.takerNet, fee)
  {
    if CanPost(proto, w, TakeBatch(wallet, orders), now, id, funds, fee) {
      PostableIsDistinct(proto, w, wallet, orders, now, id, funds, fee);
    }
    if DistinctRequests(orders) {
      var legs := TakeReady(proto, w, wallet, orders, now, id, funds);
      TakeFunded(proto, w.chain, legs, funds, fee);
      PostsWhenFunded(proto, w, TakeBatch(wallet, orders), now, TakeLegs(proto, legs).draft, id, funds, fee);
    }
  }

  lemma {:induction false} PostableIsDistinct(proto: Protocol, w: World, wallet: Wallet, orders: seq<TakeLeg>, now: int,
                                              id: string, funds: seq<OutRef>, fee: nat)
    requires AllClean(proto, w.chain) && CanPost(proto, w, TakeBatch(wallet, orders), now, id, funds, fee)
    ensures DistinctRequests(orders)
  {
    var p, w' :| ChainStep(proto, w, TakeBatch(wallet, orders), now, p, w')
                 && p.id == id && p.wallet == Elements(funds) && p.fee == fee;
    var posted := BatchPosted(proto, w, wallet, orders, now, p, w');
  }

  lemma {:induction false} TakeReady(proto: Protocol, w: World, wallet: Wallet, orders: seq<TakeLeg>, now: int, id: string,
                                     funds: seq<OutRef>) returns (legs: seq<Leg>)
    requires AllClean(proto, w.chain) && TakeManyOrders(proto, Utxos(w.chain), wallet, orders, now).Ok? && DistinctRequests(orders)
    requires Spendable(proto, w.chain, funds) && IsTxHash(id) && id !in w.chain.txs
    ensures TakeManyOrders(proto, Utxos(w.chain), wallet, orders, now) == Ok(TakeLegs(proto, legs))
    ensures GoodLegs(proto, legs) && LegsUnspent(proto, w.chain, legs)
    ensures InBuilderOrder(TakeLegs(proto, legs).draft.inputs)
    ensures Drafted(proto, w, TakeBatch(wallet, orders), now, TakeLegs(proto, legs).draft, id, funds)
  {
    UtxosAreClean(proto, w.chain);
    legs := TakeDraft(proto, Utxos(w.chain), wallet, orders, now);
    BatchInputs(proto, legs);
    LegsAreNotFunds(proto, w.chain, legs, funds);
  }

  lemma {:induction false} PaddedIsNotDistinct(o: TakeLeg)
    requires ParseOrderId(Padded(o.orderId)) == ParseOrderId(o.orderId)
    ensures !DistinctRequests([o, o.(orderId := Padded(o.orderId))])
  {
    var twice := [o, o.(orderId := Padded(o.orderId))];
    assert twice[0] == o && twice[1].orderId == Padded(o.orderId);
  }

  /** The doubled request the builder accepts is one no wallet can complete, whatever its funds. */
  lemma {:induction false} DoubledRequestIsStuck(proto: Protocol, w: World, wallet: Wallet, o: TakeLeg, now: int, id: string,
                                                 funds: seq<OutRef>, fee: nat)
    requires AllClean(proto, w.chain) && proto.maxOrdersPerTx >= 2
    requires TakeManyOrders(proto, Utxos(w.chain), wallet, [o], now).Ok?
    requires Spendable(proto, w.chain, funds) && IsTxHash(id) && id !in w.chain.txs
    ensures var twice := [o, o.(orderId := Padded(o.orderId))];
      && TakeManyOrders(proto, Utxos(w.chain), wallet, twice, now).Ok?
      && !CanPost(proto, w, TakeBatch(wallet, twice), now, id, funds, fee)
  {
    var l := DoubledRequestIsBuilt(proto, Utxos(w.chain), wallet, o, now);
    var twice := [o, o.(orderId := Padded(o.orderId))];
    PaddedIsNotDistinct(o);
    if CanPost(proto, w, TakeBatch(wallet, twice), now, id, funds, fee) {
      PostableIsDistinct(proto, w, wallet, twice, now, id, funds, fee);
    }
  }
}
