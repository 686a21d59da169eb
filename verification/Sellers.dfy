/**
 * Who is paid. Whoever takes an order or any continuation of it, in whole or in part, pays
 * the address its creation asked for: the payment key and the staking key of that address.
 */
module Sellers {
  import opened Wrappers
  import opened Orders
  import opened OrderDatum
  import opened Ledger
  import opened TxBuilder
  import opened TxBuilderProofs
  import opened ChainModel
  import opened Indexer
  import opened RankPairing
  import opened Batches
  import opened Payments
  import opened Closure
  import opened Ancestry
  import opened Runs
  import opened Lineages
  import opened FillChains
  import opened Evolution

  /** The output goes to this payment credential, with its staking credential if that is a key. */
  predicate PaidTo(out: TxOut, payee: Address) {
    && out.address.payment == payee.payment
    && (match payee.stake
        case Some(KeyHash(hash)) => out.address.stake == Some(KeyHash(hash))
        case _ => out.address.stake == None)
  }

  // ------------------------------------------------------------- one batch

  /** A leg pays whom its order names, where its tagged payment stands. */
  lemma {:induction false} LegPaysPayee(proto: Protocol, legs: seq<Leg>, k: nat, payee: Address)
    requires k < |legs| && Names(legs[k].datum, payee)
    ensures PaymentIndex(proto, legs, k) < |TakeLegs(proto, legs).draft.outputs|
    ensures PaidTo(TakeLegs(proto, legs).draft.outputs[PaymentIndex(proto, legs, k)], payee)
  {
    PaymentInPlace(proto, legs, k);
  }

  /** The output that stands for leg k, under the leg's own tag, goes to the payee. */
  ghost predicate Settles(proto: Protocol, tx: LedgerTx, legs: seq<Leg>, k: nat, payee: Address) {
    && k < |legs| && PaymentIndex(proto, legs, k) < |tx.outputs|
    && PaidTo(tx.outputs[PaymentIndex(proto, legs, k)], payee)
    && tx.outputs[PaymentIndex(proto, legs, k)].datum == Some(TagOf(legs[k].ref))
  }

  // ------------------------------------------------- along the chain of fills

  /** The output placed at a reference is an order that names this payee. */
  ghost predicate OrderNames(proto: Protocol, c: Chain, ref: OutRef, payee: Address) {
    c.OutputAt(ref).Some? && exists d, deposit :: ExactOrder(proto, c.OutputAt(ref).value, d, deposit) && Names(d, payee)
  }

  lemma {:induction false} RecordNames(proto: Protocol, c: Chain, ref: OutRef, d: Datum, deposit: int)
    requires c.OutputAt(ref).Some? && ExactOrder(proto, c.OutputAt(ref).value, d, deposit)
    ensures OrderAt(proto, c, ref).Some? && OrderAt(proto, c, ref).value.paymentAddress == PaymentAddress(d)
  {
    ExactOrderIsIndexed(proto, ref, c.OutputAt(ref).value, d, deposit);
  }

  lemma {:induction false} SameAddressSameNames(d: Datum, e: Datum, payee: Address)
    requires PaymentAddress(d) == PaymentAddress(e) && Names(d, payee)
    ensures Names(e, payee)
  {
    assert PaymentAddress(d).payment == KeyHash(d.paymentPubKeyHash) && PaymentAddress(e).payment == KeyHash(e.paymentPubKeyHash);
    if d.paymentStakeKeyHash.Some? {
      assert PaymentAddress(d).stake == Some(KeyHash(d.paymentStakeKeyHash.value));
    }
    if e.paymentStakeKeyHash.Some? {
      assert PaymentAddress(e).stake == Some(KeyHash(e.paymentStakeKeyHash.value));
    }
  }

  /** Every continuation names the payee its origin names. */
  lemma {:induction false} ContinuationNames(proto: Protocol, w: World, n: OutRef, d: Datum, deposit: int, payee: Address)
    requires Sound(proto, w) && TermsKept(proto, w)
    requires w.chain.OutputAt(n).Some? && ExactOrder(proto, w.chain.OutputAt(n).value, d, deposit)
    requires Coherent(TruthOf(proto, w)) && OrderNames(proto, w.chain, Origin(TruthOf(proto, w), n), payee)
    ensures Names(d, payee)
  {
    var origin := Origin(TruthOf(proto, w), n);
    var o, oDeposit :| ExactOrder(proto, w.chain.OutputAt(origin).value, o, oDeposit) && Names(o, payee);
    RecordNames(proto, w.chain, n, d, deposit);
    RecordNames(proto, w.chain, origin, o, oDeposit);
    EveryOrderInherits(proto, w, n);
    SameAddressSameNames(o, d, payee);
  }

  lemma {:induction false} PostedLegPays(proto: Protocol, w: World, wallet: Wallet, orders: seq<TakeLeg>, now: int, p: Posting,
                                         w': World, k: nat, payee: Address) returns (legs: seq<Leg>)
    requires Sound(proto, w) && TermsKept(proto, w) && ChainStep(proto, w, TakeBatch(wallet, orders), now, p, w')
    requires Coherent(TruthOf(proto, w))
    ensures legs == LegsOf(proto, Utxos(w.chain), orders)
    ensures k < |legs| && OrderNames(proto, w.chain, Origin(TruthOf(proto, w), legs[k].ref), payee) ==>
      Settles(proto, p.tx, legs, k, payee)
  {
    legs := BatchPosted(proto, w, wallet, orders, now, p, w');
    if k < |legs| && OrderNames(proto, w.chain, Origin(TruthOf(proto, w), legs[k].ref), payee) {
      assert GoodLeg(proto, legs[k]) && w.chain.UnspentAt(legs[k].ref) == Some(legs[k].output);
      ContinuationNames(proto, w, legs[k].ref, legs[k].datum, legs[k].deposit, payee);
      LegPaysPayee(proto, legs, k, payee);
      PaymentInPlace(proto, legs, k);
    }
  }

  // ------------------------------------------------------------ in every run

  lemma {:induction false} ChainGrows(proto: Protocol, states: seq<State>, events: seq<Event>, i: nat, j: nat)
    requires ConfigOk(proto) && Run(proto, states, events) && i <= j < |states|
    ensures Grows(states[i].world.chain, states[j].world.chain)
    decreases j - i
  {
    if i < j {
      ChainGrows(proto, states, events, i, j - 1);
      EventGrows(proto, states, events, j - 1);
    }
  }

  lemma {:induction false} EventGrows(proto: Protocol, states: seq<State>, events: seq<Event>, i: nat)
    requires ConfigOk(proto) && Run(proto, states, events) && i < |events|
    ensures Grows(states[i].world.chain, states[i + 1].world.chain)
  {
    EveryStateTruthful(proto, states, events, i);
    assert StepAt(proto, states, events, i);
    if events[i].Posted? {
      StepKeepsSound(proto, states[i].world, events[i].action, events[i].now, events[i].posting, states[i + 1].world);
    }
  }

  /** The order a posted creation places names the payee it asked for. */
  lemma {:induction false} CreatedNames(proto: Protocol, w: World, params: CreateParams, now: int, p: Posting, w': World)
    returns (payee: Address)
    requires ConfigOk(proto) && ChainStep(proto, w, CreateOrder(params), now, p, w')
    ensures AsksFor(params, payee) && OrderNames(proto, w'.chain, OutRef(p.id, 0), payee)
  {
    var d;
    d, payee := CreateMakesAnOrder(proto, params, now);
    FirstOutput(proto, w, BuildCreateOrder(proto, params, now).value, map[], p, w');
    assert ExactOrder(proto, w'.chain.OutputAt(OutRef(p.id, 0)).value, d, proto.depositLovelace);
  }

  lemma {:induction false} FirstOutput(proto: Protocol, w: World, draft: Draft, fates: map<OutRef, Spend>, p: Posting, w': World)
    requires Posts(proto, w, draft, [], fates, p, w') && draft.outputs != []
    ensures w'.chain.OutputAt(OutRef(p.id, 0)) == Some(draft.outputs[0])
  {
    assert p.tx.outputs[0] == draft.outputs[0];
  }

  lemma {:induction false} NamesStay(proto: Protocol, c: Chain, c': Chain, ref: OutRef, payee: Address)
    requires Grows(c, c') && OrderNames(proto, c, ref, payee)
    ensures OrderNames(proto, c', ref, payee)
  {
    OutputStays(c, c', ref);
  }

  lemma {:induction false} CreatedAt(proto: Protocol, s: State, e: Event, s': State) returns (payee: Address)
    requires ConfigOk(proto) && Next(proto, s, e, s') && e.Posted? && e.action.CreateOrder?
    ensures AsksFor(e.action.params, payee) && OrderNames(proto, s'.world.chain, OutRef(e.posting.id, 0), payee)
  {
    payee := CreatedNames(proto, s.world, e.action.params, e.now, e.posting, s'.world);
  }

  lemma {:induction false} CreatedInRun(proto: Protocol, states: seq<State>, events: seq<Event>, i: nat, j: nat) returns (payee: Address)
    requires ConfigOk(proto) && Run(proto, states, events) && i < j < |events|
    requires events[i].Posted? && events[i].action.CreateOrder?
    ensures AsksFor(events[i].action.params, payee)
    ensures OrderNames(proto, states[j].world.chain, OutRef(events[i].posting.id, 0), payee)
  {
    payee := CreatedAt(proto, states[i], events[i], states[i + 1]) by {
      assert StepAt(proto, states, events, i);
    }
    ChainGrows(proto, states, events, i + 1, j);
    NamesStay(proto, states[i + 1].world.chain, states[j].world.chain, OutRef(events[i].posting.id, 0), payee);
  }

  lemma {:induction false} TakenInRun(proto: Protocol, states: seq<State>, events: seq<Event>, j: nat, k: nat, payee: Address)
    returns (legs: seq<Leg>)
    requires ConfigOk(proto) && Run(proto, states, events) && j < |events|
    requires events[j].Posted? && events[j].action.TakeBatch?
    ensures Coherent(TruthOf(proto, states[j].world))
    ensures legs == LegsOf(proto, Utxos(states[j].world.chain), events[j].action.orders)
    ensures k < |legs| && OrderNames(proto, states[j].world.chain, Origin(TruthOf(proto, states[j].world), legs[k].ref), payee) ==>
      Settles(proto, events[j].posting.tx, legs, k, payee)
  {
    EveryStateTruthful(proto, states, events, j);
    assert StepAt(proto, states, events, j);
    legs := PostedLegPays(proto, states[j].world, events[j].action.wallet, events[j].action.orders, events[j].now,
      events[j].posting, states[j + 1].world, k, payee);
  }

  /**
   * In every run: whenever a batch is posted that takes, wholly or partly, an order created
   * earlier in the run or any continuation of it, the output that settles that leg pays the
   * address the creation asked for, and the wallet's own exactly when it gave none.
   */
  lemma {:induction false} SellerIsPaid(proto: Protocol, states: seq<State>, events: seq<Event>, i: nat, j: nat, k: nat)
    returns (payee: Address, legs: seq<Leg>)
    requires ConfigOk(proto) && Run(proto, states, events) && i < j < |events|
    requires events[i].Posted? && events[i].action.CreateOrder? && events[j].Posted? && events[j].action.TakeBatch?
    ensures AsksFor(events[i].action.params, payee) && Coherent(TruthOf(proto, states[j].world))
    ensures legs == LegsOf(proto, Utxos(states[j].world.chain), events[j].action.orders)
    ensures k < |legs| && Origin(TruthOf(proto, states[j].world), legs[k].ref) == OutRef(events[i].posting.id, 0) ==>
      Settles(proto, events[j].posting.tx, legs, k, payee)
  {
    payee := CreatedInRun(proto, states, events, i, j);
    legs := TakenInRun(proto, states, events, j, k, payee);
  }
}
