/**
 * The chain as a state machine: create, take batch, cancel, and other wallets'
 * transactions, each as the builder drafts it and the wallet completes it. Beside the
 * chain the world keeps the fate the builder meant for every order it consumed, so
 * that what the indexer reads off the chain can be compared with it over whole runs.
 */
module Runs {
  import opened Wrappers
  import opened Sequences
  import opened ByteStrings
  import opened Pricing
  import opened Beacons
  import opened Orders
  import opened OrderDatum
  import opened Ledger
  import opened TxBuilder
  import opened TxBuilderProofs
  import opened ChainModel
  import opened Indexer
  import opened RankPairing
  import opened Batches
  import opened Balances
  import opened Closure

  /** fate is the truth the steps record; nothing on the chain or in the cache reads it. */
  datatype World = World(chain: Chain, fate: map<OutRef, Spend>)

  /** The chain before the protocol is used: outputs without beacons, nothing spent yet. */
  ghost predicate IsGenesis(proto: Protocol, w: World) {
    && w.fate == map[] && w.chain.spentBy == map[]
    && (forall id | id in w.chain.txs ::
          IsTxHash(id) && w.chain.txs[id].inputs == [] && w.chain.txs[id].redeemers == [])
    && (forall ref | w.chain.OutputAt(ref).Some? :: NoBeacons(proto, w.chain.OutputAt(ref).value.amount))
  }

  ghost function Outputs(c: Chain): set<OutRef> {
    set id, i: nat | id in c.txs && 0 <= i < |c.txs[id].outputs| :: OutRef(id, i)
  }

  ghost function Utxos(c: Chain): (r: map<OutRef, TxOut>)
    ensures forall ref :: ref in r <==> c.UnspentAt(ref).Some?
    ensures forall ref | ref in r :: r[ref] == c.UnspentAt(ref).value
  {
    map ref | ref in Outputs(c) && ref !in c.spentBy :: c.txs[ref.txHash].outputs[ref.index]
  }

  // ---------------------------------------------------------------- steps

  datatype Action =
    | CreateOrder(params: CreateParams)
    | TakeBatch(wallet: Wallet, orders: seq<TakeLeg>)
    | CancelOrder(wallet: Wallet, orderId: string)
    | WalletOnly(other: seq<Asset>)

  /** A completed transaction, what coin selection added to it, and its fee. */
  datatype Posting = Posting(id: string, tx: LedgerTx, wallet: set<OutRef>, change: seq<TxOut>, fee: nat)

  function DraftOf(proto: Protocol, utxos: map<OutRef, TxOut>, a: Action, now: int): Result<Draft, BuildError> {
    match a
    case CreateOrder(params) => BuildCreateOrder(proto, params, now)
    case TakeBatch(wallet, orders) =>
      var t :- TakeManyOrders(proto, utxos, wallet, orders, now);
      Ok(t.draft)
    case CancelOrder(wallet, orderId) => BuildCancelOrder(proto, utxos, wallet, orderId)
    case WalletOnly(_) => Ok(Draft([], [], [], None, None))
  }

  /** What enters or leaves besides inputs, beacons and fee; nothing does in the builder's transactions. */
  function OtherFlows(a: Action): seq<Asset> {
    match a
    case WalletOnly(other) => other
    case _ => []
  }

  /** What the environment supplies: well-formed addresses, and no beacons minted by others. */
  ghost predicate Admissible(proto: Protocol, a: Action) {
    match a
    case CreateOrder(params) =>
      && AddressOk(params.wallet.changeAddress)
      && (params.paymentAddress.Some? ==> AddressOk(params.paymentAddress.value))
    case TakeBatch(_, _) => true
    case CancelOrder(_, _) => true
    case WalletOnly(other) => NoBeacons(proto, other)
  }

  function LegSpends(proto: Protocol, legs: seq<Leg>, id: string): seq<Spend> {
    seq(|legs|, k requires 0 <= k < |legs| => TrueSpend(proto, legs, id, k))
  }

  function LegFates(proto: Protocol, legs: seq<Leg>, id: string): map<OutRef, Spend> {
    Assoc(LegRefs(legs), LegSpends(proto, legs, id))
  }

  /** The legs of a batch request, none if it is rejected. */
  function LegsOf(proto: Protocol, utxos: map<OutRef, TxOut>, orders: seq<TakeLeg>): seq<Leg> {
    var rs := ResolveAll(proto, utxos, orders);
    if rs.Err? then [] else PriceAll(Sorting.Sort(LegBefore, rs.value)).GetOr([])
  }

  /** What the builder means to happen to the orders it consumes. */
  function Fates(proto: Protocol, utxos: map<OutRef, TxOut>, a: Action, id: string): map<OutRef, Spend> {
    match a
    case TakeBatch(_, orders) =>
      LegFates(proto, LegsOf(proto, utxos, orders), id)
    case CancelOrder(_, orderId) =>
      var ref := ParseOrderId(orderId);
      if ref.None? then map[] else map[ref.value := Spend(Cancelled, Some(id), None)]
    case _ => map[]
  }

  function Spent(spentBy: map<OutRef, string>, inputs: seq<OutRef>, id: string): map<OutRef, string> {
    spentBy + (map ref | ref in inputs :: id)
  }

  function Post(w: World, p: Posting, fates: map<OutRef, Spend>): World {
    World(Chain(w.chain.txs[p.id := p.tx], Spent(w.chain.spentBy, p.tx.inputs, p.id)), w.fate + fates)
  }

  ghost predicate FreshPosting(c: Chain, p: Posting) {
    IsTxHash(p.id) && p.id !in c.txs && forall id | id in c.txs :: c.txs[id].pos < p.tx.pos
  }

  ghost predicate WalletFunds(proto: Protocol, c: Chain, refs: set<OutRef>) {
    forall ref | ref in refs :: c.UnspentAt(ref).Some? && NoBeacons(proto, c.UnspentAt(ref).value.amount)
  }

  /** The draft completed, balanced and posted, with the fates meant for the orders it spends. */
  ghost predicate Posts(proto: Protocol, w: World, draft: Draft, other: seq<Asset>, fates: map<OutRef, Spend>,
                        p: Posting, w': World) {
    && FreshPosting(w.chain, p) && WalletFunds(proto, w.chain, p.wallet)
    && Completes(proto, draft, p.tx, p.wallet, p.change) && AllPaid(p.change)
    && Balanced(proto, w.chain, draft, other, p.tx, p.fee)
    && w' == Post(w, p, fates)
  }

  /** One chain transaction: drafted on the current unspent outputs, completed, posted. */
  ghost predicate ChainStep(proto: Protocol, w: World, a: Action, now: int, p: Posting, w': World) {
    && Admissible(proto, a) && DraftOf(proto, Utxos(w.chain), a, now).Ok?
    && Posts(proto, w, DraftOf(proto, Utxos(w.chain), a, now).value, OtherFlows(a),
             Fates(proto, Utxos(w.chain), a, p.id), p, w')
  }

  // ----------------------------------------------------------- invariants

  /** The order spent by parent's partial fill lives on as child. */
  ghost predicate IsFill(w: World, parent: OutRef, child: OutRef) {
    parent in w.fate && w.fate[parent].child == Some(child)
  }

  ghost predicate ParentIs(proto: Protocol, c: Chain, node: OutRef, parent: OutRef) {
    ParentOrder(proto, c, node).Some? && ParentOrder(proto, c, node).value.ref == parent
  }

  ghost predicate Recorded(c: Chain) {
    && c.SpendsRecorded()
    && (forall ref | ref in c.spentBy ::
          c.spentBy[ref] in c.txs && ref in c.txs[c.spentBy[ref]].inputs && c.OutputAt(ref).Some?)
  }

  /** Transactions spend outputs of earlier transactions. */
  ghost predicate Ordered(c: Chain) {
    && (forall id | id in c.txs :: IsTxHash(id))
    && (forall id, ref | id in c.txs && ref in c.txs[id].inputs ::
          ref.txHash in c.txs && c.txs[ref.txHash].pos < c.txs[id].pos)
  }

  /** Every output ever placed is an order output or carries no beacon. */
  ghost predicate AllClean(proto: Protocol, c: Chain) {
    forall ref | c.OutputAt(ref).Some? :: Clean(proto, c.OutputAt(ref).value)
  }

  ghost predicate Concluded(s: Spend) {
    s.status == Taken || s.status == PartiallyFilled || s.status == Cancelled
  }

  /** The indexer classifies every consumed order as the builder meant it. */
  ghost predicate FatesTrue(proto: Protocol, w: World) {
    && (forall ref :: ref in w.fate <==> ref in w.chain.spentBy && OrderAt(proto, w.chain, ref).Some?)
    && (forall ref | ref in w.fate :: ClassifySpend(proto, w.chain, ref) == w.fate[ref] && Concluded(w.fate[ref]))
  }

  /** One backward step finds exactly the order whose partial fill created the node. */
  ghost predicate FillsTrue(proto: Protocol, w: World) {
    forall parent, child :: IsFill(w, parent, child) <==> ParentIs(proto, w.chain, child, parent)
  }

  /** child is parent after one acceptable partial fill: only the two amounts differ. */
  predicate KeepsTerms(parent: Order, child: Order) {
    var offer, ask, taken := parent.offeredAmount, parent.requestedAmount, parent.offeredAmount - child.offeredAmount;
    && offer > 0 && ask > 0 && parent.allowPartialFill && AcceptedTake(taken, ask, offer)
    && child == Lowered(parent, child.ref, taken, Owed(taken, ask, offer))
  }

  ghost predicate FillKeepsTerms(proto: Protocol, c: Chain, parent: OutRef, child: OutRef) {
    && OrderAt(proto, c, parent).Some? && OrderAt(proto, c, child).Some?
    && KeepsTerms(OrderAt(proto, c, parent).value, OrderAt(proto, c, child).value)
  }

  /** Every continuation keeps its parent's owner, pair, beacons, addresses, expiry and deposit. */
  ghost predicate TermsKept(proto: Protocol, w: World) {
    forall parent, child | IsFill(w, parent, child) :: FillKeepsTerms(proto, w.chain, parent, child)
  }

  ghost predicate Sound(proto: Protocol, w: World) {
    && Recorded(w.chain) && Ordered(w.chain) && AllClean(proto, w.chain)
    && FatesTrue(proto, w) && FillsTrue(proto, w)
  }

  // ------------------------------------------------- growth of the chain

  ghost predicate Grows(c: Chain, c': Chain) {
    && (forall id | id in c.txs :: id in c'.txs && c'.txs[id] == c.txs[id])
    && (forall ref | ref in c.spentBy :: ref in c'.spentBy && c'.spentBy[ref] == c.spentBy[ref])
  }

  ghost predicate Later(w: World, w': World) {
    && Grows(w.chain, w'.chain)
    && (forall ref | ref in w.fate :: ref in w'.fate && w'.fate[ref] == w.fate[ref])
  }

  lemma {:induction false} OutputStays(c: Chain, c': Chain, ref: OutRef)
    requires Grows(c, c') && ref.txHash in c.txs
    ensures c'.OutputAt(ref) == c.OutputAt(ref)
  {
  }

  lemma {:induction false} ClassificationStays(proto: Protocol, c: Chain, c': Chain, ref: OutRef)
    requires Recorded(c) && Grows(c, c') && ref in c.spentBy
    ensures ClassifySpend(proto, c', ref) == ClassifySpend(proto, c, ref)
  {
    OutputStays(c, c', ref);
  }

  lemma {:induction false} ParentIsInput(proto: Protocol, c: Chain, node: OutRef) returns (parent: OutRef)
    requires ParentOrder(proto, c, node).Some?
    ensures node.txHash in c.txs && parent in c.txs[node.txHash].inputs
    ensures ParentInput(proto, c.txs[node.txHash], node.index) == Some(parent)
    ensures ParentOrder(proto, c, node).value.ref == parent
    ensures ParentOrder(proto, c, node) == OrderAt(proto, c, parent)
  {
    parent := ParentInput(proto, c.txs[node.txHash], node.index).value;
  }

  lemma {:induction false} ParentStays(proto: Protocol, c: Chain, c': Chain, node: OutRef)
    requires Ordered(c) && Grows(c, c') && node.txHash in c.txs
    ensures ParentOrder(proto, c', node) == ParentOrder(proto, c, node)
  {
    var tx := c.txs[node.txHash];
    var parent := ParentInput(proto, tx, node.index);
    if parent.Some? {
      assert parent.value in tx.inputs;
      OutputStays(c, c', parent.value);
    }
  }

  // ------------------------------------------------ what one posting does

  /** A posting, its script inputs, and the fates meant for them. */
  ghost predicate Faithful(proto: Protocol, w: World, p: Posting, script: seq<ScriptInput>, fates: map<OutRef, Spend>) {
    && FreshPosting(w.chain, p) && WalletFunds(proto, w.chain, p.wallet)
    && SpendsInputs(proto, script, p.tx, p.wallet)
    && (forall ref :: ref in fates <==> HasInput(script, ref))
    && (forall ref | ref in fates :: LiveOrderAt(proto, w.chain, ref).Some? && Concluded(fates[ref]))
    && (forall i | 0 <= i < |p.tx.outputs| :: Clean(proto, p.tx.outputs[i]))
  }

  ghost predicate FatesRead(proto: Protocol, c: Chain, fates: map<OutRef, Spend>) {
    forall ref | ref in fates :: ClassifySpend(proto, c, ref) == fates[ref]
  }

  ghost predicate FillsRead(proto: Protocol, c: Chain, id: string, fates: map<OutRef, Spend>) {
    && (forall ref | ref in fates && fates[ref].child.Some? :: fates[ref].child.value.txHash == id)
    && (forall parent, child: OutRef | child.txHash == id ::
          ParentIs(proto, c, child, parent) <==> parent in fates && fates[parent].child == Some(child))
  }

  ghost predicate NewFillsKeepTerms(proto: Protocol, c: Chain, fates: map<OutRef, Spend>) {
    forall ref | ref in fates && fates[ref].child.Some? :: FillKeepsTerms(proto, c, ref, fates[ref].child.value)
  }

  lemma {:induction false} SpendsLive(proto: Protocol, w: World, p: Posting, script: seq<ScriptInput>, fates: map<OutRef, Spend>)
    requires Faithful(proto, w, p, script, fates)
    ensures forall ref | ref in p.tx.inputs :: w.chain.UnspentAt(ref).Some?
  {
    forall ref | ref in p.tx.inputs ensures w.chain.UnspentAt(ref).Some? {
      assert HasInput(script, ref) || ref in p.wallet;
    }
  }

  lemma {:induction false} PostGrows(w: World, p: Posting, fates: map<OutRef, Spend>)
    requires p.id !in w.chain.txs
    requires forall ref | ref in p.tx.inputs :: ref !in w.chain.spentBy
    ensures Grows(w.chain, Post(w, p, fates).chain)
  {
  }

  lemma {:induction false} PostRecorded(w: World, p: Posting, fates: map<OutRef, Spend>)
    requires Recorded(w.chain) && FreshPosting(w.chain, p)
    requires forall ref | ref in p.tx.inputs :: w.chain.UnspentAt(ref).Some?
    ensures Recorded(Post(w, p, fates).chain)
  {
    var c, c' := w.chain, Post(w, p, fates).chain;
    PostGrows(w, p, fates);
    forall ref | ref in c'.spentBy
      ensures c'.spentBy[ref] in c'.txs && ref in c'.txs[c'.spentBy[ref]].inputs && c'.OutputAt(ref).Some? {
      OutputStays(c, c', ref);
    }
  }

  lemma {:induction false} PostOrdered(w: World, p: Posting, fates: map<OutRef, Spend>)
    requires Ordered(w.chain) && FreshPosting(w.chain, p)
    requires forall ref | ref in p.tx.inputs :: w.chain.UnspentAt(ref).Some?
    ensures Ordered(Post(w, p, fates).chain)
  {
  }

  lemma {:induction false} PostClean(proto: Protocol, w: World, p: Posting, fates: map<OutRef, Spend>)
    requires AllClean(proto, w.chain) && p.id !in w.chain.txs
    requires forall i | 0 <= i < |p.tx.outputs| :: Clean(proto, p.tx.outputs[i])
    ensures AllClean(proto, Post(w, p, fates).chain)
  {
    var c, c' := w.chain, Post(w, p, fates).chain;
    forall ref | c'.OutputAt(ref).Some? ensures Clean(proto, c'.OutputAt(ref).value) {
      if ref.txHash != p.id {
        assert c'.OutputAt(ref) == c.OutputAt(ref);
      }
    }
  }

  lemma {:induction false} BeaconlessNotCached(proto: Protocol, c: Chain, ref: OutRef)
    requires c.UnspentAt(ref).Some? && NoBeacons(proto, c.UnspentAt(ref).value.amount)
    ensures OrderAt(proto, c, ref).None?
  {
    BeaconlessIsNoOrder(proto, ref, c.UnspentAt(ref).value);
  }

  /** A consumed order was consumed before, or is one of the posting's script inputs. */
  lemma {:induction false} SpentOrders(proto: Protocol, w: World, p: Posting, script: seq<ScriptInput>,
                                       fates: map<OutRef, Spend>, ref: OutRef)
    requires Sound(proto, w) && Faithful(proto, w, p, script, fates)
    ensures ref in Post(w, p, fates).fate
       <==> ref in Post(w, p, fates).chain.spentBy && OrderAt(proto, Post(w, p, fates).chain, ref).Some?
  {
    var c, c' := w.chain, Post(w, p, fates).chain;
    SpendsLive(proto, w, p, script, fates);
    PostGrows(w, p, fates);
    if ref in c'.spentBy {
      assert ref in c.spentBy || ref in p.tx.inputs;
      OutputStays(c, c', ref);
      if ref in p.tx.inputs && ref !in fates {
        assert ref in p.wallet;
        BeaconlessNotCached(proto, c, ref);
      }
    }
    assert ref in fates ==> HasInput(script, ref) && ref in p.tx.inputs;
  }

  lemma {:induction false} PostFates(proto: Protocol, w: World, p: Posting, script: seq<ScriptInput>, fates: map<OutRef, Spend>)
    requires Sound(proto, w) && Faithful(proto, w, p, script, fates)
    requires FatesRead(proto, Post(w, p, fates).chain, fates)
    ensures FatesTrue(proto, Post(w, p, fates))
  {
    var w' := Post(w, p, fates);
    SpendsLive(proto, w, p, script, fates);
    PostGrows(w, p, fates);
    forall ref ensures ref in w'.fate <==> ref in w'.chain.spentBy && OrderAt(proto, w'.chain, ref).Some? {
      SpentOrders(proto, w, p, script, fates, ref);
    }
    forall ref | ref in w'.fate ensures ClassifySpend(proto, w'.chain, ref) == w'.fate[ref] && Concluded(w'.fate[ref]) {
      if ref !in fates {
        ClassificationStays(proto, w.chain, w'.chain, ref);
      }
    }
  }

  lemma {:induction false} PostFills(proto: Protocol, w: World, p: Posting, script: seq<ScriptInput>, fates: map<OutRef, Spend>)
    requires Sound(proto, w) && Faithful(proto, w, p, script, fates)
    requires FillsRead(proto, Post(w, p, fates).chain, p.id, fates)
    ensures FillsTrue(proto, Post(w, p, fates))
  {
    var w' := Post(w, p, fates);
    SpendsLive(proto, w, p, script, fates);
    PostGrows(w, p, fates);
    forall parent, child ensures IsFill(w', parent, child) <==> ParentIs(proto, w'.chain, child, parent) {
      assert IsFill(w, parent, child) <==> ParentIs(proto, w.chain, child, parent);
      assert IsFill(w, parent, child) ==> child.txHash in w.chain.txs;
      assert parent in fates ==> parent !in w.fate;
      if child.txHash in w.chain.txs {
        ParentStays(proto, w.chain, w'.chain, child);
        assert child.txHash != p.id;
      }
    }
  }

  lemma {:induction false} PostKeepsSound(proto: Protocol, w: World, p: Posting, script: seq<ScriptInput>, fates: map<OutRef, Spend>)
    requires Sound(proto, w) && Faithful(proto, w, p, script, fates)
    requires FatesRead(proto, Post(w, p, fates).chain, fates)
    requires FillsRead(proto, Post(w, p, fates).chain, p.id, fates)
    ensures Sound(proto, Post(w, p, fates)) && Later(w, Post(w, p, fates))
  {
    SpendsLive(proto, w, p, script, fates);
    PostGrows(w, p, fates);
    PostRecorded(w, p, fates);
    PostOrdered(w, p, fates);
    PostClean(proto, w, p, fates);
    PostFates(proto, w, p, script, fates);
    PostFills(proto, w, p, script, fates);
  }

  // ------------------------------------------------------------ each action

  lemma {:induction false} UtxosAreClean(proto: Protocol, c: Chain)
    requires AllClean(proto, c)
    ensures BeaconsOnlyInOrders(proto, Utxos(c))
  {
    forall ref | ref in Utxos(c) ensures Clean(proto, Utxos(c)[ref]) {
      assert c.OutputAt(ref) == Some(Utxos(c)[ref]);
    }
  }

  ghost predicate NonePartial(script: seq<ScriptInput>) {
    forall j | 0 <= j < |script| :: script[j].redeemer.Index() != 2
  }

  /** Without a partial fill among its inputs no output of a transaction has a parent. */
  lemma {:induction false} NoFillsToRead(proto: Protocol, c: Chain, p: Posting, script: seq<ScriptInput>, fates: map<OutRef, Spend>)
    requires p.id in c.txs && c.txs[p.id] == p.tx
    requires SpendsInputs(proto, script, p.tx, p.wallet) && InBuilderOrder(script) && NonePartial(script)
    requires forall ref | ref in fates :: fates[ref].child == None
    ensures FillsRead(proto, c, p.id, fates)
  {
    PartialInputsAre(proto, script, p.tx, p.wallet);
    if PartialRefs(script) != [] {
      var k := PartialRefOf(script, 0);
    }
    assert PartialInputs(proto, p.tx) == [];
  }

  lemma {:induction false} CompletedOutputs(proto: Protocol, draft: Draft, p: Posting)
    requires Completes(proto, draft, p.tx, p.wallet, p.change)
    requires forall i | 0 <= i < |draft.outputs| :: Clean(proto, draft.outputs[i])
    ensures forall i | 0 <= i < |p.tx.outputs| :: Clean(proto, p.tx.outputs[i])
  {
    forall i | 0 <= i < |p.tx.outputs| ensures Clean(proto, p.tx.outputs[i]) {
      if i >= |draft.outputs| {
        assert p.tx.outputs[i] == p.change[i - |draft.outputs|];
      }
    }
  }

  /** Transactions that spend no order: creations, and other wallets' business. */
  lemma {:induction false} NoScriptStep(proto: Protocol, w: World, p: Posting, draft: Draft)
    requires Sound(proto, w) && FreshPosting(w.chain, p) && WalletFunds(proto, w.chain, p.wallet)
    requires Completes(proto, draft, p.tx, p.wallet, p.change) && draft.inputs == []
    requires forall i | 0 <= i < |draft.outputs| :: Clean(proto, draft.outputs[i])
    ensures Sound(proto, Post(w, p, map[])) && Later(w, Post(w, p, map[]))
  {
    CompletedOutputs(proto, draft, p);
    assert forall ref :: !HasInput([], ref);
    NoFillsToRead(proto, Post(w, p, map[]).chain, p, [], map[]);
    PostKeepsSound(proto, w, p, [], map[]);
  }

  lemma {:induction false} CreateDraft(proto: Protocol, utxos: map<OutRef, TxOut>, params: CreateParams, now: int)
    returns (draft: Draft)
    requires ConfigOk(proto) && Admissible(proto, CreateOrder(params))
    requires DraftOf(proto, utxos, CreateOrder(params), now).Ok?
    ensures DraftOf(proto, utxos, CreateOrder(params), now) == Ok(draft)
    ensures draft.inputs == [] && forall i | 0 <= i < |draft.outputs| :: Clean(proto, draft.outputs[i])
  {
    draft := BuildCreateOrder(proto, params, now).value;
    var d, payee := CreateMakesAnOrder(proto, params, now);
    OrderIsClean(proto, draft.outputs[0], d, proto.depositLovelace);
  }

  lemma {:induction false} OrderIsClean(proto: Protocol, out: TxOut, d: Datum, deposit: int)
    requires ExactOrder(proto, out, d, deposit)
    ensures Clean(proto, out)
  {
    assert IsOrderOutput(proto, out);
  }

  lemma {:induction false} ResolvedIsLive(proto: Protocol, c: Chain, ref: OutRef)
    requires AllClean(proto, c) && ref in Utxos(c) && ResolveOutput(proto, ref, Utxos(c)[ref]).Ok?
    ensures LiveOrderAt(proto, c, ref).Some?
  {
    IndexerAgreesWithBuilder(proto, ref, Utxos(c)[ref]);
  }

  /** A cancelled order is read back as cancelled. */
  lemma {:induction false} CancelIsRead(proto: Protocol, c: Chain, p: Posting, script: seq<ScriptInput>, ref: OutRef)
    requires script == [ScriptInput(ref, Cancel)] && SpendsInputs(proto, script, p.tx, p.wallet)
    requires p.id in c.txs && c.txs[p.id] == p.tx
    requires c.OutputAt(ref).Some? && ref in c.spentBy && c.spentBy[ref] == p.id
    ensures ClassifySpend(proto, c, ref) == Spend(Cancelled, Some(p.id), None)
  {
    RedeemerOfInput(proto, script, p.tx, p.wallet, 0);
    var i := Position(p.tx.inputs, ref);
    ClassifiedBy(proto, c, ref, p.id, SpendRedeemer(i, proto.orderValidatorHash, 0));
  }

  lemma {:induction false} CancelDraft(proto: Protocol, utxos: map<OutRef, TxOut>, wallet: Wallet, orderId: string, now: int)
    returns (draft: Draft, ref: OutRef)
    requires DraftOf(proto, utxos, CancelOrder(wallet, orderId), now).Ok?
    ensures DraftOf(proto, utxos, CancelOrder(wallet, orderId), now) == Ok(draft)
    ensures draft.inputs == [ScriptInput(ref, Cancel)] && draft.outputs == []
    ensures ref in utxos && ResolveOutput(proto, ref, utxos[ref]).Ok? && IsTxHash(ref.txHash)
    ensures forall id :: Fates(proto, utxos, CancelOrder(wallet, orderId), id)
                      == map[ref := Spend(Cancelled, Some(id), None)]
  {
    ref := ParseOrderId(orderId).value;
    draft := BuildCancelOrder(proto, utxos, wallet, orderId).value;
  }

  lemma {:induction false} OneInput(ref: OutRef, redeemer: OrderRedeemer)
    ensures forall r :: HasInput([ScriptInput(ref, redeemer)], r) <==> r == ref
  {
    assert [ScriptInput(ref, redeemer)][0].ref == ref;
  }

  lemma {:induction false} CancelIsFaithful(proto: Protocol, w: World, p: Posting, script: seq<ScriptInput>, ref: OutRef,
                                            fates: map<OutRef, Spend>)
    requires FreshPosting(w.chain, p) && WalletFunds(proto, w.chain, p.wallet)
    requires script == [ScriptInput(ref, Cancel)] && SpendsInputs(proto, script, p.tx, p.wallet)
    requires forall i | 0 <= i < |p.tx.outputs| :: Clean(proto, p.tx.outputs[i])
    requires LiveOrderAt(proto, w.chain, ref).Some?
    requires fates == map[ref := Spend(Cancelled, Some(p.id), None)]
    ensures Faithful(proto, w, p, script, fates)
    ensures ref in p.tx.inputs
  {
    OneInput(ref, Cancel);
    assert HasInput(script, ref);
  }

  lemma {:induction false} CancelFateRead(proto: Protocol, w: World, p: Posting, script: seq<ScriptInput>, ref: OutRef,
                                          fates: map<OutRef, Spend>)
    requires script == [ScriptInput(ref, Cancel)] && Faithful(proto, w, p, script, fates) && ref in p.tx.inputs
    requires LiveOrderAt(proto, w.chain, ref).Some?
    requires fates == map[ref := Spend(Cancelled, Some(p.id), None)]
    ensures FatesRead(proto, Post(w, p, fates).chain, fates)
  {
    var c' := Post(w, p, fates).chain;
    SpendsLive(proto, w, p, script, fates);
    PostGrows(w, p, fates);
    OutputStays(w.chain, c', ref);
    CancelIsRead(proto, c', p, script, ref);
  }

  lemma {:induction false} CancelStep(proto: Protocol, w: World, draft: Draft, ref: OutRef, fates: map<OutRef, Spend>, p: Posting)
    requires Sound(proto, w) && FreshPosting(w.chain, p) && WalletFunds(proto, w.chain, p.wallet)
    requires Completes(proto, draft, p.tx, p.wallet, p.change)
    requires draft.inputs == [ScriptInput(ref, Cancel)] && draft.outputs == [] && IsTxHash(ref.txHash)
    requires LiveOrderAt(proto, w.chain, ref).Some?
    requires fates == map[ref := Spend(Cancelled, Some(p.id), None)]
    ensures Sound(proto, Post(w, p, fates)) && Later(w, Post(w, p, fates))
  {
    CancelReadsBack(proto, w, draft, ref, fates, p);
    PostKeepsSound(proto, w, p, draft.inputs, fates);
  }

  lemma {:induction false} CancelReadsBack(proto: Protocol, w: World, draft: Draft, ref: OutRef, fates: map<OutRef, Spend>, p: Posting)
    requires FreshPosting(w.chain, p) && WalletFunds(proto, w.chain, p.wallet)
    requires Completes(proto, draft, p.tx, p.wallet, p.change)
    requires draft.inputs == [ScriptInput(ref, Cancel)] && draft.outputs == [] && IsTxHash(ref.txHash)
    requires LiveOrderAt(proto, w.chain, ref).Some?
    requires fates == map[ref := Spend(Cancelled, Some(p.id), None)]
    ensures Faithful(proto, w, p, draft.inputs, fates)
    ensures FatesRead(proto, Post(w, p, fates).chain, fates) && FillsRead(proto, Post(w, p, fates).chain, p.id, fates)
  {
    CompletedOutputs(proto, draft, p);
    CancelIsFaithful(proto, w, p, draft.inputs, ref, fates);
    CancelFateRead(proto, w, p, draft.inputs, ref, fates);
    NoFillsToRead(proto, Post(w, p, fates).chain, p, draft.inputs, fates);
  }

  lemma {:induction false} FateOfLeg(proto: Protocol, legs: seq<Leg>, id: string, k: nat)
    requires LegRefsDiffer(legs) && k < |legs|
    ensures legs[k].ref in LegFates(proto, legs, id)
    ensures LegFates(proto, legs, id)[legs[k].ref] == TrueSpend(proto, legs, id, k)
  {
    AssocHas(LegRefs(legs), LegSpends(proto, legs, id), k);
  }

  lemma {:induction false} LegOfFate(proto: Protocol, legs: seq<Leg>, id: string, ref: OutRef) returns (k: nat)
    requires LegRefsDiffer(legs) && ref in LegFates(proto, legs, id)
    ensures k < |legs| && legs[k].ref == ref
    ensures LegFates(proto, legs, id)[ref] == TrueSpend(proto, legs, id, k)
  {
    AssocKeys(LegRefs(legs), LegSpends(proto, legs, id), ref);
    k :| 0 <= k < |legs| && LegRefs(legs)[k] == ref;
    FateOfLeg(proto, legs, id, k);
  }

  /** The fates of a batch are exactly its legs'. */
  lemma {:induction false} LegFateKeys(proto: Protocol, legs: seq<Leg>, id: string, ref: OutRef)
    ensures ref in LegFates(proto, legs, id) <==> HasInput(LegInputs(legs), ref)
  {
    AssocKeys(LegRefs(legs), LegSpends(proto, legs, id), ref);
    assert forall k | 0 <= k < |legs| :: LegInputs(legs)[k].ref == LegRefs(legs)[k];
    if HasInput(LegInputs(legs), ref) {
      var k :| 0 <= k < |legs| && LegInputs(legs)[k].ref == ref;
      assert LegRefs(legs)[k] == ref;
    }
  }

  lemma {:induction false} LegIsLive(proto: Protocol, c: Chain, l: Leg)
    requires l.ref in Utxos(c) && Utxos(c)[l.ref] == l.output && GoodLeg(proto, l)
    ensures LiveOrderAt(proto, c, l.ref).Some? && c.OutputAt(l.ref) == Some(l.output)
  {
    var record := ParentRecord(proto, l);
  }

  lemma {:induction false} LegOutputsClean(proto: Protocol, l: Leg)
    requires GoodLeg(proto, l)
    ensures forall i | 0 <= i < |LegOutputs(l)| :: Clean(proto, LegOutputs(l)[i])
  {
    PaymentHasNoBeacon(proto, l);
    if l.cut.Some? {
      ContinuationIsAnOrder(proto, l);
      assert IsOrderOutput(proto, Continuation(l));
    }
  }

  ghost predicate AllOutputsClean(proto: Protocol, outputs: seq<TxOut>) {
    forall i | 0 <= i < |outputs| :: Clean(proto, outputs[i])
  }

  lemma {:induction false} BatchOutputsClean(proto: Protocol, legs: seq<Leg>)
    requires GoodLegs(proto, legs)
    ensures AllOutputsClean(proto, BatchOf(proto, legs).outputs)
  {
    if legs != [] {
      GoodPrefix(proto, legs);
      BatchOutputsClean(proto, legs[..|legs| - 1]);
      OutputsSnoc(proto, legs);
      LegOutputsClean(proto, legs[|legs| - 1]);
    }
  }

  /** A batch on the current chain: its legs, and the transaction that completed it. */
  ghost predicate PostsBatch(proto: Protocol, w: World, p: Posting, legs: seq<Leg>) {
    && FreshPosting(w.chain, p) && WalletFunds(proto, w.chain, p.wallet)
    && FromUtxos(Utxos(w.chain), legs)
    && BatchTx(proto, legs, p.tx, p.wallet, p.change)
  }

  lemma {:induction false} BatchIsFaithful(proto: Protocol, w: World, p: Posting, legs: seq<Leg>)
    requires Sound(proto, w) && PostsBatch(proto, w, p, legs)
    ensures LegRefsDiffer(legs)
    ensures Faithful(proto, w, p, LegInputs(legs), LegFates(proto, legs, p.id))
  {
    BuilderOrderDiffers(legs);
    BatchHasLayout(proto, legs, p.tx, p.wallet, p.change);
    var fates := LegFates(proto, legs, p.id);
    forall ref ensures ref in fates <==> HasInput(LegInputs(legs), ref) {
      LegFateKeys(proto, legs, p.id, ref);
    }
    forall ref | ref in fates ensures LiveOrderAt(proto, w.chain, ref).Some? && Concluded(fates[ref]) {
      var k := LegOfFate(proto, legs, p.id, ref);
      LegIsLive(proto, w.chain, legs[k]);
    }
    BatchOutputsClean(proto, legs);
    CompletedOutputs(proto, TakeLegs(proto, legs).draft, p);
  }

  lemma {:induction false} LegIsSpent(proto: Protocol, w: World, p: Posting, legs: seq<Leg>, fates: map<OutRef, Spend>, k: nat)
    requires Sound(proto, w) && PostsBatch(proto, w, p, legs) && k < |legs|
    requires Faithful(proto, w, p, LegInputs(legs), fates)
    ensures var c' := Post(w, p, fates).chain;
      && c'.OutputAt(legs[k].ref) == Some(legs[k].output)
      && legs[k].ref in c'.spentBy && c'.spentBy[legs[k].ref] == p.id
      && OrderAt(proto, c', legs[k].ref).Some?
  {
    SpendsLive(proto, w, p, LegInputs(legs), fates);
    PostGrows(w, p, fates);
    LegIsLive(proto, w.chain, legs[k]);
    InputIsSpent(proto, LegInputs(legs), p.tx, p.wallet, k);
    assert LegInputs(legs)[k].ref == legs[k].ref;
    OutputStays(w.chain, Post(w, p, fates).chain, legs[k].ref);
  }

  lemma {:induction false} BatchFatesRead(proto: Protocol, w: World, p: Posting, legs: seq<Leg>, fates: map<OutRef, Spend>)
    requires Sound(proto, w) && PostsBatch(proto, w, p, legs) && LegRefsDiffer(legs)
    requires fates == LegFates(proto, legs, p.id)
    requires Faithful(proto, w, p, LegInputs(legs), fates)
    ensures FatesRead(proto, Post(w, p, fates).chain, fates)
  {
    var c' := Post(w, p, fates).chain;
    forall ref | ref in fates ensures ClassifySpend(proto, c', ref) == fates[ref] {
      var k := LegOfFate(proto, legs, p.id, ref);
      LegIsSpent(proto, w, p, legs, fates, k);
      BatchIsClassified(proto, c', legs, p.id, p.wallet, p.change, k);
    }
  }

  lemma {:induction false} FoundParent(proto: Protocol, c: Chain, child: OutRef, parent: OutRef)
    requires child.txHash in c.txs && OrderAt(proto, c, parent).Some?
    requires PartialInputs(proto, c.txs[child.txHash]) != []
    requires ParentInput(proto, c.txs[child.txHash], child.index) == Some(parent)
    ensures ParentIs(proto, c, child, parent)
  {
    OrderAtKeepsRef(proto, c, parent);
  }

  /** Backward: a parent found at an output of the batch is the leg whose fate names that output. */
  lemma {:induction false} ParentIsFated(proto: Protocol, c: Chain, p: Posting, legs: seq<Leg>, parent: OutRef, child: OutRef)
    requires BatchTx(proto, legs, p.tx, p.wallet, p.change) && LegRefsDiffer(legs)
    requires child.txHash == p.id && p.id in c.txs && c.txs[p.id] == p.tx
    requires ParentIs(proto, c, child, parent)
    ensures parent in LegFates(proto, legs, p.id) && LegFates(proto, legs, p.id)[parent].child == Some(child)
  {
    var found := ParentIsInput(proto, c, child);
    var k := OnlyContinuationsHaveParents(proto, legs, p.tx, p.wallet, p.change, child.index);
    PairingIsExact(proto, legs, p.tx, p.wallet, p.change, k);
    FateOfLeg(proto, legs, p.id, k);
  }

  /** Forward: the output a leg's fate names leads back to that leg. */
  lemma {:induction false} FatedIsParent(proto: Protocol, c: Chain, p: Posting, legs: seq<Leg>, parent: OutRef, child: OutRef)
    requires BatchTx(proto, legs, p.tx, p.wallet, p.change) && LegRefsDiffer(legs)
    requires p.id in c.txs && c.txs[p.id] == p.tx && OrderAt(proto, c, parent).Some?
    requires parent in LegFates(proto, legs, p.id) && LegFates(proto, legs, p.id)[parent].child == Some(child)
    ensures child.txHash == p.id && ParentIs(proto, c, child, parent)
  {
    var k := LegOfFate(proto, legs, p.id, parent);
    PairingIsExact(proto, legs, p.tx, p.wallet, p.change, k);
    FoundParent(proto, c, child, parent);
  }

  lemma {:induction false} OrderAtKeepsRef(proto: Protocol, c: Chain, ref: OutRef)
    requires OrderAt(proto, c, ref).Some?
    ensures OrderAt(proto, c, ref).value.ref == ref
  {
  }

  lemma {:induction false} BatchFillsRead(proto: Protocol, w: World, p: Posting, legs: seq<Leg>, fates: map<OutRef, Spend>)
    requires Sound(proto, w) && PostsBatch(proto, w, p, legs) && LegRefsDiffer(legs)
    requires fates == LegFates(proto, legs, p.id)
    requires Faithful(proto, w, p, LegInputs(legs), fates)
    ensures FillsRead(proto, Post(w, p, fates).chain, p.id, fates)
  {
    var c' := Post(w, p, fates).chain;
    forall ref | ref in fates ensures OrderAt(proto, c', ref).Some? {
      var k := LegOfFate(proto, legs, p.id, ref);
      LegIsSpent(proto, w, p, legs, fates, k);
    }
    FillsReadOf(proto, c', p, legs, fates);
  }

  lemma {:induction false} FillsReadOf(proto: Protocol, c: Chain, p: Posting, legs: seq<Leg>, fates: map<OutRef, Spend>)
    requires BatchTx(proto, legs, p.tx, p.wallet, p.change) && LegRefsDiffer(legs)
    requires p.id in c.txs && c.txs[p.id] == p.tx && fates == LegFates(proto, legs, p.id)
    requires forall ref | ref in fates :: OrderAt(proto, c, ref).Some?
    ensures FillsRead(proto, c, p.id, fates)
  {
    forall parent, child: OutRef | child.txHash == p.id
      ensures ParentIs(proto, c, child, parent) <==> parent in fates && fates[parent].child == Some(child) {
      if ParentIs(proto, c, child, parent) {
        ParentIsFated(proto, c, p, legs, parent, child);
      } else if parent in fates && fates[parent].child == Some(child) {
        FatedIsParent(proto, c, p, legs, parent, child);
      }
    }
    forall ref | ref in fates && fates[ref].child.Some? ensures fates[ref].child.value.txHash == p.id {
      FatedIsParent(proto, c, p, legs, ref, fates[ref].child.value);
    }
  }

  lemma {:induction false} BatchStep(proto: Protocol, w: World, p: Posting, legs: seq<Leg>, fates: map<OutRef, Spend>)
    requires Sound(proto, w) && PostsBatch(proto, w, p, legs)
    requires fates == LegFates(proto, legs, p.id)
    ensures Sound(proto, Post(w, p, fates)) && Later(w, Post(w, p, fates))
  {
    BatchIsFaithful(proto, w, p, legs);
    BatchFatesRead(proto, w, p, legs, fates);
    BatchFillsRead(proto, w, p, legs, fates);
    PostKeepsSound(proto, w, p, LegInputs(legs), fates);
  }

  lemma {:induction false} TakeDraft(proto: Protocol, utxos: map<OutRef, TxOut>, wallet: Wallet, orders: seq<TakeLeg>, now: int)
    returns (legs: seq<Leg>)
    requires BeaconsOnlyInOrders(proto, utxos)
    requires DraftOf(proto, utxos, TakeBatch(wallet, orders), now).Ok?
    ensures DraftOf(proto, utxos, TakeBatch(wallet, orders), now) == Ok(TakeLegs(proto, legs).draft)
    ensures TakeManyOrders(proto, utxos, wallet, orders, now) == Ok(TakeLegs(proto, legs))
    ensures LegsOf(proto, utxos, orders) == legs
    ensures GoodLegs(proto, legs) && FromUtxos(utxos, legs)
    ensures DistinctRequests(orders) <==> LegRefsDiffer(legs)
    ensures LegRefsDiffer(legs) <==> InBuilderOrder(LegInputs(legs))
  {
    var rs, legs' := AcceptedBatch(proto, utxos, wallet, orders, now);
    legs := legs';
  }

  /** A batch that was posted names no output twice. */
  lemma {:induction false} PostedLegsDiffer(proto: Protocol, w: World, legs: seq<Leg>, fates: map<OutRef, Spend>, p: Posting, w': World)
    requires GoodLegs(proto, legs) && FromUtxos(Utxos(w.chain), legs)
    requires Posts(proto, w, TakeLegs(proto, legs).draft, [], fates, p, w')
    ensures LegRefsDiffer(legs)
  {
    BalancedLegsDiffer(proto, w.chain, legs, p.tx, p.wallet, p.change, p.fee);
  }

  /** The legs of a batch that was posted, and the transaction that completed it. */
  lemma {:induction false} BatchPosted(proto: Protocol, w: World, wallet: Wallet, orders: seq<TakeLeg>, now: int, p: Posting, w': World)
    returns (legs: seq<Leg>)
    requires AllClean(proto, w.chain) && ChainStep(proto, w, TakeBatch(wallet, orders), now, p, w')
    ensures PostsBatch(proto, w, p, legs) && LegRefsDiffer(legs) && DistinctRequests(orders)
    ensures LegsOf(proto, Utxos(w.chain), orders) == legs
    ensures Fates(proto, Utxos(w.chain), TakeBatch(wallet, orders), p.id) == LegFates(proto, legs, p.id)
  {
    UtxosAreClean(proto, w.chain);
    legs := TakeDraft(proto, Utxos(w.chain), wallet, orders, now);
    PostedLegsDiffer(proto, w, legs, LegFates(proto, legs, p.id), p, w');
  }

  /** Every chain step keeps the world sound and only adds to what was recorded. */
  lemma {:induction false} StepKeepsSound(proto: Protocol, w: World, a: Action, now: int, p: Posting, w': World)
    requires ConfigOk(proto) && Sound(proto, w) && ChainStep(proto, w, a, now, p, w')
    ensures Sound(proto, w') && Later(w, w')
  {
    var utxos := Utxos(w.chain);
    match a
    case CreateOrder(params) =>
      var draft := CreateDraft(proto, utxos, params, now);
      NoScriptStep(proto, w, p, draft);
    case TakeBatch(wallet, orders) =>
      var legs := BatchPosted(proto, w, wallet, orders, now, p, w');
      BatchStep(proto, w, p, legs, LegFates(proto, legs, p.id));
    case CancelOrder(wallet, orderId) =>
      var draft, ref := CancelDraft(proto, utxos, wallet, orderId, now);
      ResolvedIsLive(proto, w.chain, ref);
      CancelStep(proto, w, draft, ref, Fates(proto, utxos, a, p.id), p);
    case WalletOnly(_) => NoScriptStep(proto, w, p, Draft([], [], [], None, None));
  }

  // ------------------------------------------- what continuations inherit

  lemma {:induction false} OrderStays(proto: Protocol, c: Chain, c': Chain, ref: OutRef)
    requires Grows(c, c') && OrderAt(proto, c, ref).Some?
    ensures OrderAt(proto, c', ref) == OrderAt(proto, c, ref)
  {
    OutputStays(c, c', ref);
  }

  lemma {:induction false} PostTerms(proto: Protocol, w: World, w': World, fates: map<OutRef, Spend>)
    requires TermsKept(proto, w) && Grows(w.chain, w'.chain) && w'.fate == w.fate + fates
    requires NewFillsKeepTerms(proto, w'.chain, fates)
    ensures TermsKept(proto, w')
  {
    forall parent, child | IsFill(w', parent, child) ensures FillKeepsTerms(proto, w'.chain, parent, child) {
      if parent !in fates {
        assert IsFill(w, parent, child);
        OrderStays(proto, w.chain, w'.chain, parent);
        OrderStays(proto, w.chain, w'.chain, child);
      }
    }
  }

  lemma {:induction false} LoweredKeepsTerms(parent: Order, ref: OutRef, taken: int)
    requires parent.offeredAmount > 0 && parent.requestedAmount > 0 && parent.allowPartialFill
    requires AcceptedTake(taken, parent.requestedAmount, parent.offeredAmount)
    ensures KeepsTerms(parent,
      Lowered(parent, ref, taken, Owed(taken, parent.requestedAmount, parent.offeredAmount)))
  {
  }

  lemma {:induction false} LegKeepsTerms(proto: Protocol, c: Chain, l: Leg, child: OutRef)
    requires GoodLeg(proto, l) && l.cut.Some?
    requires c.OutputAt(l.ref) == Some(l.output) && c.OutputAt(child) == Some(Continuation(l))
    ensures FillKeepsTerms(proto, c, l.ref, child)
  {
    var parent := ContinuationIsIndexed(proto, l, child);
    LoweredKeepsTerms(parent, child, l.cut.value.takeAmount);
  }

  lemma {:induction false} CutKeepsTerms(proto: Protocol, c: Chain, p: Posting, legs: seq<Leg>, k: nat)
    requires BatchTx(proto, legs, p.tx, p.wallet, p.change) && k < |legs| && legs[k].cut.Some?
    requires p.id in c.txs && c.txs[p.id] == p.tx && c.OutputAt(legs[k].ref) == Some(legs[k].output)
    ensures FillKeepsTerms(proto, c, legs[k].ref, OutRef(p.id, ContinuationIndex(proto, legs, k)))
  {
    PairingIsExact(proto, legs, p.tx, p.wallet, p.change, k);
    LegKeepsTerms(proto, c, legs[k], OutRef(p.id, ContinuationIndex(proto, legs, k)));
  }

  lemma {:induction false} BatchKeepsTerms(proto: Protocol, w: World, p: Posting, legs: seq<Leg>, fates: map<OutRef, Spend>)
    requires Sound(proto, w) && PostsBatch(proto, w, p, legs) && LegRefsDiffer(legs)
    requires fates == LegFates(proto, legs, p.id)
    requires Faithful(proto, w, p, LegInputs(legs), fates)
    ensures NewFillsKeepTerms(proto, Post(w, p, fates).chain, fates)
  {
    var c' := Post(w, p, fates).chain;
    forall ref | ref in fates && fates[ref].child.Some? ensures FillKeepsTerms(proto, c', ref, fates[ref].child.value) {
      FateKeepsTerms(proto, w, p, legs, fates, ref);
    }
  }

  lemma {:induction false} FateKeepsTerms(proto: Protocol, w: World, p: Posting, legs: seq<Leg>, fates: map<OutRef, Spend>, ref: OutRef)
    requires Sound(proto, w) && PostsBatch(proto, w, p, legs) && LegRefsDiffer(legs)
    requires fates == LegFates(proto, legs, p.id) && ref in fates && fates[ref].child.Some?
    requires Faithful(proto, w, p, LegInputs(legs), fates)
    ensures FillKeepsTerms(proto, Post(w, p, fates).chain, ref, fates[ref].child.value)
  {
    var k := LegOfFate(proto, legs, p.id, ref);
    LegIsSpent(proto, w, p, legs, fates, k);
    CutKeepsTerms(proto, Post(w, p, fates).chain, p, legs, k);
  }

  /** Every chain step keeps each continuation on its parent's terms. */
  lemma {:induction false} StepKeepsTerms(proto: Protocol, w: World, a: Action, now: int, p: Posting, w': World)
    requires ConfigOk(proto) && Sound(proto, w) && TermsKept(proto, w) && ChainStep(proto, w, a, now, p, w')
    ensures TermsKept(proto, w')
  {
    StepKeepsSound(proto, w, a, now, p, w');
    var fates := Fates(proto, Utxos(w.chain), a, p.id);
    NewTerms(proto, w, a, now, p, w', fates);
    PostTerms(proto, w, w', fates);
  }

  lemma {:induction false} NewTerms(proto: Protocol, w: World, a: Action, now: int, p: Posting, w': World, fates: map<OutRef, Spend>)
    requires Sound(proto, w) && ChainStep(proto, w, a, now, p, w')
    requires fates == Fates(proto, Utxos(w.chain), a, p.id)
    ensures NewFillsKeepTerms(proto, w'.chain, fates)
  {
    if a.TakeBatch? {
      var legs := BatchPosted(proto, w, a.wallet, a.orders, now, p, w');
      BatchIsFaithful(proto, w, p, legs);
      BatchKeepsTerms(proto, w, p, legs, fates);
    }
  }

  // ----------------------------------------------------------------- runs

  lemma {:induction false} GenesisIsSound(proto: Protocol, w: World)
    requires IsGenesis(proto, w)
    ensures Sound(proto, w) && TermsKept(proto, w)
  {
    forall parent, child ensures !ParentIs(proto, w.chain, child, parent) && !IsFill(w, parent, child) {
      if ParentOrder(proto, w.chain, child).Some? {
        var found := ParentIsInput(proto, w.chain, child);
      }
    }
  }
}
