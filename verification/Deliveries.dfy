/**
 * From the cache to the chain: right after a sync pass of any run, whatever the scanner
 * reports and whatever the planner routes over the cached orders, the builder accepts as
 * batches on the chain as it stands, with the nets that were promised.
 */
module Deliveries {
  import opened Wrappers
  import opened Sequences
  import opened Sorting
  import opened Beacons
  import opened Orders
  import opened Ledger
  import opened TxBuilder
  import opened TxBuilderProofs
  import opened ChainModel
  import opened OrdersRepo
  import opened Indexer
  import opened Closure
  import opened Ancestry
  import opened Runs
  import opened Evolution
  import opened Portfolios
  import opened Arbitrage
  import opened ArbitrageProofs
  import opened ScanProofs
  import opened Executions
  import opened Acceptance
  import opened FillChains
  import opened RouteExecutions
  import opened RouteRuns
  import SmartFill
  import SmartFillProofs

  /** Cached orders, each once, in any order. */
  ghost predicate CachedBook(r: Repo, rows: seq<Order>) {
    DistinctOrders(rows) && forall i | 0 <= i < |rows| :: FromCache(r, rows[i])
  }

  /** Right after a pass a cached open order is the record of a current output. */
  lemma {:induction false} SyncedIsCurrent(proto: Protocol, states: seq<State>, events: seq<Event>, i: nat, o: Order)
    requires ConfigOk(proto) && Run(proto, states, events) && i < |events| && events[i].Synced?
    requires FromCache(states[i + 1].cache, o) && o.status == Open
    ensures Current(proto, Utxos(states[i + 1].world.chain), o)
  {
    var c := states[i + 1].world.chain;
    SyncShowsFates(proto, states, events, i, o.ref);
    EveryStateTruthful(proto, states, events, i + 1);
    OpenIsCurrent(proto, c, o);
  }

  lemma {:induction false} OpenIsCurrent(proto: Protocol, c: Chain, o: Order)
    requires Ordered(c) && Some(Terms(o)) == OrderAt(proto, c, o.ref) && LiveOrderAt(proto, c, o.ref).Some?
    ensures Current(proto, Utxos(c), o)
  {
    assert o.ref.txHash in c.txs;
  }

  lemma {:induction false} SyncedChainIsClean(proto: Protocol, states: seq<State>, events: seq<Event>, i: nat)
    requires ConfigOk(proto) && Run(proto, states, events) && i < |states|
    ensures BeaconsOnlyInOrders(proto, Utxos(states[i].world.chain))
  {
    EveryStateTruthful(proto, states, events, i);
    UtxosAreClean(proto, states[i].world.chain);
  }

  lemma {:induction false} ReportedIsAnchored(orders: seq<Order>, p: ArbitrageParams, e: Entry)
    requires e in Scan(orders, p)
    ensures Anchored(Book(orders, p.nowPosixMs), e.orders) && Best(e.orders, p.fee) == Some(e.ev)
  {
    var found := Found(orders, p);
    SortKeepsElements(MarginBefore, found);
    assert e in found;
    EntriesAre(p.fee, Candidates(Book(orders, p.nowPosixMs), p));
    var k :| 0 <= k < |found| && found[k] == e;
    assert ScanProofs.EntryOf(found[k], p.fee, Candidates(Book(orders, p.nowPosixMs), p));
    CandidatesAre(Book(orders, p.nowPosixMs), p, e.orders);
  }

  /** The orders of a reported cycle: open rows of the book, each once. */
  lemma {:induction false} ReportedOrders(rows: seq<Order>, p: ArbitrageParams, c: seq<Order>)
    requires DistinctOrders(rows) && Anchored(Book(rows, p.nowPosixMs), c)
    ensures Positive(c)
    ensures forall i | 0 <= i < |c| :: c[i] in rows && c[i].status == Open && !IsOrderExpired(c[i], p.nowPosixMs)
    ensures forall i, j | 0 <= i < j < |c| :: c[i].ref != c[j].ref
  {
    forall i | 0 <= i < |c| ensures c[i] in rows && Scannable(c[i], p.nowPosixMs) {
      BookIs(rows, p.nowPosixMs, c[i]);
    }
    forall i, j | 0 <= i < j < |c| ensures c[i].ref != c[j].ref {
      assert RequestedAssetId(c[i]) != RequestedAssetId(c[j]);
      var k :| 0 <= k < |rows| && rows[k] == c[i];
      var l :| 0 <= l < |rows| && rows[l] == c[j];
    }
  }

  /**
   * In every run, right after a sync pass: every entry of a scan over the cached orders is
   * accepted as one batch on the chain as it stands, with exactly the nets and the min-ADA
   * the scan reported, as long as its orders have not expired when it is built.
   */
  lemma {:induction false} ReportedCycleDelivers(proto: Protocol, states: seq<State>, events: seq<Event>, i: nat, rows: seq<Order>,
                                                 p: ArbitrageParams, e: Entry, wallet: Wallet, now: int, u: Unit)
    requires ConfigOk(proto) && Run(proto, states, events) && i < |events| && events[i].Synced?
    requires CachedBook(states[i + 1].cache, rows) && e in Scan(rows, p)
    requires CanExecute(proto, wallet, e.orders, now) && ApiUnit(u)
    ensures var r := TakeManyOrders(proto, Utxos(states[i + 1].world.chain), wallet, RequestsOf(e.ev.legs), now);
      && r.Ok?
      && NetOf(r.value.summary.takerNet, u)
         == NetAt(e.ev.nets, AssetIdOf(u)) - (if u == Lovelace then e.ev.partialMinAda else 0)
  {
    var utxos := Utxos(states[i + 1].world.chain);
    ReportedIsAnchored(rows, p, e);
    ReportedOrders(rows, p, e.orders);
    SyncedChainIsClean(proto, states, events, i + 1);
    forall k | 0 <= k < |e.orders| ensures Current(proto, utxos, e.orders[k]) {
      RowIsCurrent(proto, states, events, i, rows, e.orders[k]);
    }
    ReportedNetsAreDelivered(proto, utxos, wallet, e.orders, p.fee, now, u);
  }

  lemma {:induction false} RowIsCurrent(proto: Protocol, states: seq<State>, events: seq<Event>, i: nat, rows: seq<Order>, o: Order)
    requires ConfigOk(proto) && Run(proto, states, events) && i < |events| && events[i].Synced?
    requires CachedBook(states[i + 1].cache, rows) && o in rows && o.status == Open
    ensures Current(proto, Utxos(states[i + 1].world.chain), o)
  {
    var k :| 0 <= k < |rows| && rows[k] == o;
    SyncedIsCurrent(proto, states, events, i, o);
  }

  /** The same for every batch of a Smart Fill route over the cached orders. */
  lemma {:induction false} RoutedBatchDelivers(proto: Protocol, states: seq<State>, events: seq<Event>, i: nat, rows: seq<Order>,
                                               p: SmartFill.Params, batch: seq<SmartFill.Leg>, wallet: Wallet, now: int, u: Unit)
    requires ConfigOk(proto) && Run(proto, states, events) && i < |events| && events[i].Synced?
    requires CachedBook(states[i + 1].cache, rows) && p.maxOrdersPerTx > 0 && IsBatch(rows, p, batch)
    requires CanExecute(proto, wallet, LegOrders(batch), now) && ApiUnit(u)
    ensures Delivers(proto, Utxos(states[i + 1].world.chain), wallet, batch, p, now, u)
  {
    var utxos := Utxos(states[i + 1].world.chain);
    BatchIsGood(rows, p, batch);
    SyncedChainIsClean(proto, states, events, i + 1);
    forall k | 0 <= k < |batch| ensures Current(proto, utxos, batch[k].order) {
      RowIsCurrent(proto, states, events, i, rows, batch[k].order);
    }
    RouteBatchDelivers(proto, utxos, wallet, rows, p, batch, now, u);
  }

  lemma {:induction false} RouteStands(proto: Protocol, states: seq<State>, events: seq<Event>, i: nat, rows: seq<Order>,
                                       p: SmartFill.Params, legs: seq<SmartFill.Leg>)
    requires ConfigOk(proto) && Run(proto, states, events) && i < |events| && events[i].Synced?
    requires CachedBook(states[i + 1].cache, rows) && p.maxOrdersPerTx > 0 && legs == SmartFill.PlannedRoute(rows, p).legs
    ensures GoodBatch(legs, p)
    ensures Sound(proto, states[i + 1].world) && Standing(proto, states[i + 1].world, legs)
  {
    RouteIsGood(rows, p, legs);
    EveryStateTruthful(proto, states, events, i + 1);
    forall k | 0 <= k < |legs| ensures Current(proto, Utxos(states[i + 1].world.chain), legs[k].order) {
      RowIsCurrent(proto, states, events, i, rows, legs[k].order);
    }
  }

  /**
   * And for the whole route, batch after batch: from the cached orders right after a pass,
   * over any later chain on which the earlier batches were posted and nobody took the rest,
   * each next batch is accepted at what it promises; there are as many as the route
   * announces, and together they promise the route's totals.
   */
  lemma {:induction false} RouteDeliversInTurn(proto: Protocol, states: seq<State>, events: seq<Event>, i: nat, rows: seq<Order>,
                                               p: SmartFill.Params, wallet: Wallet, turns: seq<Turn>, others: seq<World>,
                                               w': World, now: int, u: Unit)
    requires ConfigOk(proto) && Run(proto, states, events) && i < |events| && events[i].Synced?
    requires CachedBook(states[i + 1].cache, rows) && p.maxOrdersPerTx > 0 && ApiUnit(u)
    requires var legs := SmartFill.PlannedRoute(rows, p).legs;
      && Turns(proto, wallet, states[i + 1].world, legs, p.maxOrdersPerTx, turns, others, w')
      && |turns| < |Chunks(legs, p.maxOrdersPerTx)|
      && CanExecute(proto, wallet, LegOrders(Chunks(legs, p.maxOrdersPerTx)[|turns|]), now)
    ensures var route := SmartFill.PlannedRoute(rows, p);
      && |Chunks(route.legs, p.maxOrdersPerTx)| == route.transactionCount
      && Delivers(proto, Utxos(w'.chain), wallet, Chunks(route.legs, p.maxOrdersPerTx)[|turns|], p, now, u)
      && SumBy(PromisedOf(p, u), Chunks(route.legs, p.maxOrdersPerTx)) == Promised(route.legs, p, u)
  {
    var legs, w := SmartFill.PlannedRoute(rows, p).legs, states[i + 1].world;
    RouteStands(proto, states, events, i, rows, p, legs);
    ChunkCount(legs, p.maxOrdersPerTx);
    ChunksPromise(legs, p.maxOrdersPerTx, p, u);
    NextBatchDelivers(proto, wallet, w, legs, p, p.maxOrdersPerTx, turns, others, w', now, u);
  }

  // ------------------------------------------- which rows are considered at all

  /** A request for one whole order. */
  function WholeOf(o: Order): seq<TakeLeg> {
    [TakeLeg(OrderId(o.ref), None)]
  }

  /** Right after a pass the current output of a row is still an order exactly when the row is open. */
  lemma {:induction false} RowIsLive(proto: Protocol, states: seq<State>, events: seq<Event>, i: nat, o: Order)
    requires ConfigOk(proto) && Run(proto, states, events) && i < |events| && events[i].Synced?
    requires FromCache(states[i + 1].cache, o)
    ensures var c := states[i + 1].world.chain;
      && IsTxHash(o.ref.txHash) && Terms(o).offeredAmount > 0 && Terms(o).requestedAmount > 0
      && LiveRecord(proto, Utxos(c), o.ref) == if o.status == Open then Some(Terms(o)) else None
  {
    var w := states[i + 1].world;
    SyncShowsFates(proto, states, events, i, o.ref);
    EveryStateTruthful(proto, states, events, i + 1);
    OrderIsPositive(proto, w, o.ref);
    RecordIsLive(proto, w, o);
  }

  lemma {:induction false} RecordIsLive(proto: Protocol, w: World, o: Order)
    requires Ordered(w.chain) && FatesTrue(proto, w) && Some(Terms(o)) == OrderAt(proto, w.chain, o.ref)
    requires o.status == Open ==> LiveOrderAt(proto, w.chain, o.ref).Some?
    requires o.status != Open ==> o.ref in w.fate
    ensures IsTxHash(o.ref.txHash)
    ensures LiveRecord(proto, Utxos(w.chain), o.ref) == if o.status == Open then Some(Terms(o)) else None
  {
    assert o.ref.txHash in w.chain.txs;
    assert w.chain.UnspentAt(o.ref).Some? <==> o.status == Open;
  }

  /** Right after a pass a row can be taken whole exactly when it is open and has not expired. */
  lemma {:induction false} RowIsTakable(proto: Protocol, states: seq<State>, events: seq<Event>, i: nat, rows: seq<Order>, o: Order,
                                        wallet: Wallet, now: int)
    requires ConfigOk(proto) && Run(proto, states, events) && i < |events| && events[i].Synced?
    requires CachedBook(states[i + 1].cache, rows) && o in rows && WalletCanBuild(wallet) && proto.maxOrdersPerTx > 0
    ensures TakeManyOrders(proto, Utxos(states[i + 1].world.chain), wallet, WholeOf(o), now).Ok?
       <==> o.status == Open && !IsOrderExpired(o, now)
    ensures o.offeredAmount > 0 && o.requestedAmount > 0
  {
    var utxos := Utxos(states[i + 1].world.chain);
    var k :| 0 <= k < |rows| && rows[k] == o;
    RowIsLive(proto, states, events, i, o);
    SyncedChainIsClean(proto, states, events, i + 1);
    BatchAcceptedExactly(proto, utxos, wallet, WholeOf(o), now);
    ParsePrinted(o.ref);
    WholeIsTakable(proto, utxos, o, now);
  }

  lemma {:induction false} WholeIsTakable(proto: Protocol, utxos: map<OutRef, TxOut>, o: Order, now: int)
    requires ParseOrderId(OrderId(o.ref)) == Some(o.ref) && Terms(o).offeredAmount > 0 && Terms(o).requestedAmount > 0
    requires LiveRecord(proto, utxos, o.ref) == if o.status == Open then Some(Terms(o)) else None
    ensures AllTakable(proto, utxos, WholeOf(o), now) <==> o.status == Open && !IsOrderExpired(o, now)
    ensures o.offeredAmount == Terms(o).offeredAmount && o.requestedAmount == Terms(o).requestedAmount
  {
    assert Terms(o).expiration == o.expiration;
    assert AllTakable(proto, utxos, WholeOf(o), now) <==> Takable(proto, utxos, WholeOf(o)[0], now);
  }

  /**
   * The planner considers exactly the rows worth considering: right after a pass a row is a
   * candidate if and only if it offers what is wanted for what is spent and the builder
   * would take it whole at that time.
   */
  lemma {:induction false} CandidatesAreTakable(proto: Protocol, states: seq<State>, events: seq<Event>, i: nat, rows: seq<Order>,
                                                o: Order, p: SmartFill.Params, wallet: Wallet)
    requires ConfigOk(proto) && Run(proto, states, events) && i < |events| && events[i].Synced?
    requires CachedBook(states[i + 1].cache, rows) && WalletCanBuild(wallet) && proto.maxOrdersPerTx > 0
    ensures o in SmartFill.Candidates(rows, p) <==>
      && o in rows && OfferedAssetId(o) == p.receiveAsset && RequestedAssetId(o) == p.spendAsset
      && TakeManyOrders(proto, Utxos(states[i + 1].world.chain), wallet, WholeOf(o), p.nowPosixMs).Ok?
  {
    SmartFillProofs.CandidatesAre(rows, p, o);
    if o in rows {
      RowIsTakable(proto, states, events, i, rows, o, wallet, p.nowPosixMs);
    }
  }

  /** And the scanner's book holds exactly the rows the builder would take whole at that time. */
  lemma {:induction false} BookIsTakable(proto: Protocol, states: seq<State>, events: seq<Event>, i: nat, rows: seq<Order>,
                                         o: Order, now: int, wallet: Wallet)
    requires ConfigOk(proto) && Run(proto, states, events) && i < |events| && events[i].Synced?
    requires CachedBook(states[i + 1].cache, rows) && WalletCanBuild(wallet) && proto.maxOrdersPerTx > 0
    ensures o in Book(rows, now)
       <==> o in rows && TakeManyOrders(proto, Utxos(states[i + 1].world.chain), wallet, WholeOf(o), now).Ok?
  {
    BookIs(rows, now, o);
    if o in rows {
      RowIsTakable(proto, states, events, i, rows, o, wallet, now);
    }
  }
}
