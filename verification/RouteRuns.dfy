/**
 * A route executed over time: its batches posted one after another, each on the chain the
 * earlier ones left, with any other transactions in between that leave the route's
 * orders alone. Every next batch is still accepted as promised, and together they
 * deliver the route's totals.
 */
module RouteRuns {
  import opened Wrappers
  import opened Sequences
  import opened Decimals
  import opened Beacons
  import opened Orders
  import opened Ledger
  import opened TxBuilder
  import opened TxBuilderProofs
  import opened ChainModel
  import opened Indexer
  import opened RankPairing
  import opened Batches
  import opened Ancestry
  import opened Runs
  import opened Arbitrage
  import opened Executions
  import opened RouteExecutions
  import SmartFill

  type RouteLegs = seq<SmartFill.Leg>

  // -------------------------------------------------------------- batches

  /** Groups of m legs, the last one what is left. */
  function Chunks(legs: RouteLegs, m: nat): seq<RouteLegs>
    requires m > 0
    decreases |legs|
  {
    if legs == [] then [] else [FirstChunk(legs, m)] + Chunks(AfterChunk(legs, m), m)
  }

  function FirstChunk(legs: RouteLegs, m: nat): RouteLegs {
    if |legs| <= m then legs else legs[..m]
  }

  function AfterChunk(legs: RouteLegs, m: nat): (rest: RouteLegs)
    ensures m > 0 && legs != [] ==> |rest| < |legs|
  {
    if |legs| <= m then [] else legs[m..]
  }

  lemma {:induction false} ChunkParts(legs: RouteLegs, m: nat)
    ensures legs == FirstChunk(legs, m) + AfterChunk(legs, m)
  {
  }

  function From(legs: RouteLegs, i: nat): RouteLegs {
    if i < |legs| then legs[i..] else []
  }

  lemma {:induction false} ChunkStep(groups: seq<RouteLegs>, group: RouteLegs, legs: RouteLegs, i: nat, m: nat)
    requires m > 0 && i < |legs| && group == legs[i..if i + m < |legs| then i + m else |legs|]
    ensures groups + Chunks(From(legs, i), m) == (groups + [group]) + Chunks(From(legs, i + m), m)
  {
    var rest := legs[i..];
    assert From(legs, i) == rest;
    assert FirstChunk(rest, m) == group;
    assert AfterChunk(rest, m) == From(legs, i + m);
    AppendOne(groups, group, Chunks(AfterChunk(rest, m), m));
  }

  method Chunk(legs: RouteLegs, size: nat) returns (groups: seq<RouteLegs>)
    requires size > 0
    ensures groups == Chunks(legs, size)
  {
    groups := [];
    var i := 0;
    assert From(legs, 0) == legs;
    while i < |legs|
      invariant 0 <= i
      invariant groups + Chunks(From(legs, i), size) == Chunks(legs, size)
      decreases |legs| - i
    {
      var group := legs[i..if i + size < |legs| then i + size else |legs|];
      ChunkStep(groups, group, legs, i, size);
      groups := groups + [group];
      i := i + size;
    }
    NothingLeft(groups, legs, i, size);
  }

  lemma {:induction false} NothingLeft(groups: seq<RouteLegs>, legs: RouteLegs, i: nat, m: nat)
    requires m > 0 && i >= |legs|
    ensures groups + Chunks(From(legs, i), m) == groups
  {
  }

  lemma {:induction false} OneMoreBatch(n: int, m: nat)
    requires m > 0 && n >= 0
    ensures (n + m) / m == n / m + 1
  {
    var q := n / m;
    assert q * m <= n < q * m + m;
    assert (q + 1) * m == q * m + m;
    DivModUnique(n + m, q + 1, n - q * m, m);
  }

  /** As many batches as the route announces. */
  lemma {:induction false} ChunkCount(legs: RouteLegs, m: nat)
    requires m > 0
    ensures |Chunks(legs, m)| == SmartFill.BatchCount(|legs|, m)
    decreases |legs|
  {
    if legs == [] {
      DivModUnique(m - 1, 0, m - 1, m);
    } else {
      ChunkCount(AfterChunk(legs, m), m);
      if |legs| > m {
        OneMoreBatch(|legs| - 1, m);
      } else {
        DivModUnique(m - 1, 0, m - 1, m);
        DivModUnique(|legs| + m - 1, 1, |legs| - 1, m);
      }
    }
  }

  /** What the batches promise adds up to what the route promises. */
  lemma {:induction false} ChunksPromise(legs: RouteLegs, m: nat, p: SmartFill.Params, u: Unit)
    requires m > 0 && ApiUnit(u)
    ensures SumBy(PromisedOf(p, u), Chunks(legs, m)) == Promised(legs, p, u)
    decreases |legs|
  {
    if legs != [] {
      var first, rest := FirstChunk(legs, m), AfterChunk(legs, m);
      ChunksPromise(rest, m, p, u);
      ChunkParts(legs, m);
      SumAppend(PromisedOf(p, u), [first], Chunks(rest, m));
      assert [first][..0] == [];
      assert SumBy(PromisedOf(p, u), [first]) == Promised(first, p, u);
      PromisedAppend(first, rest, p, u);
    }
  }

  function PromisedOf(p: SmartFill.Params, u: Unit): RouteLegs -> int
    requires ApiUnit(u)
  {
    (batch: RouteLegs) => Promised(batch, p, u)
  }

  lemma {:induction false} PromisedAppend(a: RouteLegs, b: RouteLegs, p: SmartFill.Params, u: Unit)
    requires ApiUnit(u)
    ensures Promised(a + b, p, u) == Promised(a, p, u) + Promised(b, p, u)
  {
    SmartFill.TotalsAppend(a, b);
    MinAdaAppend(a, b);
  }

  lemma {:induction false} MinAdaAppend(a: RouteLegs, b: RouteLegs)
    ensures BatchMinAda(a + b) == BatchMinAda(a) + BatchMinAda(b)
  {
    if b == [] {
      assert a + b == a;
    } else {
      var init := b[..|b| - 1];
      MinAdaAppend(a, init);
      assert ExecutedLegs(a + b)[..|a + b| - 1] == ExecutedLegs(a + init);
      assert ExecutedLegs(b)[..|b| - 1] == ExecutedLegs(init);
    }
  }

  // -------------------------------------------------------- orders that stand

  /** An order nobody spent is still current on the later chain. */
  lemma {:induction false} CurrentStays(proto: Protocol, c: Chain, c': Chain, o: Order)
    requires Current(proto, Utxos(c), o) && Grows(c, c') && o.ref !in c'.spentBy
    ensures Current(proto, Utxos(c'), o)
  {
    assert c.UnspentAt(o.ref).Some?;
    OutputStays(c, c', o.ref);
  }

  ghost predicate Standing(proto: Protocol, w: World, legs: RouteLegs) {
    AllCurrent(proto, Utxos(w.chain), legs)
  }

  ghost predicate AnyStep(proto: Protocol, w: World, w': World) {
    exists a, now, p :: ChainStep(proto, w, a, now, p, w')
  }

  /** Any chain transactions, one after another. */
  ghost predicate Goes(proto: Protocol, w: World, path: seq<World>, w': World)
    decreases |path|
  {
    if path == [] then w' == w else AnyStep(proto, w, path[0]) && Goes(proto, path[0], path[1..], w')
  }

  lemma {:induction false} LaterTwice(a: World, b: World, c: World)
    requires Later(a, b) && Later(b, c)
    ensures Later(a, c)
  {
  }

  lemma {:induction false} GoesKeepsSound(proto: Protocol, w: World, path: seq<World>, w': World)
    requires ConfigOk(proto) && Sound(proto, w) && Goes(proto, w, path, w')
    ensures Sound(proto, w') && Later(w, w')
    decreases |path|
  {
    if path != [] {
      var a, now, p :| ChainStep(proto, w, a, now, p, path[0]);
      StepKeepsSound(proto, w, a, now, p, path[0]);
      GoesKeepsSound(proto, path[0], path[1..], w');
      LaterTwice(w, path[0], w');
    }
  }

  /** Transactions that leave the orders of these legs alone. */
  ghost predicate Waits(proto: Protocol, w: World, path: seq<World>, w': World, legs: RouteLegs) {
    Goes(proto, w, path, w') && forall i | 0 <= i < |legs| :: legs[i].order.ref !in w'.chain.spentBy
  }

  lemma {:induction false} WaitingStands(proto: Protocol, w: World, path: seq<World>, w': World, legs: RouteLegs)
    requires ConfigOk(proto) && Sound(proto, w) && Waits(proto, w, path, w', legs) && Standing(proto, w, legs)
    ensures Sound(proto, w') && Standing(proto, w', legs)
  {
    GoesKeepsSound(proto, w, path, w');
    forall i | 0 <= i < |legs| ensures Current(proto, Utxos(w'.chain), legs[i].order) {
      CurrentStays(proto, w.chain, w'.chain, legs[i].order);
    }
  }

  lemma {:induction false} LegsOfAreRequested(proto: Protocol, utxos: map<OutRef, TxOut>, wallet: Wallet, orders: seq<TakeLeg>, now: int)
    requires BeaconsOnlyInOrders(proto, utxos) && TakeManyOrders(proto, utxos, wallet, orders, now).Ok?
    ensures forall k | 0 <= k < |Runs.LegsOf(proto, utxos, orders)| ::
      Requested(orders, Runs.LegsOf(proto, utxos, orders)[k].ref)
  {
    var rs, legs := AcceptedSteps(proto, utxos, wallet, orders, now);
    ResolvedAreGood(proto, utxos, orders, rs);
    LegsAreRequested(proto, utxos, orders, rs, legs);
  }

  /** A posted batch spends no order but those it was asked to. */
  lemma {:induction false} BatchSpendsRequested(proto: Protocol, w: World, wallet: Wallet, orders: seq<TakeLeg>, now: int,
                                                p: Posting, w': World, ref: OutRef)
    requires AllClean(proto, w.chain) && ChainStep(proto, w, TakeBatch(wallet, orders), now, p, w')
    requires ref in p.tx.inputs && OrderAt(proto, w.chain, ref).Some?
    ensures Requested(orders, ref)
  {
    var legs := BatchPosted(proto, w, wallet, orders, now, p, w');
    BatchHasLayout(proto, legs, p.tx, p.wallet, p.change);
    UtxosAreClean(proto, w.chain);
    LegsOfAreRequested(proto, Utxos(w.chain), wallet, orders, now);
    if ref in p.wallet {
      BeaconlessNotCached(proto, w.chain, ref);
    }
    assert HasInput(LegInputs(legs), ref);
    var k :| 0 <= k < |legs| && LegInputs(legs)[k].ref == ref;
    assert legs[k].ref == ref;
  }

  lemma {:induction false} RequestedIsInBatch(batch: RouteLegs, ref: OutRef) returns (i: nat)
    requires Requested(Requests(batch), ref) && forall k | 0 <= k < |batch| :: IsTxHash(batch[k].order.ref.txHash)
    ensures i < |batch| && batch[i].order.ref == ref
  {
    i :| 0 <= i < |batch| && ParseOrderId(Requests(batch)[i].orderId) == Some(ref);
    ParsePrinted(batch[i].order.ref);
  }

  ghost predicate Apart(batch: RouteLegs, rest: RouteLegs) {
    forall i, j | 0 <= i < |batch| && 0 <= j < |rest| :: batch[i].order.ref != rest[j].order.ref
  }

  /** Posting one batch leaves the orders of the others as they stand. */
  lemma {:induction false} PostingStands(proto: Protocol, w: World, wallet: Wallet, batch: RouteLegs, rest: RouteLegs, now: int,
                                         p: Posting, w': World)
    requires ConfigOk(proto) && Sound(proto, w) && ChainStep(proto, w, TakeBatch(wallet, Requests(batch)), now, p, w')
    requires Standing(proto, w, batch) && Standing(proto, w, rest) && Apart(batch, rest)
    ensures Sound(proto, w') && Standing(proto, w', rest)
  {
    StepKeepsSound(proto, w, TakeBatch(wallet, Requests(batch)), now, p, w');
    forall j | 0 <= j < |rest| ensures Stands(proto, Utxos(w'.chain))(rest[j]) {
      assert Stands(proto, Utxos(w.chain))(rest[j]);
      RestStands(proto, w, wallet, batch, rest[j].order, now, p, w');
    }
  }

  lemma {:induction false} RestStands(proto: Protocol, w: World, wallet: Wallet, batch: RouteLegs, o: Order, now: int,
                                      p: Posting, w': World)
    requires AllClean(proto, w.chain) && ChainStep(proto, w, TakeBatch(wallet, Requests(batch)), now, p, w')
    requires Grows(w.chain, w'.chain) && Standing(proto, w, batch) && Current(proto, Utxos(w.chain), o)
    requires forall i | 0 <= i < |batch| :: batch[i].order.ref != o.ref
    ensures Current(proto, Utxos(w'.chain), o)
  {
    RestUnspent(proto, w, wallet, batch, o, now, p, w');
    CurrentStays(proto, w.chain, w'.chain, o);
  }

  lemma {:induction false} RestUnspent(proto: Protocol, w: World, wallet: Wallet, batch: RouteLegs, o: Order, now: int,
                                       p: Posting, w': World)
    requires AllClean(proto, w.chain) && ChainStep(proto, w, TakeBatch(wallet, Requests(batch)), now, p, w')
    requires Standing(proto, w, batch) && Current(proto, Utxos(w.chain), o)
    requires forall i | 0 <= i < |batch| :: batch[i].order.ref != o.ref
    ensures o.ref !in w'.chain.spentBy
  {
    assert w.chain.UnspentAt(o.ref).Some? && OrderAt(proto, w.chain, o.ref).Some?;
    if o.ref in p.tx.inputs {
      BatchSpendsRequested(proto, w, wallet, Requests(batch), now, p, w', o.ref);
      assert forall k | 0 <= k < |batch| :: Current(proto, Utxos(w.chain), batch[k].order);
      var i := RequestedIsInBatch(batch, o.ref);
    }
  }

  // ------------------------------------------------------------- turn by turn

  /** A batch's turn: others' transactions, then the batch itself. */
  datatype Turn = Turn(others: seq<World>, before: World, now: int, posting: Posting, after: World)

  /** The legs left once n batches had their turn. */
  function AfterTurns(legs: RouteLegs, m: nat, n: nat): RouteLegs
    decreases n
  {
    if n == 0 then legs else AfterChunk(AfterTurns(legs, m, n - 1), m)
  }

  /** Where turn k starts from. */
  function StartOf(w: World, turns: seq<Turn>, k: nat): World
    requires k <= |turns|
  {
    if k == 0 then w else turns[k - 1].after
  }

  /** In turn k others act without touching the legs left, then the next batch of them is posted. */
  ghost predicate TakesTurn(proto: Protocol, wallet: Wallet, w: World, legs: RouteLegs, m: nat, turns: seq<Turn>, k: nat) {
    k < |turns| &&
    var t, left := turns[k], AfterTurns(legs, m, k);
    && Waits(proto, StartOf(w, turns, k), t.others, t.before, left)
    && ChainStep(proto, t.before, TakeBatch(wallet, Requests(FirstChunk(left, m))), t.now, t.posting, t.after)
  }

  /** From w to w' the first batches of the legs are posted, one a turn, and others act in between. */
  ghost predicate Turns(proto: Protocol, wallet: Wallet, w: World, legs: RouteLegs, m: nat, turns: seq<Turn>,
                        others: seq<World>, w': World) {
    && (forall k: nat | k < |turns| :: TakesTurn(proto, wallet, w, legs, m, turns, k))
    && Waits(proto, StartOf(w, turns, |turns|), others, w', AfterTurns(legs, m, |turns|))
  }

  lemma {:induction false} ChunkSplits(legs: RouteLegs, m: nat, p: SmartFill.Params)
    requires m > 0 && GoodBatch(legs, p)
    ensures GoodBatch(FirstChunk(legs, m), p) && GoodBatch(AfterChunk(legs, m), p)
    ensures Apart(FirstChunk(legs, m), AfterChunk(legs, m))
  {
    var first, rest := FirstChunk(legs, m), AfterChunk(legs, m);
    ChunkParts(legs, m);
    assert first == legs[..|first|] && rest == legs[|first|..|legs|];
    assert IsSlice(legs, legs[0..|first|]) && IsSlice(legs, legs[|first|..|legs|]);
    assert legs[0..|first|] == first;
    SliceIsGood(legs, p, first);
    SliceIsGood(legs, p, rest);
    forall i, j | 0 <= i < |first| && 0 <= j < |rest| ensures first[i].order.ref != rest[j].order.ref {
      assert first[i] == legs[i] && rest[j] == legs[|first| + j];
    }
  }

  lemma {:induction false} StandingSplits(proto: Protocol, w: World, legs: RouteLegs, m: nat)
    requires Standing(proto, w, legs)
    ensures Standing(proto, w, FirstChunk(legs, m)) && Standing(proto, w, AfterChunk(legs, m))
  {
    ChunkParts(legs, m);
    EachOfParts(Stands(proto, Utxos(w.chain)), FirstChunk(legs, m), AfterChunk(legs, m));
  }

  lemma {:induction false} ChunksAfter(legs: RouteLegs, m: nat, n: nat)
    requires m > 0 && n <= |Chunks(legs, m)|
    ensures Chunks(AfterTurns(legs, m, n), m) == Chunks(legs, m)[n..]
    decreases n
  {
    if n > 0 {
      ChunksAfter(legs, m, n - 1);
      DropFirst(Chunks(legs, m), n - 1, FirstChunk(AfterTurns(legs, m, n - 1), m), Chunks(AfterTurns(legs, m, n), m));
    }
  }

  lemma {:induction false} DropFirst(s: seq<RouteLegs>, n: nat, first: RouteLegs, rest: seq<RouteLegs>)
    requires n < |s| && s[n..] == [first] + rest
    ensures s[n + 1..] == rest && s[n] == first
  {
    assert s[n..][1..] == s[n + 1..] && s[n..][0] == s[n];
  }

  lemma {:induction false} GoodAfter(legs: RouteLegs, m: nat, n: nat, p: SmartFill.Params)
    requires m > 0 && GoodBatch(legs, p)
    ensures GoodBatch(AfterTurns(legs, m, n), p)
    decreases n
  {
    if n > 0 {
      GoodAfter(legs, m, n - 1, p);
      ChunkSplits(AfterTurns(legs, m, n - 1), m, p);
    }
  }

  lemma {:induction false} NextChunk(legs: RouteLegs, m: nat, n: nat, p: SmartFill.Params)
    requires m > 0 && n < |Chunks(legs, m)| && GoodBatch(legs, p)
    ensures Chunks(legs, m)[n] == FirstChunk(AfterTurns(legs, m, n), m) && GoodBatch(AfterTurns(legs, m, n), p)
  {
    ChunksAfter(legs, m, n);
    assert Chunks(legs, m)[n] == Chunks(legs, m)[n..][0];
    GoodAfter(legs, m, n, p);
  }

  /** When turn k starts, the world is sound and the orders of the legs left stand. */
  ghost predicate Underway(proto: Protocol, w: World, legs: RouteLegs, m: nat, turns: seq<Turn>, k: nat) {
    k <= |turns| && Sound(proto, StartOf(w, turns, k)) && Standing(proto, StartOf(w, turns, k), AfterTurns(legs, m, k))
  }

  lemma {:induction false} TurnKeeps(proto: Protocol, wallet: Wallet, w: World, legs: RouteLegs, p: SmartFill.Params, m: nat,
                                     turns: seq<Turn>, k: nat)
    requires ConfigOk(proto) && m > 0 && GoodBatch(legs, p)
    requires Underway(proto, w, legs, m, turns, k) && TakesTurn(proto, wallet, w, legs, m, turns, k)
    ensures Underway(proto, w, legs, m, turns, k + 1)
  {
    GoodAfter(legs, m, k, p);
    ChunkSplits(AfterTurns(legs, m, k), m, p);
    TurnStands(proto, wallet, StartOf(w, turns, k), AfterTurns(legs, m, k), m, turns[k]);
  }

  ghost function AtTurn(proto: Protocol, w: World, legs: RouteLegs, m: nat, turns: seq<Turn>): nat -> bool {
    (k: nat) => Underway(proto, w, legs, m, turns, k)
  }

  lemma {:induction false} EachTurnKeeps(proto: Protocol, wallet: Wallet, w: World, legs: RouteLegs, p: SmartFill.Params, m: nat,
                                         turns: seq<Turn>, underway: nat -> bool)
    requires ConfigOk(proto) && m > 0 && GoodBatch(legs, p)
    requires forall k: nat | k < |turns| :: TakesTurn(proto, wallet, w, legs, m, turns, k)
    requires forall k: nat :: underway(k) <==> Underway(proto, w, legs, m, turns, k)
    ensures forall k: nat | k < |turns| :: CarriesOver(underway, k)
  {
    forall k: nat | k < |turns| ensures CarriesOver(underway, k) {
      assert TakesTurn(proto, wallet, w, legs, m, turns, k);
      if underway(k) {
        TurnKeeps(proto, wallet, w, legs, p, m, turns, k);
      }
    }
  }

  lemma {:induction false} TurnsKeep(proto: Protocol, wallet: Wallet, w: World, legs: RouteLegs, p: SmartFill.Params, m: nat,
                                     turns: seq<Turn>, others: seq<World>, w': World)
    requires ConfigOk(proto) && Sound(proto, w) && m > 0 && GoodBatch(legs, p) && Standing(proto, w, legs)
    requires Turns(proto, wallet, w, legs, m, turns, others, w')
    ensures Underway(proto, w, legs, m, turns, |turns|)
  {
    EachTurnKeeps(proto, wallet, w, legs, p, m, turns, AtTurn(proto, w, legs, m, turns));
    Climb(AtTurn(proto, w, legs, m, turns), |turns|);
  }

  /**
   * Whichever batches have had their turn, the next one is accepted whole on the chain as
   * it then stands, at exactly what it promises.
   */
  lemma {:induction false} NextBatchDelivers(proto: Protocol, wallet: Wallet, w: World, legs: RouteLegs, p: SmartFill.Params,
                                             m: nat, turns: seq<Turn>, others: seq<World>, w': World, now: int, u: Unit)
    requires ConfigOk(proto) && Sound(proto, w) && m > 0 && GoodBatch(legs, p) && Standing(proto, w, legs)
    requires Turns(proto, wallet, w, legs, m, turns, others, w') && |turns| < |Chunks(legs, m)|
    requires CanExecute(proto, wallet, LegOrders(Chunks(legs, m)[|turns|]), now) && ApiUnit(u)
    ensures Delivers(proto, Utxos(w'.chain), wallet, Chunks(legs, m)[|turns|], p, now, u)
  {
    TurnsKeep(proto, wallet, w, legs, p, m, turns, others, w');
    WaitingStands(proto, StartOf(w, turns, |turns|), others, w', AfterTurns(legs, m, |turns|));
    NextChunk(legs, m, |turns|, p);
    StandingBatchDelivers(proto, wallet, AfterTurns(legs, m, |turns|), p, m, w', now, u);
  }

  lemma {:induction false} StandingBatchDelivers(proto: Protocol, wallet: Wallet, legs: RouteLegs, p: SmartFill.Params,
                                                 m: nat, w: World, now: int, u: Unit)
    requires AllClean(proto, w.chain) && m > 0 && GoodBatch(legs, p) && Standing(proto, w, legs)
    requires CanExecute(proto, wallet, LegOrders(FirstChunk(legs, m)), now) && ApiUnit(u)
    ensures Delivers(proto, Utxos(w.chain), wallet, FirstChunk(legs, m), p, now, u)
  {
    ChunkSplits(legs, m, p);
    StandingSplits(proto, w, legs, m);
    UtxosAreClean(proto, w.chain);
    GoodBatchDelivers(proto, Utxos(w.chain), wallet, FirstChunk(legs, m), p, now, u);
  }

  lemma {:induction false} TurnStands(proto: Protocol, wallet: Wallet, w: World, legs: RouteLegs, m: nat, t: Turn)
    requires ConfigOk(proto) && Sound(proto, w) && m > 0 && Standing(proto, w, legs)
    requires Apart(FirstChunk(legs, m), AfterChunk(legs, m)) && Waits(proto, w, t.others, t.before, legs)
    requires ChainStep(proto, t.before, TakeBatch(wallet, Requests(FirstChunk(legs, m))), t.now, t.posting, t.after)
    ensures Sound(proto, t.after) && Standing(proto, t.after, AfterChunk(legs, m))
  {
    WaitingStands(proto, w, t.others, t.before, legs);
    StandingSplits(proto, t.before, legs, m);
    PostingStands(proto, t.before, wallet, FirstChunk(legs, m), AfterChunk(legs, m), t.now, t.posting, t.after);
  }
}
