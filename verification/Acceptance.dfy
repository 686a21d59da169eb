/**
 * When the builder accepts a request. Seen from the indexer's records: a batch is built
 * exactly when each order it names is live, unexpired and may be taken as asked, a
 * cancellation exactly when its order is live, and a creation exactly when some order
 * of the protocol can carry what it asks for.
 */
module Acceptance {
  import opened Wrappers
  import opened Sequences
  import opened Sorting
  import opened Pricing
  import opened Beacons
  import opened Orders
  import opened OrderDatum
  import opened Ledger
  import opened TxBuilder
  import opened TxBuilderProofs
  import opened ChainModel
  import opened Indexer
  import opened Batches
  import opened Closure
  import opened Runs
  import opened Executions

  // ------------------------------------------------------------- batches

  /** The indexer's record of the unspent output at a reference, if it is an order. */
  function LiveRecord(proto: Protocol, utxos: map<OutRef, TxOut>, ref: OutRef): Option<Order> {
    if ref in utxos then ValidateAndMap(proto, ref, utxos[ref]) else None
  }

  /** The order can be taken as asked: whole, or in a part that leaves something on both sides. */
  predicate TakesFrom(o: Order, takeAmount: Option<int>, now: int) {
    && !IsOrderExpired(o, now) && o.offeredAmount > 0 && o.requestedAmount > 0
    && (takeAmount.Some? ==>
          o.allowPartialFill && AcceptedTake(takeAmount.value, o.requestedAmount, o.offeredAmount))
  }

  predicate Takable(proto: Protocol, utxos: map<OutRef, TxOut>, o: TakeLeg, now: int) {
    var ref := ParseOrderId(o.orderId);
    && ref.Some? && LiveRecord(proto, utxos, ref.value).Some?
    && TakesFrom(LiveRecord(proto, utxos, ref.value).value, o.takeAmount, now)
  }

  ghost predicate AllTakable(proto: Protocol, utxos: map<OutRef, TxOut>, orders: seq<TakeLeg>, now: int) {
    forall i | 0 <= i < |orders| :: Takable(proto, utxos, orders[i], now)
  }

  /** A resolved request and the record of its order speak of the same terms. */
  lemma {:induction false} ResolvedIsRecord(proto: Protocol, utxos: map<OutRef, TxOut>, o: TakeLeg, r: Resolved, now: int)
    requires Answers(proto, utxos, o, r)
    ensures Takable(proto, utxos, o, now) <==> PriceLeg(r).Some? && !Expired(r, now)
  {
    ExactOrderIsIndexed(proto, r.ref, r.output, r.datum, r.deposit);
    assert LiveRecord(proto, utxos, r.ref) == Some(Closure.Record(r.ref, r.output.address, r.datum, r.deposit));
  }

  /** The builder resolves exactly what the indexer has a record of. */
  lemma {:induction false} RecordResolves(proto: Protocol, utxos: map<OutRef, TxOut>, orderId: string)
    requires BeaconsOnlyInOrders(proto, utxos)
    ensures ResolveOrder(proto, utxos, orderId).Ok?
       <==> ParseOrderId(orderId).Some? && LiveRecord(proto, utxos, ParseOrderId(orderId).value).Some?
  {
    var ref := ParseOrderId(orderId);
    if ref.Some? && ref.value in utxos {
      IndexerAgreesWithBuilder(proto, ref.value, utxos[ref.value]);
    }
  }

  lemma {:induction false} AllResolve(proto: Protocol, utxos: map<OutRef, TxOut>, orders: seq<TakeLeg>, now: int) returns (rs: seq<Resolved>)
    requires BeaconsOnlyInOrders(proto, utxos) && AllTakable(proto, utxos, orders, now)
    ensures ResolveAll(proto, utxos, orders) == Ok(rs)
  {
    rs := [];
    if orders != [] {
      var init, last := orders[..|orders| - 1], orders[|orders| - 1];
      forall i | 0 <= i < |init| ensures Takable(proto, utxos, init[i], now) {
        assert init[i] == orders[i];
      }
      rs := AllResolve(proto, utxos, init, now);
      assert Takable(proto, utxos, last, now);
      RecordResolves(proto, utxos, last.orderId);
      var r := ResolveOrder(proto, utxos, last.orderId).value.(takeAmount := last.takeAmount);
      ResolveSnoc(proto, utxos, orders, rs, r);
      rs := rs + [r];
    }
  }

  lemma {:induction false} EachIsPriced(rs: seq<Resolved>, k: nat)
    requires PriceAll(rs).Some? && k < |rs|
    ensures PriceLeg(rs[k]).Some?
  {
    if k < |rs| - 1 {
      EachIsPriced(rs[..|rs| - 1], k);
    }
  }

  ghost predicate AllPriced(rs: seq<Resolved>, now: int) {
    forall i | 0 <= i < |rs| :: PriceLeg(rs[i]).Some? && !Expired(rs[i], now)
  }

  /** Sorting changes neither what is priced nor what is expired. */
  lemma {:induction false} SortedPriced(rs: seq<Resolved>, now: int)
    ensures AllPriced(rs, now) <==> PriceAll(Sort(LegBefore, rs)).Some? && !AnyExpired(Sort(LegBefore, rs), now)
  {
    var sorted := Sort(LegBefore, rs);
    SortKeepsElements(LegBefore, rs);
    if AllPriced(rs, now) {
      forall i | 0 <= i < |sorted| ensures PriceLeg(sorted[i]).Some? && !Expired(sorted[i], now) {
        assert sorted[i] in sorted;
        var k :| 0 <= k < |rs| && rs[k] == sorted[i];
      }
      PricedGains(sorted, Lovelace);
    }
    if PriceAll(sorted).Some? && !AnyExpired(sorted, now) {
      forall i | 0 <= i < |rs| ensures PriceLeg(rs[i]).Some? && !Expired(rs[i], now) {
        assert rs[i] in rs;
        var k :| 0 <= k < |sorted| && sorted[k] == rs[i];
        EachIsPriced(sorted, k);
      }
    }
  }

  lemma {:induction false} TakableArePriced(proto: Protocol, utxos: map<OutRef, TxOut>, orders: seq<TakeLeg>, rs: seq<Resolved>, now: int)
    requires AllAnswered(proto, utxos, orders, rs)
    ensures AllTakable(proto, utxos, orders, now) <==> AllPriced(rs, now)
  {
    forall i | 0 <= i < |orders|
      ensures Takable(proto, utxos, orders[i], now) <==> PriceLeg(rs[i]).Some? && !Expired(rs[i], now) {
      assert Answers(proto, utxos, orders[i], rs[i]);
      ResolvedIsRecord(proto, utxos, orders[i], rs[i], now);
    }
  }

  /** No id is given twice, and there is room for all of them. */
  ghost predicate WellFormedRequest(proto: Protocol, orders: seq<TakeLeg>) {
    && 0 < |orders| <= proto.maxOrdersPerTx
    && forall i, j | 0 <= i < j < |orders| :: orders[i].orderId != orders[j].orderId
  }

  lemma {:induction false} IdsAtMost(s: seq<TakeLeg>)
    ensures |OrderIds(s)| <= |s|
  {
    if s != [] {
      var init, last := s[..|s| - 1], s[|s| - 1];
      IdsAtMost(init);
      assert s == init + [last];
      assert OrderIds(s) == OrderIds(init) + {last.orderId};
    }
  }

  lemma {:induction false} RepeatedId(s: seq<TakeLeg>, i: nat, j: nat)
    requires i < j < |s| && s[i].orderId == s[j].orderId
    ensures |OrderIds(s)| < |s|
  {
    var rest := Without(s, j);
    IdsAtMost(rest);
    assert rest[i] == s[i];
    forall id ensures id in OrderIds(s) <==> id in OrderIds(rest) {
      if id in OrderIds(s) {
        var k :| 0 <= k < |s| && s[k].orderId == id;
        assert rest[if k == j then i else if k < j then k else k - 1].orderId == id;
      }
    }
    assert OrderIds(s) == OrderIds(rest);
  }

  lemma {:induction false} DistinctIdsCount(s: seq<TakeLeg>)
    ensures |OrderIds(s)| == |s| <==> forall i, j | 0 <= i < j < |s| :: s[i].orderId != s[j].orderId
  {
    if forall i, j | 0 <= i < j < |s| :: s[i].orderId != s[j].orderId {
      Executions.DistinctIds(s);
    } else {
      var i: nat, j: nat :| i < j < |s| && s[i].orderId == s[j].orderId;
      RepeatedId(s, i, j);
    }
  }

  /**
   * A batch is built exactly when the request is well formed, the wallet can pay, and the
   * indexer's view of each order lets it be taken as asked.
   */
  lemma {:induction false} BatchAcceptedExactly(proto: Protocol, utxos: map<OutRef, TxOut>, wallet: Wallet, orders: seq<TakeLeg>, now: int)
    requires BeaconsOnlyInOrders(proto, utxos)
    ensures TakeManyOrders(proto, utxos, wallet, orders, now).Ok?
       <==> WellFormedRequest(proto, orders) && WalletCanBuild(wallet) && AllTakable(proto, utxos, orders, now)
  {
    DistinctIdsCount(orders);
    if TakeManyOrders(proto, utxos, wallet, orders, now).Ok? {
      var rs, legs := AcceptedSteps(proto, utxos, wallet, orders, now);
      ResolvedAreGood(proto, utxos, orders, rs);
      SortedPriced(rs, now);
      TakableArePriced(proto, utxos, orders, rs, now);
    }
    if WellFormedRequest(proto, orders) && WalletCanBuild(wallet) && AllTakable(proto, utxos, orders, now) {
      var rs := AllResolve(proto, utxos, orders, now);
      ResolvedAreGood(proto, utxos, orders, rs);
      TakableArePriced(proto, utxos, orders, rs, now);
      SortedPriced(rs, now);
      BuildsLegs(proto, utxos, wallet, orders, now, rs);
    }
  }

  // -------------------------------------------------------- cancellations

  /** A cancellation is built exactly when its order is live, and it needs the signature of the key the order is staked to. */
  lemma {:induction false} CancelAcceptedExactly(proto: Protocol, utxos: map<OutRef, TxOut>, wallet: Wallet, orderId: string)
    requires BeaconsOnlyInOrders(proto, utxos)
    ensures var r, ref := BuildCancelOrder(proto, utxos, wallet, orderId), ParseOrderId(orderId);
      && (r.Ok? <==> ref.Some? && LiveRecord(proto, utxos, ref.value).Some? && WalletCanBuild(wallet))
      && (r.Ok? ==>
            && r.value.inputs == [ScriptInput(ref.value, Cancel)] && r.value.outputs == [] && r.value.invalidHereafter == None
            && r.value.requiredSigner.Some?
            && utxos[ref.value].address.stake == Some(KeyHash(r.value.requiredSigner.value)))
  {
    RecordResolves(proto, utxos, orderId);
    var ref := ParseOrderId(orderId);
    if ref.Some? && LiveRecord(proto, utxos, ref.value).Some? {
      var out := utxos[ref.value];
      IndexerAgreesWithBuilder(proto, ref.value, out);
      var d, deposit :| ExactOrder(proto, out, d, deposit);
      ExactOrderResolves(proto, ref.value, out, d, deposit);
    }
  }

  // ------------------------------------------------------------- creations

  /**
   * A creation is built exactly when the two ids differ as text, the wallet can pay, and
   * some unexpired order of the protocol carries what it asks for, paying the address it
   * asks to be paid at.
   */
  lemma {:induction false} CreateAcceptedExactly(proto: Protocol, p: CreateParams, now: int)
    requires ConfigOk(proto) && AddressOk(p.wallet.changeAddress)
    requires p.paymentAddress.Some? ==> AddressOk(p.paymentAddress.value)
    ensures BuildCreateOrder(proto, p, now).Ok? <==>
      && p.offerAsset != p.askAsset && WalletCanBuild(p.wallet)
      && (p.expiration.Some? ==> now < p.expiration.value)
      && exists d, payee :: Fulfils(proto, p, d, payee)
  {
    if BuildCreateOrder(proto, p, now).Ok? {
      var d, payee := CreateMakesAnOrder(proto, p, now);
    }
  }
}
