/**
 * From an accepted batch request to the legs it builds: one per request, re-read from
 * the chain; in the ledger's input order exactly when no output is named twice.
 */
module Batches {
  import opened Wrappers
  import opened ByteStrings
  import opened Sequences
  import opened Sorting
  import opened Orders
  import opened OrderDatum
  import opened Ledger
  import opened TxBuilder
  import opened TxBuilderProofs
  import opened RankPairing

  // -------------------------------------------- requests that name one output twice

  /** The requested ids name distinct outputs. */
  ghost predicate DistinctRequests(orders: seq<TakeLeg>) {
    forall i, j | 0 <= i < j < |orders| :: ParseOrderId(orders[i].orderId) != ParseOrderId(orders[j].orderId)
  }

  ghost predicate AllParse(orders: seq<TakeLeg>) {
    forall i | 0 <= i < |orders| :: ParseOrderId(orders[i].orderId).Some?
  }

  /** Distinct outputs are named exactly when the ids stay distinct without leading zeros. */
  lemma {:induction false} DistinctUnpadded(orders: seq<TakeLeg>)
    requires AllParse(orders)
    ensures DistinctRequests(orders) <==>
      forall i, j | 0 <= i < j < |orders| :: Unpadded(orders[i].orderId) != Unpadded(orders[j].orderId)
  {
    forall i, j | 0 <= i < j < |orders|
      ensures ParseOrderId(orders[i].orderId) == ParseOrderId(orders[j].orderId)
         <==> Unpadded(orders[i].orderId) == Unpadded(orders[j].orderId) {
      SameOutputSameId(orders[i].orderId, orders[j].orderId);
    }
  }

  lemma {:induction false} ResolveSnoc(proto: Protocol, utxos: map<OutRef, TxOut>, orders: seq<TakeLeg>,
                                       init: seq<Resolved>, r: Resolved)
    requires orders != [] && ResolveAll(proto, utxos, orders[..|orders| - 1]) == Ok(init)
    requires ResolveOrder(proto, utxos, orders[|orders| - 1].orderId).Ok?
    requires r == ResolveOrder(proto, utxos, orders[|orders| - 1].orderId).value
                    .(takeAmount := orders[|orders| - 1].takeAmount)
    ensures ResolveAll(proto, utxos, orders) == Ok(init + [r])
  {
  }

  lemma {:induction false} BuildsLegs(proto: Protocol, utxos: map<OutRef, TxOut>, wallet: Wallet,
                                      orders: seq<TakeLeg>, now: int, rs: seq<Resolved>)
    requires 0 < |orders| <= proto.maxOrdersPerTx && |OrderIds(orders)| == |orders| && WalletCanBuild(wallet)
    requires ResolveAll(proto, utxos, orders) == Ok(rs)
    requires !AnyExpired(Sort(LegBefore, rs), now) && PriceAll(Sort(LegBefore, rs)).Some?
    ensures TakeManyOrders(proto, utxos, wallet, orders, now)
         == Ok(TakeLegs(proto, PriceAll(Sort(LegBefore, rs)).value))
  {
  }

  /** A request of one leg: what it resolves to and the leg it becomes. */
  lemma {:induction false} OneLeg(proto: Protocol, utxos: map<OutRef, TxOut>, wallet: Wallet, o: TakeLeg, now: int)
    returns (r: Resolved, l: Leg)
    requires TakeManyOrders(proto, utxos, wallet, [o], now).Ok?
    ensures ResolveOrder(proto, utxos, o.orderId).Ok? && ResolveAll(proto, utxos, [o]) == Ok([r])
    ensures r == ResolveOrder(proto, utxos, o.orderId).value.(takeAmount := o.takeAmount)
    ensures !Expired(r, now) && PriceLeg(r) == Some(l) && WalletCanBuild(wallet)
    ensures ParseOrderId(o.orderId) == Some(l.ref)
  {
    var rs, legs := AcceptedSteps(proto, utxos, wallet, [o], now);
    r := OneResolved(proto, utxos, o, rs);
    SortedOne(r);
    l := OnePriced(r, legs);
    assert !Expired([r][0], now);
  }

  lemma {:induction false} OneResolved(proto: Protocol, utxos: map<OutRef, TxOut>, o: TakeLeg, rs: seq<Resolved>) returns (r: Resolved)
    requires ResolveAll(proto, utxos, [o]) == Ok(rs)
    ensures rs == [r] && ResolveOrder(proto, utxos, o.orderId).Ok? && ParseOrderId(o.orderId) == Some(r.ref)
    ensures r == ResolveOrder(proto, utxos, o.orderId).value.(takeAmount := o.takeAmount)
  {
    assert [o][..|[o]| - 1] == [] && [o][|[o]| - 1] == o;
    assert ResolveAll(proto, utxos, []) == Ok([]);
    r := ResolveOrder(proto, utxos, o.orderId).value.(takeAmount := o.takeAmount);
    assert [] + [r] == [r];
  }

  lemma {:induction false} OnePriced(r: Resolved, legs: seq<Leg>) returns (l: Leg)
    requires PriceAll([r]) == Some(legs)
    ensures legs == [l] && PriceLeg(r) == Some(l) && l.ref == r.ref
  {
    assert [r][..|[r]| - 1] == [] && [r][|[r]| - 1] == r;
    assert PriceAll([]) == Some([]);
    l := PriceLeg(r).value;
    assert [] + [l] == [l];
  }

  lemma {:induction false} SortedOne(r: Resolved)
    ensures Sort(LegBefore, [r]) == [r]
  {
    var sorted := Sort(LegBefore, [r]);
    SortKeepsElements(LegBefore, [r]);
    assert sorted[0] in sorted;
  }

  lemma {:induction false} SortedTwins(r: Resolved)
    ensures Sort(LegBefore, [r, r]) == [r, r]
  {
    var sorted := Sort(LegBefore, [r, r]);
    SortKeepsElements(LegBefore, [r, r]);
    assert sorted[0] in sorted && sorted[1] in sorted;
  }

  lemma {:induction false} PricedTwins(r: Resolved, l: Leg)
    requires PriceLeg(r) == Some(l)
    ensures PriceAll([r, r]) == Some([l, l])
  {
    assert [r, r][..1] == [r] && [r][..0] == [];
    assert PriceAll([r]) == Some([] + [l]);
    assert [] + [l] == [l] && [l] + [l] == [l, l];
  }

  lemma {:induction false} ResolvedTwins(proto: Protocol, utxos: map<OutRef, TxOut>, o: TakeLeg, twin: TakeLeg, r: Resolved)
    requires ResolveAll(proto, utxos, [o]) == Ok([r]) && ResolveOrder(proto, utxos, o.orderId).Ok?
    requires r == ResolveOrder(proto, utxos, o.orderId).value.(takeAmount := o.takeAmount)
    requires twin.takeAmount == o.takeAmount && ParseOrderId(twin.orderId) == ParseOrderId(o.orderId)
    ensures ResolveAll(proto, utxos, [o, twin]) == Ok([r, r])
  {
    assert [o, twin][..1] == [o];
    ResolveSnoc(proto, utxos, [o, twin], [r], r);
    assert [r] + [r] == [r, r];
  }

  /**
   * The guard against repeated ids compares text. Whatever leg the builder accepts on its
   * own, it also accepts twice in one request, under its id and under that id with a zero
   * put before the index, and the draft then lists one input twice.
   */
  lemma {:induction false} DoubledRequestIsBuilt(proto: Protocol, utxos: map<OutRef, TxOut>, wallet: Wallet, o: TakeLeg, now: int)
    returns (l: Leg)
    requires TakeManyOrders(proto, utxos, wallet, [o], now).Ok? && proto.maxOrdersPerTx >= 2
    ensures var twice := TakeManyOrders(proto, utxos, wallet, [o, o.(orderId := Padded(o.orderId))], now);
      && twice == Ok(TakeLegs(proto, [l, l]))
      && twice.value.draft.inputs == [LegInput(l), LegInput(l)]
    ensures Padded(o.orderId) != o.orderId && ParseOrderId(Padded(o.orderId)) == ParseOrderId(o.orderId) == Some(l.ref)
  {
    var r;
    r, l := OneLeg(proto, utxos, wallet, o, now);
    var twin := o.(orderId := Padded(o.orderId));
    PaddedNamesTheSame(o.orderId);
    ResolvedTwins(proto, utxos, o, twin, r);
    SortedTwins(r);
    PricedTwins(r, l);
    TwinIds(o, twin);
    BuildsLegs(proto, utxos, wallet, [o, twin], now, [r, r]);
    TwinInputs(proto, l);
  }

  lemma {:induction false} TwinIds(o: TakeLeg, twin: TakeLeg)
    requires o.orderId != twin.orderId
    ensures |OrderIds([o, twin])| == 2
  {
    var s := [o, twin];
    assert s[0] == o && s[1] == twin;
    assert OrderIds(s) == {o.orderId, twin.orderId};
  }

  lemma {:induction false} TwinInputs(proto: Protocol, l: Leg)
    ensures TakeLegs(proto, [l, l]).draft.inputs == [LegInput(l), LegInput(l)]
  {
    DraftInputs(proto, [l, l]);
    TwinLegInputs(l);
  }

  lemma {:induction false} DraftInputs(proto: Protocol, legs: seq<Leg>)
    ensures TakeLegs(proto, legs).draft.inputs == LegInputs(legs)
  {
    BatchInputs(proto, legs);
  }

  lemma {:induction false} TwinLegInputs(l: Leg)
    ensures LegInputs([l, l]) == [LegInput(l), LegInput(l)]
  {
  }

  // ------------------------------------------------------ the legs of a batch

  ghost predicate RefsDiffer(rs: seq<Resolved>) {
    forall i, j | 0 <= i < j < |rs| :: rs[i].ref != rs[j].ref
  }

  ghost predicate RefsAscend(rs: seq<Resolved>) {
    forall i, j | 0 <= i < j < |rs| :: RefLess(rs[i].ref, rs[j].ref)
  }

  lemma {:induction false} LegBeforeIsStrictTotal(rs: seq<Resolved>)
    requires RefsDiffer(rs)
    ensures StrictTotalOn(LegBefore, Elements(rs))
  {
    var dom := Elements(rs);
    forall x | x in dom ensures !LegBefore(x, x) {
      RefLessIsStrictTotal(x.ref, x.ref, x.ref);
    }
    forall x, y | x in dom && y in dom && x != y ensures LegBefore(x, y) || LegBefore(y, x) {
      var i :| 0 <= i < |rs| && rs[i] == x;
      var j :| 0 <= j < |rs| && rs[j] == y;
      assert x.ref != y.ref;
      RefLessIsStrictTotal(x.ref, y.ref, x.ref);
    }
    forall x, y, z | x in dom && y in dom && z in dom && LegBefore(x, y) && LegBefore(y, z) ensures LegBefore(x, z) {
      RefLessIsStrictTotal(x.ref, y.ref, z.ref);
    }
  }

  lemma {:induction false} SortedRefsAscend(rs: seq<Resolved>)
    requires RefsDiffer(rs)
    ensures RefsAscend(Sort(LegBefore, rs))
  {
    var sorted := Sort(LegBefore, rs);
    LegBeforeIsStrictTotal(rs);
    SortSorts(LegBefore, rs, Elements(rs));
    PermutationWithoutRepeats(rs, sorted);
    SortKeepsElements(LegBefore, rs);
    forall i, j | 0 <= i < j < |sorted| ensures RefLess(sorted[i].ref, sorted[j].ref) {
      assert sorted[i] in Elements(rs) && sorted[j] in Elements(rs);
      assert sorted[i] != sorted[j] && !LegBefore(sorted[j], sorted[i]);
    }
  }

  lemma {:induction false} AnswersDiffer(proto: Protocol, utxos: map<OutRef, TxOut>, orders: seq<TakeLeg>, rs: seq<Resolved>)
    requires AllAnswered(proto, utxos, orders, rs)
    ensures DistinctRequests(orders) <==> RefsDiffer(rs)
  {
    forall i, j | 0 <= i < j < |rs|
      ensures rs[i].ref == rs[j].ref <==> ParseOrderId(orders[i].orderId) == ParseOrderId(orders[j].orderId) {
      assert Answers(proto, utxos, orders[i], rs[i]) && Answers(proto, utxos, orders[j], rs[j]);
    }
  }

  ghost predicate FromUtxos(utxos: map<OutRef, TxOut>, legs: seq<Leg>) {
    forall k | 0 <= k < |legs| :: legs[k].ref in utxos && utxos[legs[k].ref] == legs[k].output
  }

  ghost predicate HexRefs(rs: seq<Resolved>) {
    forall i | 0 <= i < |rs| :: IsTxHash(rs[i].ref.txHash)
  }

  ghost predicate AllGood(proto: Protocol, utxos: map<OutRef, TxOut>, rs: seq<Resolved>) {
    forall i | 0 <= i < |rs| :: GoodResolved(proto, utxos, rs[i])
  }

  lemma {:induction false} AnsweredAreGood(proto: Protocol, utxos: map<OutRef, TxOut>, orders: seq<TakeLeg>, rs: seq<Resolved>)
    requires AllAnswered(proto, utxos, orders, rs)
    ensures AllGood(proto, utxos, rs) && HexRefs(rs) && |rs| == |orders|
  {
    forall i | 0 <= i < |rs| ensures GoodResolved(proto, utxos, rs[i]) && IsTxHash(rs[i].ref.txHash) {
      assert Answers(proto, utxos, orders[i], rs[i]);
    }
  }

  lemma {:induction false} SortKeepsGood(proto: Protocol, utxos: map<OutRef, TxOut>, rs: seq<Resolved>)
    requires AllGood(proto, utxos, rs) && HexRefs(rs)
    ensures AllGood(proto, utxos, Sort(LegBefore, rs)) && HexRefs(Sort(LegBefore, rs))
    ensures |Sort(LegBefore, rs)| == |rs|
  {
    var sorted := Sort(LegBefore, rs);
    SortKeepsElements(LegBefore, rs);
    forall i | 0 <= i < |sorted| ensures GoodResolved(proto, utxos, sorted[i]) && IsTxHash(sorted[i].ref.txHash) {
      assert sorted[i] in sorted;
      var k :| 0 <= k < |rs| && rs[k] == sorted[i];
    }
  }

  /** What an accepted request comes down to. */
  lemma {:induction false} AcceptedSteps(proto: Protocol, utxos: map<OutRef, TxOut>, wallet: Wallet, orders: seq<TakeLeg>, now: int)
    returns (rs: seq<Resolved>, legs: seq<Leg>)
    requires TakeManyOrders(proto, utxos, wallet, orders, now).Ok?
    ensures ResolveAll(proto, utxos, orders) == Ok(rs)
    ensures PriceAll(Sort(LegBefore, rs)) == Some(legs) && !AnyExpired(Sort(LegBefore, rs), now)
    ensures TakeManyOrders(proto, utxos, wallet, orders, now) == Ok(TakeLegs(proto, legs)) && WalletCanBuild(wallet)
  {
    rs := ResolveAll(proto, utxos, orders).value;
    legs := PriceAll(Sort(LegBefore, rs)).value;
  }

  ghost predicate LegRefsDiffer(legs: seq<Leg>) {
    forall i, j | 0 <= i < j < |legs| :: legs[i].ref != legs[j].ref
  }

  /**
   * The legs of an accepted batch: orders of the chain, acceptably priced, one for each
   * request. Exactly when the requests name distinct outputs no leg spends what another
   * does, and then they are in the order the ledger lists inputs.
   */
  lemma {:induction false} AcceptedBatch(proto: Protocol, utxos: map<OutRef, TxOut>, wallet: Wallet,
                                         orders: seq<TakeLeg>, now: int) returns (rs: seq<Resolved>, legs: seq<Leg>)
    requires BeaconsOnlyInOrders(proto, utxos)
    requires TakeManyOrders(proto, utxos, wallet, orders, now).Ok?
    ensures ResolveAll(proto, utxos, orders) == Ok(rs) && AllAnswered(proto, utxos, orders, rs)
    ensures PriceAll(Sort(LegBefore, rs)) == Some(legs) && !AnyExpired(Sort(LegBefore, rs), now)
    ensures TakeManyOrders(proto, utxos, wallet, orders, now) == Ok(TakeLegs(proto, legs))
    ensures |legs| == |orders| && GoodLegs(proto, legs) && FromUtxos(utxos, legs)
    ensures DistinctRequests(orders) <==> LegRefsDiffer(legs)
    ensures LegRefsDiffer(legs) <==> InBuilderOrder(LegInputs(legs))
  {
    rs, legs := AcceptedSteps(proto, utxos, wallet, orders, now);
    ResolvedAreGood(proto, utxos, orders, rs);
    ResolvedLegs(proto, utxos, orders, rs, legs);
  }

  lemma {:induction false} ResolvedLegs(proto: Protocol, utxos: map<OutRef, TxOut>, orders: seq<TakeLeg>,
                                        rs: seq<Resolved>, legs: seq<Leg>)
    requires AllAnswered(proto, utxos, orders, rs) && PriceAll(Sort(LegBefore, rs)) == Some(legs)
    ensures |legs| == |orders| && GoodLegs(proto, legs) && FromUtxos(utxos, legs)
    ensures DistinctRequests(orders) <==> LegRefsDiffer(legs)
    ensures LegRefsDiffer(legs) <==> InBuilderOrder(LegInputs(legs))
  {
    var sorted := Sort(LegBefore, rs);
    AnswersDiffer(proto, utxos, orders, rs);
    AnsweredAreGood(proto, utxos, orders, rs);
    SortKeepsGood(proto, utxos, rs);
    LegsFrom(proto, utxos, sorted, legs);
    SortKeepsRefsDiffering(rs);
    if RefsDiffer(rs) {
      SortedRefsAscend(rs);
    }
    LegsInOrder(sorted, legs);
  }

  /** Sorting neither makes nor removes a repeated reference. */
  lemma {:induction false} SortKeepsRefsDiffering(rs: seq<Resolved>)
    ensures RefsDiffer(rs) <==> RefsDiffer(Sort(LegBefore, rs))
  {
    var sorted := Sort(LegBefore, rs);
    if RefsDiffer(rs) {
      RefsDifferPermutes(rs, sorted);
    }
    if RefsDiffer(sorted) {
      RefsDifferPermutes(sorted, rs);
    }
  }

  lemma {:induction false} RefsDifferPermutes(a: seq<Resolved>, b: seq<Resolved>)
    requires RefsDiffer(a) && multiset(a) == multiset(b)
    ensures RefsDiffer(b)
  {
    PermutationWithoutRepeats(a, b);
    SameElements(a, b);
    forall i, j | 0 <= i < j < |b| ensures b[i].ref != b[j].ref {
      assert b[i] in a && b[j] in a && b[i] != b[j];
    }
  }

  lemma {:induction false} LegsFrom(proto: Protocol, utxos: map<OutRef, TxOut>, sorted: seq<Resolved>, legs: seq<Leg>)
    requires AllGood(proto, utxos, sorted) && PriceAll(sorted) == Some(legs)
    ensures |legs| == |sorted| && GoodLegs(proto, legs) && FromUtxos(utxos, legs)
    ensures forall k | 0 <= k < |legs| :: legs[k].ref == sorted[k].ref
  {
    PricedAreGood(proto, utxos, sorted);
    forall k | 0 <= k < |legs| ensures legs[k].ref == sorted[k].ref && legs[k].ref in utxos
                                    && utxos[legs[k].ref] == legs[k].output {
      assert PricedFrom(sorted[k], legs[k]) && GoodResolved(proto, utxos, sorted[k]);
    }
  }

  /** Legs over sorted references are in the ledger's order exactly when no reference repeats. */
  lemma {:induction false} LegsInOrder(sorted: seq<Resolved>, legs: seq<Leg>)
    requires |legs| == |sorted| && HexRefs(sorted) && (RefsDiffer(sorted) ==> RefsAscend(sorted))
    requires forall k | 0 <= k < |legs| :: legs[k].ref == sorted[k].ref
    ensures RefsDiffer(sorted) <==> LegRefsDiffer(legs)
    ensures LegRefsDiffer(legs) <==> InBuilderOrder(LegInputs(legs))
  {
    if InBuilderOrder(LegInputs(legs)) {
      BuilderOrderDiffers(legs);
    }
  }

  lemma {:induction false} BuilderOrderDiffers(legs: seq<Leg>)
    requires InBuilderOrder(LegInputs(legs))
    ensures LegRefsDiffer(legs)
  {
    forall i, j | 0 <= i < j < |legs| ensures legs[i].ref != legs[j].ref {
      assert RefLess(LegInputs(legs)[i].ref, LegInputs(legs)[j].ref);
      RefLessIsStrictTotal(legs[i].ref, legs[i].ref, legs[i].ref);
    }
  }

  ghost predicate Requested(orders: seq<TakeLeg>, ref: OutRef) {
    exists i | 0 <= i < |orders| :: ParseOrderId(orders[i].orderId) == Some(ref)
  }

  /** Nothing is spent that was not asked for. */
  lemma {:induction false} LegsAreRequested(proto: Protocol, utxos: map<OutRef, TxOut>, orders: seq<TakeLeg>,
                                            rs: seq<Resolved>, legs: seq<Leg>)
    requires AllAnswered(proto, utxos, orders, rs) && PriceAll(Sort(LegBefore, rs)) == Some(legs)
    ensures forall k | 0 <= k < |legs| :: Requested(orders, legs[k].ref)
  {
    var sorted := Sort(LegBefore, rs);
    AnsweredAreGood(proto, utxos, orders, rs);
    SortKeepsGood(proto, utxos, rs);
    LegsFrom(proto, utxos, sorted, legs);
    SortKeepsElements(LegBefore, rs);
    forall k | 0 <= k < |legs| ensures Requested(orders, legs[k].ref) {
      assert sorted[k] in sorted && legs[k].ref == sorted[k].ref;
      var i :| 0 <= i < |rs| && rs[i] == sorted[k];
      assert Answers(proto, utxos, orders[i], rs[i]);
    }
  }

  /** Every requested leg is built, with the take asked for, and nothing else is. */
  lemma {:induction false} RequestsAreBuilt(proto: Protocol, utxos: map<OutRef, TxOut>, wallet: Wallet,
                                            orders: seq<TakeLeg>, now: int, i: nat) returns (legs: seq<Leg>, k: nat)
    requires BeaconsOnlyInOrders(proto, utxos)
    requires TakeManyOrders(proto, utxos, wallet, orders, now).Ok? && i < |orders|
    ensures TakeManyOrders(proto, utxos, wallet, orders, now) == Ok(TakeLegs(proto, legs))
    ensures |legs| == |orders| && k < |legs|
    ensures ParseOrderId(orders[i].orderId) == Some(legs[k].ref)
    ensures orders[i].takeAmount
         == if legs[k].cut.None? then None else Some(legs[k].cut.value.takeAmount)
  {
    var rs;
    rs, legs := AcceptedBatch(proto, utxos, wallet, orders, now);
    k := LegOfRequest(proto, utxos, orders, rs, legs, i);
  }

  lemma {:induction false} LegOfRequest(proto: Protocol, utxos: map<OutRef, TxOut>, orders: seq<TakeLeg>,
                                        rs: seq<Resolved>, legs: seq<Leg>, i: nat) returns (k: nat)
    requires AllAnswered(proto, utxos, orders, rs) && i < |orders|
    requires PriceAll(Sort(LegBefore, rs)) == Some(legs)
    ensures k < |legs| && ParseOrderId(orders[i].orderId) == Some(legs[k].ref)
    ensures orders[i].takeAmount
         == if legs[k].cut.None? then None else Some(legs[k].cut.value.takeAmount)
  {
    AnsweredAreGood(proto, utxos, orders, rs);
    k := LegOfResolved(proto, utxos, rs, legs, rs[i]);
    assert Answers(proto, utxos, orders[i], rs[i]);
  }

  lemma {:induction false} LegOfResolved(proto: Protocol, utxos: map<OutRef, TxOut>, rs: seq<Resolved>, legs: seq<Leg>, r: Resolved)
    returns (k: nat)
    requires AllGood(proto, utxos, rs) && HexRefs(rs) && PriceAll(Sort(LegBefore, rs)) == Some(legs) && r in rs
    ensures k < |legs| && PricedFrom(r, legs[k])
  {
    var sorted := Sort(LegBefore, rs);
    SortKeepsGood(proto, utxos, rs);
    PricedAreGood(proto, utxos, sorted);
    SortKeepsElements(LegBefore, rs);
    k :| 0 <= k < |sorted| && sorted[k] == r;
  }
}
