/**
 * Fill chains on the chain are fill runs: along the lineage of any order in any sound
 * world the amounts are exactly what the takes leave of the origin's, everything else
 * is the origin's own, and the pricing theorems apply to the whole chain.
 */
module FillChains {
  import opened Wrappers
  import opened Pricing
  import opened FillRuns
  import opened Orders
  import opened OrderDatum
  import opened Ledger
  import opened TxBuilderProofs
  import opened ChainModel
  import opened Indexer
  import opened Closure
  import opened Ancestry
  import opened Runs
  import opened Lineages

  function AmountsOf(o: Order): Amounts {
    Amounts(o.offeredAmount, o.requestedAmount)
  }

  /** What each partial fill took, from the origin down to n. */
  ghost function TakesTo(t: Truth, n: OutRef): seq<int>
    requires Descends(t)
    decreases t.rank(n)
  {
    if t.up(n).None? || t.at(n).None? then []
    else
      TakesTo(t, t.up(n).value.ref) + [t.up(n).value.offeredAmount - t.at(n).value.offeredAmount]
  }

  /** b is a after some fills: same owner, pair, assets, beacons, addresses, expiry and deposit. */
  predicate Inherits(a: Order, b: Order) {
    b == a.(ref := b.ref, offeredAmount := b.offeredAmount, requestedAmount := b.requestedAmount)
  }

  ghost predicate TermsChain(t: Truth) {
    && (forall n: OutRef | t.up(n).Some? :: t.at(n).Some? && KeepsTerms(t.up(n).value, t.at(n).value))
    && (forall n: OutRef | t.at(n).Some? :: AmountsOf(t.at(n).value).Positive())
  }

  ghost predicate ChainIsRunAt(t: Truth, n: OutRef)
    requires Coherent(t)
  {
    t.at(n).Some? && t.at(Origin(t, n)).Some? &&
    var o, a := t.at(Origin(t, n)).value, t.at(n).value;
    && AmountsOf(o).Positive() && ValidRun(AmountsOf(o), TakesTo(t, n))
    && After(AmountsOf(o), TakesTo(t, n)) == AmountsOf(a)
    && Inherits(o, a)
  }

  lemma {:induction false} ChainIsRun(t: Truth, n: OutRef)
    requires Coherent(t) && TermsChain(t) && t.at(n).Some?
    ensures ChainIsRunAt(t, n)
    decreases t.rank(n)
  {
    if t.up(n).Some? {
      assert FillFate(t, n);
      var p := t.up(n).value;
      ChainIsRun(t, p.ref);
      var o, a := t.at(Origin(t, n)).value, t.at(n).value;
      RunSnoc(AmountsOf(o), TakesTo(t, p.ref), p.offeredAmount - a.offeredAmount);
    }
  }

  lemma {:induction false} OrderIsPositive(proto: Protocol, w: World, n: OutRef)
    requires AllClean(proto, w.chain) && OrderAt(proto, w.chain, n).Some?
    ensures AmountsOf(OrderAt(proto, w.chain, n).value).Positive()
  {
    var out := w.chain.OutputAt(n).value;
    IndexerAgreesWithBuilder(proto, n, out);
    var d, deposit :| ExactOrder(proto, out, d, deposit);
    ExactOrderIsIndexed(proto, n, out, d, deposit);
  }

  lemma {:induction false} TermsAreChained(proto: Protocol, w: World)
    requires Sound(proto, w) && TermsKept(proto, w)
    ensures TermsChain(TruthOf(proto, w))
  {
    var t := TruthOf(proto, w);
    forall n: OutRef | t.up(n).Some? ensures t.at(n).Some? && KeepsTerms(t.up(n).value, t.at(n).value) {
      var parent := ParentIsInput(proto, w.chain, n);
      assert ParentIs(proto, w.chain, n, parent);
      assert IsFill(w, parent, n);
    }
    forall n: OutRef | t.at(n).Some? ensures AmountsOf(t.at(n).value).Positive() {
      OrderIsPositive(proto, w, n);
    }
  }

  /**
   * In every sound world every order keeps its origin's owner, pair, beacons,
   * addresses, expiry and deposit, and its amounts are what its fill chain left.
   */
  lemma {:induction false} EveryOrderInherits(proto: Protocol, w: World, n: OutRef)
    requires Sound(proto, w) && TermsKept(proto, w) && OrderAt(proto, w.chain, n).Some?
    ensures Coherent(TruthOf(proto, w)) && ChainIsRunAt(TruthOf(proto, w), n)
  {
    TruthIsCoherent(proto, w);
    TermsAreChained(proto, w);
    ChainIsRun(TruthOf(proto, w), n);
  }

  lemma {:induction false} RunIsFair(o: Amounts, left: Amounts, takes: seq<int>)
    requires o.Positive() && ValidRun(o, takes) && After(o, takes) == left && takes != []
    ensures (o.offer - left.offer) * o.ask <= (o.ask - left.ask) * o.offer
    ensures (o.ask - left.ask) * o.offer < (o.offer - left.offer) * o.ask + |takes| * o.offer
  {
    RunConserves(o, takes);
    RunPaysFairPrice(o, takes);
  }

  lemma {:induction false} ChainIsFair(t: Truth, n: OutRef)
    requires Coherent(t) && ChainIsRunAt(t, n) && t.up(n).Some?
    ensures |TakesTo(t, n)| >= 1
    ensures FairlyPaid(t.at(Origin(t, n)).value, t.at(n).value, |TakesTo(t, n)|)
  {
    RunIsFair(AmountsOf(t.at(Origin(t, n)).value), AmountsOf(t.at(n).value), TakesTo(t, n));
  }

  /** What is gone of the offer was paid at the origin's price or above it by less than k units. */
  predicate FairlyPaid(origin: Order, tip: Order, k: nat) {
    var sold, paid := origin.offeredAmount - tip.offeredAmount, origin.requestedAmount - tip.requestedAmount;
    && sold * origin.requestedAmount <= paid * origin.offeredAmount
    && paid * origin.offeredAmount < sold * origin.requestedAmount + k * origin.offeredAmount
  }

  /** Along the k >= 1 fills of any order's chain the seller has been paid fairly. */
  lemma {:induction false} FillChainIsFair(proto: Protocol, w: World, n: OutRef)
    requires Sound(proto, w) && TermsKept(proto, w) && OrderAt(proto, w.chain, n).Some?
    requires Parents(proto, w.chain)(n).Some?
    ensures Coherent(TruthOf(proto, w))
    ensures var t := TruthOf(proto, w);
      && |TakesTo(t, n)| >= 1 && t.at(Origin(t, n)).Some? && t.at(n).Some?
      && FairlyPaid(t.at(Origin(t, n)).value, t.at(n).value, |TakesTo(t, n)|)
  {
    EveryOrderInherits(proto, w, n);
    ChainIsFair(TruthOf(proto, w), n);
  }
}
