/**
 * The builder prints a batch, the ledger sorts its inputs, the indexer parses it
 * back: each spent order gets its own redeemer's status, each partial leg its own
 * continuation, and each continuation its own order.
 */
module RankPairing {
  import opened Wrappers
  import opened ByteStrings
  import opened Sequences
  import opened Sorting
  import opened Beacons
  import opened Orders
  import opened OrderDatum
  import opened Ledger
  import opened TxBuilder
  import opened TxBuilderProofs
  import opened ChainModel
  import opened Indexer

  // -------------------------------------------------- the ledger's part

  /** Inputs are a set, listed in the ledger's order. */
  ghost predicate CanonicalInputs(inputs: seq<OutRef>) {
    && (forall i | 0 <= i < |inputs| :: IsTxHash(inputs[i].txHash))
    && (forall i, j | 0 <= i < j < |inputs| :: LedgerLess(inputs[i], inputs[j]))
  }

  /** r is the redeemer the draft gives to one of its script inputs. */
  predicate Carries(proto: Protocol, tx: LedgerTx, input: ScriptInput, r: SpendRedeemer) {
    && r.txIndex < |tx.inputs| && tx.inputs[r.txIndex] == input.ref
    && r.scriptHash == proto.orderValidatorHash && r.alternative == input.redeemer.Index()
  }

  /** Redeemer k is some script input's. */
  ghost predicate IsAnInputs(proto: Protocol, inputs: seq<ScriptInput>, tx: LedgerTx, k: nat) {
    k < |tx.redeemers| && exists j | 0 <= j < |inputs| :: Carries(proto, tx, inputs[j], tx.redeemers[k])
  }

  /** Script input j has a redeemer. */
  ghost predicate HasRedeemer(proto: Protocol, inputs: seq<ScriptInput>, tx: LedgerTx, j: nat) {
    j < |inputs| && exists k | 0 <= k < |tx.redeemers| :: Carries(proto, tx, inputs[j], tx.redeemers[k])
  }

  ghost predicate OnePerInput(redeemers: seq<SpendRedeemer>) {
    forall k, l | 0 <= k < l < |redeemers| :: redeemers[k].txIndex != redeemers[l].txIndex
  }

  /** Redeemer k is for another script than the order validator. */
  ghost predicate IsForeign(proto: Protocol, tx: LedgerTx, k: nat) {
    k < |tx.redeemers| && tx.redeemers[k].scriptHash != proto.orderValidatorHash
  }

  /**
   * One redeemer for every script input, in any order. Other inputs may come from other
   * scripts, with redeemers for those; nothing else is spent under the order validator.
   */
  ghost predicate RedeemersMatch(proto: Protocol, inputs: seq<ScriptInput>, tx: LedgerTx) {
    && (forall k: nat | k < |tx.redeemers| :: IsAnInputs(proto, inputs, tx, k) || IsForeign(proto, tx, k))
    && (forall j: nat | j < |inputs| :: HasRedeemer(proto, inputs, tx, j))
    && OnePerInput(tx.redeemers)
  }

  ghost predicate HasInput(inputs: seq<ScriptInput>, ref: OutRef) {
    exists j | 0 <= j < |inputs| :: inputs[j].ref == ref
  }

  /** The transaction spends the script inputs, and the wallet's, in ledger order. */
  ghost predicate SpendsInputs(proto: Protocol, inputs: seq<ScriptInput>, tx: LedgerTx, wallet: set<OutRef>) {
    && CanonicalInputs(tx.inputs)
    && (forall ref :: ref in tx.inputs <==> HasInput(inputs, ref) || ref in wallet)
    && RedeemersMatch(proto, inputs, tx)
  }

  /**
   * tx is the draft after coin selection: wallet inputs added, all inputs in ledger
   * order, change outputs last and without beacons, redeemers in any order.
   */
  ghost predicate Completes(proto: Protocol, draft: Draft, tx: LedgerTx, wallet: set<OutRef>, change: seq<TxOut>) {
    && tx.outputs == draft.outputs + change
    && (forall i | 0 <= i < |change| :: NoBeacons(proto, change[i].amount))
    && SpendsInputs(proto, draft.inputs, tx, wallet)
  }

  // ---------------------------------------------- inputs and redeemers

  /** Script inputs in the order the builder adds them, no order twice. */
  ghost predicate InBuilderOrder(inputs: seq<ScriptInput>) {
    && (forall i | 0 <= i < |inputs| :: IsTxHash(inputs[i].ref.txHash))
    && (forall i, j | 0 <= i < j < |inputs| :: RefLess(inputs[i].ref, inputs[j].ref))
  }

  /** The references spent under TakeOrderPartial. */
  function PartialRefs(inputs: seq<ScriptInput>): seq<OutRef> {
    if inputs == [] then []
    else
      var last := inputs[|inputs| - 1];
      PartialRefs(inputs[..|inputs| - 1]) + (if last.redeemer.Index() == 2 then [last.ref] else [])
  }

  lemma {:induction false} PartialRefOf(inputs: seq<ScriptInput>, rank: nat) returns (k: nat)
    requires rank < |PartialRefs(inputs)|
    ensures k < |inputs| && inputs[k].redeemer.Index() == 2 && inputs[k].ref == PartialRefs(inputs)[rank]
    ensures |PartialRefs(inputs[..k])| == rank
  {
    var init := inputs[..|inputs| - 1];
    if rank == |PartialRefs(init)| {
      k := |inputs| - 1;
    } else {
      k := PartialRefOf(init, rank);
      assert init[..k] == inputs[..k];
    }
  }

  lemma {:induction false} RankOfPartial(inputs: seq<ScriptInput>, k: nat)
    requires k < |inputs| && inputs[k].redeemer.Index() == 2
    ensures |PartialRefs(inputs[..k])| < |PartialRefs(inputs)|
    ensures PartialRefs(inputs)[|PartialRefs(inputs[..k])|] == inputs[k].ref
  {
    var init := inputs[..|inputs| - 1];
    if k == |inputs| - 1 {
      assert inputs[..k] == init;
    } else {
      RankOfPartial(init, k);
      assert init[..k] == inputs[..k];
    }
  }

  lemma {:induction false} PartialRefsOrdered(inputs: seq<ScriptInput>)
    requires InBuilderOrder(inputs)
    ensures forall i, j | 0 <= i < j < |PartialRefs(inputs)| :: RefLess(PartialRefs(inputs)[i], PartialRefs(inputs)[j])
  {
    if inputs != [] {
      var init, last := inputs[..|inputs| - 1], inputs[|inputs| - 1];
      PartialRefsOrdered(init);
      forall i | 0 <= i < |PartialRefs(init)| ensures RefLess(PartialRefs(init)[i], last.ref) {
        var k := PartialRefOf(init, i);
        assert inputs[k] == init[k];
      }
    }
  }

  /** Position of an input in the ledger's list. */
  function Position(inputs: seq<OutRef>, ref: OutRef): nat
    requires ref in inputs
  {
    IndexIn(inputs, ref).value
  }

  lemma {:induction false} PositionOrder(inputs: seq<OutRef>, a: OutRef, b: OutRef)
    requires CanonicalInputs(inputs) && a in inputs && b in inputs && RefLess(a, b)
    ensures Position(inputs, a) < Position(inputs, b)
  {
    RefLessIsStrictTotal(a, b, a);
    BuilderSortsAsLedger(b, a);
  }

  lemma {:induction false} SamePosition(inputs: seq<OutRef>, ref: OutRef, i: nat)
    requires CanonicalInputs(inputs) && i < |inputs| && inputs[i] == ref
    ensures Position(inputs, ref) == i
  {
    RefLessIsStrictTotal(ref, ref, ref);
    BuilderSortsAsLedger(ref, ref);
  }

  function Positions(inputs: seq<OutRef>, refs: seq<OutRef>): (r: seq<nat>)
    requires forall i | 0 <= i < |refs| :: refs[i] in inputs
    ensures |r| == |refs| && forall i | 0 <= i < |refs| :: r[i] == Position(inputs, refs[i])
  {
    seq(|refs|, i requires 0 <= i < |refs| => Position(inputs, refs[i]))
  }

  lemma {:induction false} PositionsIncrease(inputs: seq<OutRef>, refs: seq<OutRef>)
    requires CanonicalInputs(inputs) && forall i | 0 <= i < |refs| :: refs[i] in inputs
    requires forall i, j | 0 <= i < j < |refs| :: RefLess(refs[i], refs[j])
    ensures forall i, j | 0 <= i < j < |refs| :: Positions(inputs, refs)[i] < Positions(inputs, refs)[j]
  {
    forall i, j | 0 <= i < j < |refs| ensures Positions(inputs, refs)[i] < Positions(inputs, refs)[j] {
      PositionOrder(inputs, refs[i], refs[j]);
    }
  }

  predicate IsPartial(proto: Protocol, r: SpendRedeemer) {
    r.scriptHash == proto.orderValidatorHash && r.alternative == 2
  }

  lemma {:induction false} ListedPartialsAre(proto: Protocol, redeemers: seq<SpendRedeemer>, x: nat)
    ensures x in ListedPartials(proto, redeemers) <==>
      exists k | 0 <= k < |redeemers| :: redeemers[k].txIndex == x && IsPartial(proto, redeemers[k])
  {
    if redeemers != [] {
      var init, r := redeemers[..|redeemers| - 1], redeemers[|redeemers| - 1];
      ListedPartialsAre(proto, init, x);
      assert forall k | 0 <= k < |init| :: init[k] == redeemers[k];
    }
  }

  lemma {:induction false} ListedPartialsNoRepeats(proto: Protocol, redeemers: seq<SpendRedeemer>)
    requires OnePerInput(redeemers)
    ensures NoRepeats(ListedPartials(proto, redeemers))
  {
    if redeemers != [] {
      var init, r := redeemers[..|redeemers| - 1], redeemers[|redeemers| - 1];
      ListedPartialsNoRepeats(proto, init);
      ListedPartialsAre(proto, init, r.txIndex);
      assert forall k | 0 <= k < |init| :: init[k] == redeemers[k];
      assert r.txIndex !in ListedPartials(proto, init);
    }
  }

  lemma {:induction false} FindUnique(redeemers: seq<SpendRedeemer>, m: nat)
    requires m < |redeemers|
    requires OnePerInput(redeemers)
    ensures FindRedeemer(redeemers, redeemers[m].txIndex) == Some(redeemers[m])
  {
    if m > 0 {
      FindUnique(redeemers[1..], m - 1);
    }
  }

  lemma {:induction false} InputIsSpent(proto: Protocol, inputs: seq<ScriptInput>, tx: LedgerTx, wallet: set<OutRef>, k: nat)
    requires SpendsInputs(proto, inputs, tx, wallet) && k < |inputs|
    ensures inputs[k].ref in tx.inputs
  {
    assert HasInput(inputs, inputs[k].ref);
  }

  /** The one redeemer at a script input's position is that input's own. */
  lemma {:induction false} RedeemerOfInput(proto: Protocol, inputs: seq<ScriptInput>, tx: LedgerTx, wallet: set<OutRef>, k: nat)
    requires SpendsInputs(proto, inputs, tx, wallet) && k < |inputs|
    ensures inputs[k].ref in tx.inputs
    ensures var i := Position(tx.inputs, inputs[k].ref);
      FindRedeemer(tx.redeemers, i) == Some(SpendRedeemer(i, proto.orderValidatorHash, inputs[k].redeemer.Index()))
  {
    InputIsSpent(proto, inputs, tx, wallet, k);
    assert HasRedeemer(proto, inputs, tx, k);
    var m :| 0 <= m < |tx.redeemers| && Carries(proto, tx, inputs[k], tx.redeemers[m]);
    SamePosition(tx.inputs, inputs[k].ref, tx.redeemers[m].txIndex);
    FindUnique(tx.redeemers, m);
  }

  lemma {:induction false} PartialsAreSpent(proto: Protocol, inputs: seq<ScriptInput>, tx: LedgerTx, wallet: set<OutRef>)
    requires SpendsInputs(proto, inputs, tx, wallet)
    ensures forall i | 0 <= i < |PartialRefs(inputs)| :: PartialRefs(inputs)[i] in tx.inputs
  {
    forall i | 0 <= i < |PartialRefs(inputs)| ensures PartialRefs(inputs)[i] in tx.inputs {
      var k := PartialRefOf(inputs, i);
      InputIsSpent(proto, inputs, tx, wallet, k);
    }
  }

  lemma {:induction false} ListedIsPositioned(proto: Protocol, inputs: seq<ScriptInput>, tx: LedgerTx, wallet: set<OutRef>, x: nat)
    requires SpendsInputs(proto, inputs, tx, wallet)
    requires forall i | 0 <= i < |PartialRefs(inputs)| :: PartialRefs(inputs)[i] in tx.inputs
    requires x in ListedPartials(proto, tx.redeemers)
    ensures x in Positions(tx.inputs, PartialRefs(inputs))
  {
    ListedPartialsAre(proto, tx.redeemers, x);
    var m :| 0 <= m < |tx.redeemers| && tx.redeemers[m].txIndex == x && IsPartial(proto, tx.redeemers[m]);
    assert IsAnInputs(proto, inputs, tx, m) || IsForeign(proto, tx, m);
    var k :| 0 <= k < |inputs| && Carries(proto, tx, inputs[k], tx.redeemers[m]);
    SamePosition(tx.inputs, inputs[k].ref, x);
    RankOfPartial(inputs, k);
    assert Positions(tx.inputs, PartialRefs(inputs))[|PartialRefs(inputs[..k])|] == x;
  }

  lemma {:induction false} PositionedIsListed(proto: Protocol, inputs: seq<ScriptInput>, tx: LedgerTx, wallet: set<OutRef>, x: nat)
    requires SpendsInputs(proto, inputs, tx, wallet)
    requires forall i | 0 <= i < |PartialRefs(inputs)| :: PartialRefs(inputs)[i] in tx.inputs
    requires x in Positions(tx.inputs, PartialRefs(inputs))
    ensures x in ListedPartials(proto, tx.redeemers)
  {
    var rank :| 0 <= rank < |PartialRefs(inputs)| && Positions(tx.inputs, PartialRefs(inputs))[rank] == x;
    var k := PartialRefOf(inputs, rank);
    assert HasRedeemer(proto, inputs, tx, k);
    var m :| 0 <= m < |tx.redeemers| && Carries(proto, tx, inputs[k], tx.redeemers[m]);
    SamePosition(tx.inputs, inputs[k].ref, tx.redeemers[m].txIndex);
    assert IsPartial(proto, tx.redeemers[m]);
    ListedPartialsAre(proto, tx.redeemers, x);
  }

  lemma {:induction false} SortedIs(s: seq<nat>, sorted: seq<nat>)
    requires NoRepeats(s) && forall x :: x in s <==> x in sorted
    requires forall i, j | 0 <= i < j < |sorted| :: sorted[i] < sorted[j]
    ensures Sort(Less, s) == sorted
  {
    SameWithoutRepeats(s, sorted);
    var dom := Elements(sorted);
    forall i | 0 <= i < |s| ensures s[i] in dom { assert s[i] in sorted; }
    SortSorts(Less, s, dom);
    SortedUnique(Less, Sort(Less, s), sorted, dom);
  }

  /** The partial inputs the indexer ranks are the partial script inputs, in builder order. */
  lemma {:induction false} PartialInputsAre(proto: Protocol, inputs: seq<ScriptInput>, tx: LedgerTx, wallet: set<OutRef>)
    requires SpendsInputs(proto, inputs, tx, wallet) && InBuilderOrder(inputs)
    ensures forall i | 0 <= i < |PartialRefs(inputs)| :: PartialRefs(inputs)[i] in tx.inputs
    ensures PartialInputs(proto, tx) == Positions(tx.inputs, PartialRefs(inputs))
    ensures forall i, j | 0 <= i < j < |PartialRefs(inputs)| ::
      Positions(tx.inputs, PartialRefs(inputs))[i] < Positions(tx.inputs, PartialRefs(inputs))[j]
  {
    PartialsAreSpent(proto, inputs, tx, wallet);
    PartialRefsOrdered(inputs);
    PositionsIncrease(tx.inputs, PartialRefs(inputs));
    ListedPartialsNoRepeats(proto, tx.redeemers);
    forall x ensures x in ListedPartials(proto, tx.redeemers) <==> x in Positions(tx.inputs, PartialRefs(inputs)) {
      if x in ListedPartials(proto, tx.redeemers) {
        ListedIsPositioned(proto, inputs, tx, wallet, x);
      }
      if x in Positions(tx.inputs, PartialRefs(inputs)) {
        PositionedIsListed(proto, inputs, tx, wallet, x);
      }
    }
    SortedIs(ListedPartials(proto, tx.redeemers), Positions(tx.inputs, PartialRefs(inputs)));
  }

  // ------------------------------------------------- ranks in the abstract

  /**
   * The layout the indexer decodes: the partial inputs' references and the
   * beacon-bearing outputs, rank by rank.
   */
  ghost predicate Layout(proto: Protocol, tx: LedgerTx, refs: seq<OutRef>, outs: seq<nat>) {
    && |refs| == |outs| && NoRepeats(outs)
    && (forall i | 0 <= i < |refs| :: refs[i] in tx.inputs)
    && (forall i, j | 0 <= i < j < |refs| :: Positions(tx.inputs, refs)[i] < Positions(tx.inputs, refs)[j])
    && PartialInputs(proto, tx) == Positions(tx.inputs, refs)
    && BeaconOutputs(proto, tx.outputs) == outs
  }

  lemma {:induction false} IndexOfDistinct<T>(s: seq<T>, i: nat)
    requires i < |s| && NoRepeats(s)
    ensures IndexIn(s, s[i]) == Some(i)
  {
    var j := IndexIn(s, s[i]).value;
  }

  /** Forward and backward decoding are mutual inverses of the layout. */
  lemma {:induction false} LayoutDecodes(proto: Protocol, tx: LedgerTx, refs: seq<OutRef>, outs: seq<nat>, rank: nat)
    requires Layout(proto, tx, refs, outs) && rank < |refs|
    ensures ChildOutput(proto, tx, Position(tx.inputs, refs[rank])) == Some(outs[rank])
    ensures ParentInput(proto, tx, outs[rank]) == Some(refs[rank])
    ensures PartialInputs(proto, tx) != []
  {
    IndexOfDistinct(Positions(tx.inputs, refs), rank);
    IndexOfDistinct(outs, rank);
  }

  lemma {:induction false} LayoutParents(proto: Protocol, tx: LedgerTx, refs: seq<OutRef>, outs: seq<nat>, o: nat)
    returns (rank: nat)
    requires Layout(proto, tx, refs, outs) && ParentInput(proto, tx, o).Some?
    ensures rank < |refs| && outs[rank] == o && ParentInput(proto, tx, o) == Some(refs[rank])
  {
    rank := IndexIn(outs, o).value;
  }

  // ------------------------------------------------------------- outputs

  lemma {:induction false} NoBeaconsNoOrderBeacon(proto: Protocol, out: TxOut)
    requires NoBeacons(proto, out.amount)
    ensures !HasOrderBeacon(proto, out)
  {
  }

  lemma {:induction false} PaymentHasNoBeacon(proto: Protocol, l: Leg)
    requires l.datum.ask.policyId != proto.beaconPolicyId
    ensures NoBeacons(proto, Payment(l).amount) && !HasOrderBeacon(proto, Payment(l))
  {
  }

  lemma {:induction false} OrderHasBeacon(proto: Protocol, out: TxOut, d: Datum, deposit: int)
    requires ExactOrder(proto, out, d, deposit)
    ensures HasOrderBeacon(proto, out)
  {
    var u := BeaconUnit(proto, Literal(ORDER_BEACON_NAME_HEX));
    assert NamesOf(d).Values()[0] == Literal(ORDER_BEACON_NAME_HEX);
    assert Total(out.amount, u) == Expected(proto, d, deposit, u);
    var i := EntryOf(out.amount, u);
  }

  lemma {:induction false} BeaconOutputsSnoc(proto: Protocol, outputs: seq<TxOut>, out: TxOut)
    ensures BeaconOutputs(proto, outputs + [out])
         == BeaconOutputs(proto, outputs) + (if HasOrderBeacon(proto, out) then [|outputs|] else [])
  {
    assert (outputs + [out])[..|outputs|] == outputs;
  }

  lemma {:induction false} ChangeAddsNoBeacon(proto: Protocol, outputs: seq<TxOut>, change: seq<TxOut>)
    requires forall i | 0 <= i < |change| :: NoBeacons(proto, change[i].amount)
    ensures BeaconOutputs(proto, outputs + change) == BeaconOutputs(proto, outputs)
  {
    if change == [] {
      assert outputs + change == outputs;
    } else {
      var init, last := change[..|change| - 1], change[|change| - 1];
      ChangeAddsNoBeacon(proto, outputs, init);
      assert outputs + change == (outputs + init) + [last];
      BeaconOutputsSnoc(proto, outputs + init, last);
      NoBeaconsNoOrderBeacon(proto, last);
    }
  }

  // ------------------------------------------------- the builder's layout

  /** Where each partial leg's continuation lands among the outputs. */
  function ContinuationOutputs(proto: Protocol, legs: seq<Leg>): seq<nat> {
    if legs == [] then []
    else
      var init, l := legs[..|legs| - 1], legs[|legs| - 1];
      ContinuationOutputs(proto, init)
      + (if l.cut.Some? then [|BatchOf(proto, init).outputs| + 1] else [])
  }

  /** The output index of the continuation of leg k: after its own payment. */
  function ContinuationIndex(proto: Protocol, legs: seq<Leg>, k: nat): nat
    requires k < |legs|
  {
    |BatchOf(proto, legs[..k]).outputs| + 1
  }

  function LegInputs(legs: seq<Leg>): seq<ScriptInput> {
    seq(|legs|, i requires 0 <= i < |legs| => LegInput(legs[i]))
  }

  lemma {:induction false} LegInputsSnoc(legs: seq<Leg>)
    requires legs != []
    ensures LegInputs(legs) == LegInputs(legs[..|legs| - 1]) + [LegInput(legs[|legs| - 1])]
  {
  }

  lemma {:induction false} InputsSnoc(proto: Protocol, legs: seq<Leg>)
    requires legs != []
    ensures BatchOf(proto, legs).inputs
         == BatchOf(proto, legs[..|legs| - 1]).inputs + [LegInput(legs[|legs| - 1])]
  {
  }

  lemma {:induction false} BatchInputs(proto: Protocol, legs: seq<Leg>)
    ensures BatchOf(proto, legs).inputs == LegInputs(legs)
  {
    if legs != [] {
      BatchInputs(proto, legs[..|legs| - 1]);
      LegInputsSnoc(legs);
      InputsSnoc(proto, legs);
    }
  }

  lemma {:induction false} OutputsSnoc(proto: Protocol, legs: seq<Leg>)
    requires legs != []
    ensures BatchOf(proto, legs).outputs
         == BatchOf(proto, legs[..|legs| - 1]).outputs + LegOutputs(legs[|legs| - 1])
  {
  }

  /** The beacon-bearing outputs of a batch are its continuations, in leg order. */
  lemma {:induction false} BatchBeaconOutputs(proto: Protocol, legs: seq<Leg>)
    requires GoodLegs(proto, legs)
    ensures BeaconOutputs(proto, BatchOf(proto, legs).outputs) == ContinuationOutputs(proto, legs)
  {
    if legs != [] {
      GoodPrefix(proto, legs);
      var init, l := legs[..|legs| - 1], legs[|legs| - 1];
      BatchBeaconOutputs(proto, init);
      OutputsSnoc(proto, legs);
      LegBeaconOutputs(proto, BatchOf(proto, init).outputs, l);
    }
  }

  lemma {:induction false} ContinuationHasBeacon(proto: Protocol, l: Leg)
    requires GoodLeg(proto, l) && l.cut.Some?
    ensures HasOrderBeacon(proto, Continuation(l))
  {
    ContinuationIsAnOrder(proto, l);
    OrderHasBeacon(proto, Continuation(l), ContinuationDatum(l.datum, l.cut.value), l.deposit);
  }

  lemma {:induction false} LegBeaconOutputs(proto: Protocol, outputs: seq<TxOut>, l: Leg)
    requires GoodLeg(proto, l)
    ensures BeaconOutputs(proto, outputs + LegOutputs(l))
         == BeaconOutputs(proto, outputs) + (if l.cut.Some? then [|outputs| + 1] else [])
  {
    PaymentHasNoBeacon(proto, l);
    BeaconOutputsSnoc(proto, outputs, Payment(l));
    if l.cut.Some? {
      ContinuationHasBeacon(proto, l);
      BeaconOutputsSnoc(proto, outputs + [Payment(l)], Continuation(l));
      assert outputs + LegOutputs(l) == outputs + [Payment(l)] + [Continuation(l)];
    }
  }

  ghost predicate Below(s: seq<nat>, n: nat) {
    forall i | 0 <= i < |s| :: s[i] < n
  }

  lemma {:induction false} BelowSnoc(s: seq<nat>, n: nat, x: nat, m: nat)
    requires Below(s, n) && NoRepeats(s) && n <= x < m
    ensures Below(s + [x], m) && NoRepeats(s + [x])
  {
  }

  lemma {:induction false} ContinuationOutputsBound(proto: Protocol, legs: seq<Leg>)
    ensures Below(ContinuationOutputs(proto, legs), |BatchOf(proto, legs).outputs|)
    ensures NoRepeats(ContinuationOutputs(proto, legs))
  {
    if legs != [] {
      var init := legs[..|legs| - 1];
      ContinuationOutputsBound(proto, init);
      OutputsSnoc(proto, legs);
      var n := |BatchOf(proto, init).outputs|;
      if legs[|legs| - 1].cut.Some? {
        BelowSnoc(ContinuationOutputs(proto, init), n, n + 1, n + 2);
      }
    }
  }

  lemma {:induction false} ContinuationCount(proto: Protocol, legs: seq<Leg>)
    ensures |ContinuationOutputs(proto, legs)| == |PartialRefs(LegInputs(legs))|
  {
    if legs != [] {
      var init := legs[..|legs| - 1];
      ContinuationCount(proto, init);
      assert LegInputs(legs)[..|legs| - 1] == LegInputs(init);
    }
  }

  /** The rank of leg k among the partial legs leads to its own continuation. */
  lemma {:induction false} ContinuationAtRank(proto: Protocol, legs: seq<Leg>, k: nat)
    requires k < |legs| && legs[k].cut.Some?
    ensures var rank := |PartialRefs(LegInputs(legs[..k]))|;
      && rank < |ContinuationOutputs(proto, legs)|
      && ContinuationOutputs(proto, legs)[rank] == ContinuationIndex(proto, legs, k)
  {
    var init := legs[..|legs| - 1];
    if k == |legs| - 1 {
      ContinuationCount(proto, init);
      assert legs[..k] == init;
    } else {
      assert init[..k] == legs[..k];
      ContinuationAtRank(proto, init, k);
    }
  }

  lemma {:induction false} ContinuationInPlace(proto: Protocol, legs: seq<Leg>, k: nat)
    requires k < |legs| && legs[k].cut.Some?
    ensures ContinuationIndex(proto, legs, k) < |BatchOf(proto, legs).outputs|
    ensures BatchOf(proto, legs).outputs[ContinuationIndex(proto, legs, k)] == Continuation(legs[k])
  {
    OutputsSnoc(proto, legs);
    var init := legs[..|legs| - 1];
    if k == |legs| - 1 {
      assert legs[..k] == init;
    } else {
      ContinuationInPlace(proto, init, k);
      assert init[..k] == legs[..k];
    }
  }

  // ------------------------------------------------------------- results

  /** A batch of order legs, and the transaction that completed its draft. */
  ghost predicate BatchTx(proto: Protocol, legs: seq<Leg>, tx: LedgerTx, wallet: set<OutRef>, change: seq<TxOut>) {
    && GoodLegs(proto, legs) && InBuilderOrder(LegInputs(legs))
    && Completes(proto, TakeLegs(proto, legs).draft, tx, wallet, change)
  }

  /** The transaction has the builder's layout: partial legs' orders, and their continuations. */
  lemma {:induction false} BatchHasLayout(proto: Protocol, legs: seq<Leg>, tx: LedgerTx, wallet: set<OutRef>, change: seq<TxOut>)
    requires BatchTx(proto, legs, tx, wallet, change)
    ensures Layout(proto, tx, PartialRefs(LegInputs(legs)), ContinuationOutputs(proto, legs))
    ensures SpendsInputs(proto, LegInputs(legs), tx, wallet)
  {
    BatchInputs(proto, legs);
    PartialInputsAre(proto, LegInputs(legs), tx, wallet);
    BatchBeaconOutputs(proto, legs);
    ChangeAddsNoBeacon(proto, BatchOf(proto, legs).outputs, change);
    ContinuationOutputsBound(proto, legs);
    ContinuationCount(proto, legs);
  }

  lemma {:induction false} LegRank(proto: Protocol, legs: seq<Leg>, k: nat) returns (rank: nat)
    requires k < |legs| && legs[k].cut.Some?
    ensures rank < |PartialRefs(LegInputs(legs))| == |ContinuationOutputs(proto, legs)|
    ensures PartialRefs(LegInputs(legs))[rank] == legs[k].ref
    ensures ContinuationOutputs(proto, legs)[rank] == ContinuationIndex(proto, legs, k)
  {
    rank := |PartialRefs(LegInputs(legs[..k]))|;
    assert LegInputs(legs)[..k] == LegInputs(legs[..k]);
    RankOfPartial(LegInputs(legs), k);
    ContinuationAtRank(proto, legs, k);
    ContinuationCount(proto, legs);
  }

  lemma {:induction false} LegOfRank(proto: Protocol, legs: seq<Leg>, rank: nat) returns (k: nat)
    requires rank < |PartialRefs(LegInputs(legs))|
    ensures k < |legs| && legs[k].cut.Some? && rank < |ContinuationOutputs(proto, legs)|
    ensures ContinuationOutputs(proto, legs)[rank] == ContinuationIndex(proto, legs, k)
  {
    k := PartialRefOf(LegInputs(legs), rank);
    assert LegInputs(legs)[..k] == LegInputs(legs[..k]);
    ContinuationAtRank(proto, legs, k);
  }

  /**
   * For every batch, any mix of legs and wallet inputs: a partial leg's input is
   * paired with exactly the continuation emitted for that leg, and that
   * continuation is paired back with exactly that leg's order.
   */
  lemma {:induction false} PairingIsExact(proto: Protocol, legs: seq<Leg>, tx: LedgerTx, wallet: set<OutRef>, change: seq<TxOut>, k: nat)
    requires BatchTx(proto, legs, tx, wallet, change) && k < |legs| && legs[k].cut.Some?
    ensures legs[k].ref in tx.inputs
    ensures ChildOutput(proto, tx, Position(tx.inputs, legs[k].ref)) == Some(ContinuationIndex(proto, legs, k))
    ensures ParentInput(proto, tx, ContinuationIndex(proto, legs, k)) == Some(legs[k].ref)
    ensures PartialInputs(proto, tx) != []
    ensures ContinuationIndex(proto, legs, k) < |tx.outputs|
    ensures tx.outputs[ContinuationIndex(proto, legs, k)] == Continuation(legs[k])
  {
    BatchHasLayout(proto, legs, tx, wallet, change);
    var rank := LegRank(proto, legs, k);
    LayoutDecodes(proto, tx, PartialRefs(LegInputs(legs)), ContinuationOutputs(proto, legs), rank);
    ContinuationInPlace(proto, legs, k);
  }

  /** Only continuations are paired backward: every other output has no parent. */
  lemma {:induction false} OnlyContinuationsHaveParents(proto: Protocol, legs: seq<Leg>, tx: LedgerTx, wallet: set<OutRef>,
                                                        change: seq<TxOut>, o: nat) returns (k: nat)
    requires BatchTx(proto, legs, tx, wallet, change) && ParentInput(proto, tx, o).Some?
    ensures k < |legs| && legs[k].cut.Some? && o == ContinuationIndex(proto, legs, k)
  {
    BatchHasLayout(proto, legs, tx, wallet, change);
    var rank := LayoutParents(proto, tx, PartialRefs(LegInputs(legs)), ContinuationOutputs(proto, legs), o);
    k := LegOfRank(proto, legs, rank);
  }

  /** How the builder's own leg should be classified once its transaction is on chain. */
  function TrueSpend(proto: Protocol, legs: seq<Leg>, id: string, k: nat): Spend
    requires k < |legs|
  {
    if legs[k].cut.None? then Spend(Taken, Some(id), None)
    else Spend(PartiallyFilled, Some(id), Some(OutRef(id, ContinuationIndex(proto, legs, k))))
  }

  lemma {:induction false} ClassifiedBy(proto: Protocol, c: Chain, ref: OutRef, id: string, r: SpendRedeemer)
    requires c.OutputAt(ref).Some? && ref in c.spentBy && c.spentBy[ref] == id && id in c.txs
    requires IndexIn(c.txs[id].inputs, ref) == Some(r.txIndex)
    requires FindRedeemer(c.txs[id].redeemers, r.txIndex) == Some(r)
    ensures r.alternative == 0 ==> ClassifySpend(proto, c, ref) == Spend(Cancelled, Some(id), None)
    ensures r.alternative == 1 ==> ClassifySpend(proto, c, ref) == Spend(Taken, Some(id), None)
    ensures r.alternative == 2 && ChildOutput(proto, c.txs[id], r.txIndex).Some? ==>
      ClassifySpend(proto, c, ref)
        == Spend(PartiallyFilled, Some(id), Some(OutRef(id, ChildOutput(proto, c.txs[id], r.txIndex).value)))
  {
  }

  /**
   * The indexer classifies every order a batch consumed by that order's own redeemer
   * and, for a partial leg, names exactly the continuation emitted for it.
   */
  lemma {:induction false} BatchIsClassified(proto: Protocol, c: Chain, legs: seq<Leg>, id: string,
                                             wallet: set<OutRef>, change: seq<TxOut>, k: nat)
    requires id in c.txs && BatchTx(proto, legs, c.txs[id], wallet, change) && k < |legs|
    requires c.OutputAt(legs[k].ref).Some? && legs[k].ref in c.spentBy && c.spentBy[legs[k].ref] == id
    ensures ClassifySpend(proto, c, legs[k].ref) == TrueSpend(proto, legs, id, k)
  {
    var r := LegRedeemer(proto, legs, c.txs[id], wallet, change, k);
    ClassifiedBy(proto, c, legs[k].ref, id, r);
    if legs[k].cut.Some? {
      PairingIsExact(proto, legs, c.txs[id], wallet, change, k);
    }
  }

  lemma {:induction false} LegRedeemer(proto: Protocol, legs: seq<Leg>, tx: LedgerTx, wallet: set<OutRef>,
                                       change: seq<TxOut>, k: nat) returns (r: SpendRedeemer)
    requires BatchTx(proto, legs, tx, wallet, change) && k < |legs|
    ensures legs[k].ref in tx.inputs && r.txIndex == Position(tx.inputs, legs[k].ref)
    ensures FindRedeemer(tx.redeemers, r.txIndex) == Some(r)
    ensures r.alternative == LegInput(legs[k]).redeemer.Index()
  {
    BatchHasLayout(proto, legs, tx, wallet, change);
    RedeemerOfInput(proto, LegInputs(legs), tx, wallet, k);
    var i := Position(tx.inputs, legs[k].ref);
    r := SpendRedeemer(i, proto.orderValidatorHash, LegInput(legs[k]).redeemer.Index());
  }
}
