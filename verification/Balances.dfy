/**
 * The balance every posted transaction keeps, unit by unit: inputs and mint pay for
 * outputs and fee. From it follow that no transaction completes a batch that names one
 * output twice, and exactly which funds let a wallet complete a draft.
 */
module Balances {
  import opened Wrappers
  import opened Sequences
  import opened Sorting
  import opened Beacons
  import opened Orders
  import opened OrderDatum
  import opened Ledger
  import opened TxBuilder
  import opened TxBuilderProofs
  import opened ChainModel
  import opened RankPairing
  import opened Batches

  /** What an output of the chain holds of u. */
  function HeldAt(c: Chain, u: Unit): OutRef -> int {
    (ref: OutRef) => if c.OutputAt(ref).Some? then Total(c.OutputAt(ref).value.amount, u) else 0
  }

  function Held(c: Chain, refs: seq<OutRef>, u: Unit): int {
    SumBy(HeldAt(c, u), refs)
  }

  function FeeIn(fee: nat, u: Unit): int {
    if u == Lovelace then fee else 0
  }

  /** other is what enters or leaves besides: tokens under other policies, rewards, ledger deposits. */
  ghost predicate Balanced(proto: Protocol, c: Chain, draft: Draft, other: seq<Asset>, tx: LedgerTx, fee: nat) {
    forall u :: BalancedIn(proto, c, draft, other, tx, fee, u)
  }

  ghost predicate BalancedIn(proto: Protocol, c: Chain, draft: Draft, other: seq<Asset>, tx: LedgerTx, fee: nat, u: Unit) {
    Held(c, tx.inputs, u) + Minted(proto, draft.mint, u) + Total(other, u) == TotalOut(tx.outputs, u) + FeeIn(fee, u)
  }

  ghost predicate AllPaid(outputs: seq<TxOut>) {
    forall i | 0 <= i < |outputs| :: AllPositive(outputs[i].amount)
  }

  lemma {:induction false} HeldAppend(c: Chain, a: seq<OutRef>, b: seq<OutRef>, u: Unit)
    ensures Held(c, a + b, u) == Held(c, a, u) + Held(c, b, u)
  {
    SumAppend(HeldAt(c, u), a, b);
  }

  lemma {:induction false} NoBeaconsTotal(proto: Protocol, amount: seq<Asset>, u: Unit)
    requires NoBeacons(proto, amount) && IsBeaconUnit(proto, u)
    ensures Total(amount, u) == 0
  {
    TotalOfAbsent(amount, u);
  }

  lemma {:induction false} ChangeHoldsNoBeacon(proto: Protocol, change: seq<TxOut>, u: Unit)
    requires IsBeaconUnit(proto, u) && forall i | 0 <= i < |change| :: NoBeacons(proto, change[i].amount)
    ensures TotalOut(change, u) == 0
  {
    if change != [] {
      NoBeaconsTotal(proto, change[0].amount, u);
      ChangeHoldsNoBeacon(proto, change[1..], u);
    }
  }

  lemma {:induction false} PositiveTotal(amount: seq<Asset>, u: Unit)
    requires AllPositive(amount)
    ensures Total(amount, u) >= 0
  {
    if amount != [] {
      PositiveTotal(amount[1..], u);
    }
  }

  lemma {:induction false} PaidTotal(outputs: seq<TxOut>, u: Unit)
    requires AllPaid(outputs)
    ensures TotalOut(outputs, u) >= 0
  {
    if outputs != [] {
      PositiveTotal(outputs[0].amount, u);
      PaidTotal(outputs[1..], u);
    }
  }

  // ------------------------------------ a batch that names one output twice

  function LegRefs(legs: seq<Leg>): seq<OutRef> {
    seq(|legs|, k requires 0 <= k < |legs| => legs[k].ref)
  }

  const ORDER_BEACON := Literal(ORDER_BEACON_NAME_HEX)

  lemma {:induction false} LegHoldsOne(proto: Protocol, l: Leg)
    requires GoodLeg(proto, l)
    ensures Total(l.output.amount, BeaconUnit(proto, ORDER_BEACON)) == 1
  {
    assert NamesOf(l.datum).Values()[0] == ORDER_BEACON;
    LegBeacons(proto, l, BeaconUnit(proto, ORDER_BEACON));
  }

  lemma {:induction false} LegsHoldOneEach(proto: Protocol, legs: seq<Leg>)
    requires GoodLegs(proto, legs)
    ensures TotalIn(legs, BeaconUnit(proto, ORDER_BEACON)) == |legs|
  {
    if legs != [] {
      GoodPrefix(proto, legs);
      LegsHoldOneEach(proto, legs[..|legs| - 1]);
      LegHoldsOne(proto, legs[|legs| - 1]);
    }
  }

  ghost predicate TestsIn(f: OutRef -> int, s: seq<OutRef>, members: set<OutRef>) {
    forall i | 0 <= i < |s| :: f(s[i]) == if s[i] in members then 1 else 0
  }

  lemma {:induction false} TestsInit(f: OutRef -> int, s: seq<OutRef>, members: set<OutRef>)
    requires s != [] && NoRepeats(s) && TestsIn(f, s, members)
    ensures NoRepeats(s[..|s| - 1]) && TestsIn(f, s[..|s| - 1], members)
    ensures s[|s| - 1] !in Elements(s[..|s| - 1]) && Elements(s) == Elements(s[..|s| - 1]) + {s[|s| - 1]}
  {
    ElementsSnoc(s[..|s| - 1], s[|s| - 1]);
    assert s == s[..|s| - 1] + [s[|s| - 1]];
  }

  /** Summing a membership test over a list without repeats counts the members. */
  lemma {:induction false} SumCounts(f: OutRef -> int, s: seq<OutRef>, members: set<OutRef>)
    requires NoRepeats(s) && TestsIn(f, s, members)
    ensures SumBy(f, s) == |members * Elements(s)|
  {
    if s == [] {
      assert members * Elements(s) == {};
    } else {
      TestsInit(f, s, members);
      SumCounts(f, s[..|s| - 1], members);
      OneMoreCounted(members, Elements(s[..|s| - 1]), s[|s| - 1]);
    }
  }

  lemma {:induction false} OneMoreCounted(members: set<OutRef>, before: set<OutRef>, last: OutRef)
    requires last !in before
    ensures |members * (before + {last})| == |members * before| + (if last in members then 1 else 0)
  {
    if last in members {
      assert members * (before + {last}) == members * before + {last};
    } else {
      assert members * (before + {last}) == members * before;
    }
  }

  /** A list with as many elements as its length repeats none. */
  lemma {:induction false} FullSizeNoRepeats(s: seq<OutRef>)
    ensures |Elements(s)| <= |s|
    ensures |Elements(s)| == |s| ==> NoRepeats(s)
  {
    if s != [] {
      var init, last := s[..|s| - 1], s[|s| - 1];
      FullSizeNoRepeats(init);
      assert s == init + [last];
      ElementsSnoc(init, last);
      assert last in init ==> Elements(s) == Elements(init);
    }
  }

  lemma {:induction false} CanonicalNoRepeats(inputs: seq<OutRef>)
    requires CanonicalInputs(inputs)
    ensures NoRepeats(inputs)
  {
    forall i, j | 0 <= i < j < |inputs| ensures inputs[i] != inputs[j] {
      BuilderSortsAsLedger(inputs[i], inputs[j]);
      RefLessIsStrictTotal(inputs[i], inputs[j], inputs[i]);
    }
  }

  ghost predicate LegsUnspent(proto: Protocol, c: Chain, legs: seq<Leg>) {
    forall k | 0 <= k < |legs| :: c.OutputAt(legs[k].ref) == Some(legs[k].output)
  }

  ghost predicate Beaconless(proto: Protocol, c: Chain, refs: set<OutRef>) {
    forall ref | ref in refs :: c.OutputAt(ref).Some? && NoBeacons(proto, c.OutputAt(ref).value.amount)
  }

  /** An input holds an order beacon exactly when it is one of the legs'. */
  lemma {:induction false} InputHolds(proto: Protocol, c: Chain, legs: seq<Leg>, tx: LedgerTx, wallet: set<OutRef>, ref: OutRef)
    requires GoodLegs(proto, legs) && LegsUnspent(proto, c, legs) && Beaconless(proto, c, wallet)
    requires SpendsInputs(proto, LegInputs(legs), tx, wallet) && ref in tx.inputs
    ensures HeldAt(c, BeaconUnit(proto, ORDER_BEACON))(ref) == if ref in Elements(LegRefs(legs)) then 1 else 0
  {
    if ref in LegRefs(legs) {
      var k :| 0 <= k < |legs| && LegRefs(legs)[k] == ref;
      LegHoldsOne(proto, legs[k]);
    } else {
      assert forall k | 0 <= k < |legs| :: LegInputs(legs)[k].ref == LegRefs(legs)[k];
      assert ref in wallet;
      NoBeaconsTotal(proto, c.OutputAt(ref).value.amount, BeaconUnit(proto, ORDER_BEACON));
    }
  }

  lemma {:induction false} InputsHold(proto: Protocol, c: Chain, legs: seq<Leg>, tx: LedgerTx, wallet: set<OutRef>)
    requires GoodLegs(proto, legs) && LegsUnspent(proto, c, legs) && Beaconless(proto, c, wallet)
    requires SpendsInputs(proto, LegInputs(legs), tx, wallet)
    ensures Held(c, tx.inputs, BeaconUnit(proto, ORDER_BEACON)) <= |Elements(LegRefs(legs))|
  {
    var members := Elements(LegRefs(legs));
    CanonicalNoRepeats(tx.inputs);
    forall i | 0 <= i < |tx.inputs|
      ensures HeldAt(c, BeaconUnit(proto, ORDER_BEACON))(tx.inputs[i]) == if tx.inputs[i] in members then 1 else 0 {
      InputHolds(proto, c, legs, tx, wallet, tx.inputs[i]);
    }
    SumCounts(HeldAt(c, BeaconUnit(proto, ORDER_BEACON)), tx.inputs, members);
    SubsetSize(members * Elements(tx.inputs), members);
  }

  lemma {:induction false} SubsetSize(a: set<OutRef>, b: set<OutRef>)
    requires a <= b
    ensures |a| <= |b|
  {
    assert b == a + (b - a);
    assert |b| == |a| + |b - a|;
  }

  /** A balanced transaction of a batch spends as many orders as the batch has legs: no order twice. */
  lemma {:induction false} BalancedLegsDiffer(proto: Protocol, c: Chain, legs: seq<Leg>, tx: LedgerTx, wallet: set<OutRef>,
                                              change: seq<TxOut>, fee: nat)
    requires GoodLegs(proto, legs) && LegsUnspent(proto, c, legs) && Beaconless(proto, c, wallet)
    requires Completes(proto, TakeLegs(proto, legs).draft, tx, wallet, change)
    requires Balanced(proto, c, TakeLegs(proto, legs).draft, [], tx, fee)
    ensures LegRefsDiffer(legs)
  {
    BatchInputs(proto, legs);
    InputsHold(proto, c, legs, tx, wallet);
    BalancedBeacons(proto, c, legs, tx, change, fee);
    FullSizeNoRepeats(LegRefs(legs));
    RefsOfDifferentLegs(legs);
  }

  lemma {:induction false} RefsOfDifferentLegs(legs: seq<Leg>)
    requires NoRepeats(LegRefs(legs))
    ensures LegRefsDiffer(legs)
  {
    assert forall k | 0 <= k < |legs| :: LegRefs(legs)[k] == legs[k].ref;
  }

  lemma {:induction false} BalancedBeacons(proto: Protocol, c: Chain, legs: seq<Leg>, tx: LedgerTx, change: seq<TxOut>, fee: nat)
    requires GoodLegs(proto, legs) && tx.outputs == TakeLegs(proto, legs).draft.outputs + change
    requires forall i | 0 <= i < |change| :: NoBeacons(proto, change[i].amount)
    requires Balanced(proto, c, TakeLegs(proto, legs).draft, [], tx, fee)
    ensures Held(c, tx.inputs, BeaconUnit(proto, ORDER_BEACON)) == |legs|
  {
    var u := BeaconUnit(proto, ORDER_BEACON);
    assert BalancedIn(proto, c, TakeLegs(proto, legs).draft, [], tx, fee, u);
    TotalOutAppend(TakeLegs(proto, legs).draft.outputs, change, u);
    ChangeHoldsNoBeacon(proto, change, u);
    BatchConserves(proto, legs, u);
    TakerNetIsGains(proto, legs, u);
    LegsHoldOneEach(proto, legs);
  }

  // ------------------------------------------------ which funds complete a draft

  function ScriptRefs(inputs: seq<ScriptInput>): (r: seq<OutRef>)
    ensures |r| == |inputs| && forall i | 0 <= i < |inputs| :: r[i] == inputs[i].ref
  {
    seq(|inputs|, i requires 0 <= i < |inputs| => inputs[i].ref)
  }

  /** What is left of u when these funds pay for the draft and the fee. */
  function Surplus(proto: Protocol, c: Chain, draft: Draft, funds: seq<OutRef>, fee: nat, u: Unit): int {
    Held(c, ScriptRefs(draft.inputs) + funds, u) + Minted(proto, draft.mint, u) - TotalOut(draft.outputs, u) - FeeIn(fee, u)
  }

  /** Enough of everything, and every beacon accounted for. */
  ghost predicate Funded(proto: Protocol, c: Chain, draft: Draft, funds: seq<OutRef>, fee: nat) {
    forall u :: FundedIn(proto, c, draft, funds, fee, u)
  }

  ghost predicate FundedIn(proto: Protocol, c: Chain, draft: Draft, funds: seq<OutRef>, fee: nat, u: Unit) {
    if IsBeaconUnit(proto, u) then Surplus(proto, c, draft, funds, fee, u) == 0
    else Surplus(proto, c, draft, funds, fee, u) >= 0
  }

  /** A wallet's outputs: distinct, without beacons, none of them a script input. */
  ghost predicate FundsFor(proto: Protocol, c: Chain, draft: Draft, funds: seq<OutRef>) {
    && NoRepeats(funds) && Beaconless(proto, c, Elements(funds))
    && (forall i | 0 <= i < |funds| :: IsTxHash(funds[i].txHash))
    && (forall i, j | 0 <= i < |draft.inputs| && 0 <= j < |funds| :: draft.inputs[i].ref != funds[j])
  }

  ghost predicate CompletedBy(proto: Protocol, c: Chain, draft: Draft, funds: seq<OutRef>, fee: nat,
                              tx: LedgerTx, change: seq<TxOut>) {
    && Completes(proto, draft, tx, Elements(funds), change) && AllPaid(change)
    && Balanced(proto, c, draft, [], tx, fee)
  }

  lemma {:induction false} OrderedRefs(proto: Protocol, c: Chain, draft: Draft, funds: seq<OutRef>)
    requires InBuilderOrder(draft.inputs) && FundsFor(proto, c, draft, funds)
    ensures var refs := ScriptRefs(draft.inputs) + funds;
      && NoRepeats(refs) && (forall i | 0 <= i < |refs| :: IsTxHash(refs[i].txHash))
      && (forall ref :: ref in refs <==> HasInput(draft.inputs, ref) || ref in Elements(funds))
  {
    var script := ScriptRefs(draft.inputs);
    forall i, j | 0 <= i < j < |script| ensures script[i] != script[j] {
      assert RefLess(draft.inputs[i].ref, draft.inputs[j].ref);
      RefLessIsStrictTotal(script[i], script[j], script[i]);
    }
    forall ref ensures ref in script <==> HasInput(draft.inputs, ref) {
      if HasInput(draft.inputs, ref) {
        var j :| 0 <= j < |draft.inputs| && draft.inputs[j].ref == ref;
        assert script[j] == ref;
      }
    }
  }

  /** Only sufficient funds complete a draft. */
  lemma {:induction false} CompletedIsFunded(proto: Protocol, c: Chain, draft: Draft, funds: seq<OutRef>, fee: nat,
                                             tx: LedgerTx, change: seq<TxOut>)
    requires InBuilderOrder(draft.inputs) && FundsFor(proto, c, draft, funds)
    requires CompletedBy(proto, c, draft, funds, fee, tx, change)
    ensures Funded(proto, c, draft, funds, fee)
  {
    var refs := ScriptRefs(draft.inputs) + funds;
    OrderedRefs(proto, c, draft, funds);
    CanonicalNoRepeats(tx.inputs);
    SameWithoutRepeats(tx.inputs, refs);
    forall u ensures FundedIn(proto, c, draft, funds, fee, u) {
      SumPermutes(HeldAt(c, u), tx.inputs, refs);
      assert BalancedIn(proto, c, draft, [], tx, fee, u);
      TotalOutAppend(draft.outputs, change, u);
      PaidTotal(change, u);
      if IsBeaconUnit(proto, u) {
        ChangeHoldsNoBeacon(proto, change, u);
      }
    }
  }

  // --------------------------------------------------- the completing transaction

  lemma {:induction false} SortedRefs(refs: seq<OutRef>) returns (inputs: seq<OutRef>)
    requires NoRepeats(refs) && forall i | 0 <= i < |refs| :: IsTxHash(refs[i].txHash)
    ensures CanonicalInputs(inputs) && multiset(inputs) == multiset(refs)
  {
    inputs := Sort(RefLess, refs);
    var dom := Elements(refs);
    forall x | x in dom ensures !RefLess(x, x) { RefLessIsStrictTotal(x, x, x); }
    forall x, y | x in dom && y in dom && x != y ensures RefLess(x, y) || RefLess(y, x) { RefLessIsStrictTotal(x, y, x); }
    forall x, y, z | x in dom && y in dom && z in dom && RefLess(x, y) && RefLess(y, z) ensures RefLess(x, z) {
      RefLessIsStrictTotal(x, y, z);
    }
    SortSorts(RefLess, refs, dom);
    PermutationWithoutRepeats(refs, inputs);
    SortKeepsElements(RefLess, refs);
    AscendingIsCanonical(inputs, refs);
  }

  lemma {:induction false} AscendingIsCanonical(inputs: seq<OutRef>, refs: seq<OutRef>)
    requires NoRepeats(inputs) && Sorted(RefLess, inputs) && forall x :: x in inputs <==> x in refs
    requires forall i | 0 <= i < |refs| :: IsTxHash(refs[i].txHash)
    ensures CanonicalInputs(inputs)
  {
    forall i | 0 <= i < |inputs| ensures IsTxHash(inputs[i].txHash) {
      assert inputs[i] in refs;
    }
    forall i, j | 0 <= i < j < |inputs| ensures LedgerLess(inputs[i], inputs[j]) {
      RefLessIsStrictTotal(inputs[i], inputs[j], inputs[i]);
      BuilderSortsAsLedger(inputs[i], inputs[j]);
    }
  }

  /** A transaction over these inputs with each script input's own redeemer. */
  function TxOver(proto: Protocol, script: seq<ScriptInput>, inputs: seq<OutRef>, outputs: seq<TxOut>, pos: nat, height: nat): LedgerTx
    requires forall i | 0 <= i < |script| :: script[i].ref in inputs
  {
    LedgerTx(inputs, outputs,
      seq(|script|, i requires 0 <= i < |script| =>
        SpendRedeemer(Position(inputs, script[i].ref), proto.orderValidatorHash, script[i].redeemer.Index())),
      height, pos)
  }

  lemma {:induction false} TxOverMatches(proto: Protocol, script: seq<ScriptInput>, inputs: seq<OutRef>,
                                         outputs: seq<TxOut>, pos: nat, height: nat)
    requires CanonicalInputs(inputs) && InBuilderOrder(script) && forall i | 0 <= i < |script| :: script[i].ref in inputs
    ensures RedeemersMatch(proto, script, TxOver(proto, script, inputs, outputs, pos, height))
  {
    var tx := TxOver(proto, script, inputs, outputs, pos, height);
    forall k: nat | k < |script| ensures IsAnInputs(proto, script, tx, k) && HasRedeemer(proto, script, tx, k) {
      assert Carries(proto, tx, script[k], tx.redeemers[k]);
    }
    forall k, l | 0 <= k < l < |tx.redeemers| ensures tx.redeemers[k].txIndex != tx.redeemers[l].txIndex {
      PositionOrder(inputs, script[k].ref, script[l].ref);
    }
  }

  /** Every unit that occurs, beacons aside, and lovelace. */
  ghost function PlainUnits(proto: Protocol, c: Chain, refs: seq<OutRef>, outputs: seq<TxOut>): set<Unit> {
    (set u | u in UnitsAt(c, refs) + UnitsIn(outputs) && !IsBeaconUnit(proto, u)) + {Lovelace}
  }

  ghost function UnitsAt(c: Chain, refs: seq<OutRef>): set<Unit> {
    set ref, a | ref in refs && c.OutputAt(ref).Some? && a in c.OutputAt(ref).value.amount :: a.unit
  }

  ghost function UnitsIn(outputs: seq<TxOut>): set<Unit> {
    set out, a | out in outputs && a in out.amount :: a.unit
  }

  lemma {:induction false} AbsentHeld(c: Chain, refs: seq<OutRef>, u: Unit)
    requires forall i | 0 <= i < |refs| :: HeldAt(c, u)(refs[i]) == 0
    ensures Held(c, refs, u) == 0
  {
    if refs != [] {
      AbsentHeld(c, refs[..|refs| - 1], u);
    }
  }

  lemma {:induction false} AbsentOut(outputs: seq<TxOut>, u: Unit)
    requires forall i | 0 <= i < |outputs| :: Total(outputs[i].amount, u) == 0
    ensures TotalOut(outputs, u) == 0
  {
    if outputs != [] {
      AbsentOut(outputs[1..], u);
    }
  }

  lemma {:induction false} OtherUnitsAbsent(proto: Protocol, c: Chain, refs: seq<OutRef>, outputs: seq<TxOut>, u: Unit)
    requires u !in PlainUnits(proto, c, refs, outputs) && !IsBeaconUnit(proto, u)
    ensures Held(c, refs, u) == 0 && TotalOut(outputs, u) == 0 && u != Lovelace
  {
    forall i | 0 <= i < |refs| ensures HeldAt(c, u)(refs[i]) == 0 {
      if c.OutputAt(refs[i]).Some? {
        var amount := c.OutputAt(refs[i]).value.amount;
        assert forall k | 0 <= k < |amount| :: amount[k] in amount && refs[i] in refs;
        TotalOfAbsent(amount, u);
      }
    }
    AbsentHeld(c, refs, u);
    forall i | 0 <= i < |outputs| ensures Total(outputs[i].amount, u) == 0 {
      var amount := outputs[i].amount;
      assert forall k | 0 <= k < |amount| :: amount[k] in amount && outputs[i] in outputs;
      TotalOfAbsent(amount, u);
    }
    AbsentOut(outputs, u);
  }

  ghost predicate HoldsJust(amount: seq<Asset>, units: set<Unit>, f: Unit -> int) {
    && AllPositive(amount) && (forall i | 0 <= i < |amount| :: amount[i].unit in units)
    && (forall u :: Total(amount, u) == if u in units then f(u) else 0)
  }

  /** A value that holds f(u) of each of these units and nothing else. */
  lemma {:induction false} ValueOf(units: set<Unit>, f: Unit -> int) returns (amount: seq<Asset>)
    requires forall u | u in units :: f(u) >= 0
    ensures HoldsJust(amount, units, f)
  {
    if units == {} {
      amount := [];
    } else {
      var u :| u in units;
      var rest := ValueOf(units - {u}, f);
      amount := if f(u) > 0 then [Asset(u, f(u))] + rest else rest;
      OneMoreUnit(units, u, f, rest, amount);
    }
  }

  lemma {:induction false} OneMoreUnit(units: set<Unit>, u: Unit, f: Unit -> int, rest: seq<Asset>, amount: seq<Asset>)
    requires u in units && f(u) >= 0 && HoldsJust(rest, units - {u}, f)
    requires amount == if f(u) > 0 then [Asset(u, f(u))] + rest else rest
    ensures HoldsJust(amount, units, f)
  {
    assert f(u) > 0 ==> amount[0] == Asset(u, f(u)) && amount[1..] == rest;
    forall v ensures Total(amount, v) == if v in units then f(v) else 0 {
      assert v in units <==> v in units - {u} || v == u;
    }
  }

  /** The change that balances a funded draft. */
  lemma {:induction false} ChangeOf(proto: Protocol, c: Chain, draft: Draft, funds: seq<OutRef>, fee: nat, to: Address)
    returns (change: seq<TxOut>)
    requires Funded(proto, c, draft, funds, fee)
    ensures AllPaid(change) && forall i | 0 <= i < |change| :: NoBeacons(proto, change[i].amount)
    ensures forall u :: TotalOut(change, u) == Surplus(proto, c, draft, funds, fee, u)
  {
    var refs := ScriptRefs(draft.inputs) + funds;
    var units := PlainUnits(proto, c, refs, draft.outputs);
    var f := (u: Unit) => Surplus(proto, c, draft, funds, fee, u);
    forall u | u in units ensures f(u) >= 0 {
      assert FundedIn(proto, c, draft, funds, fee, u);
    }
    var amount := ValueOf(units, f);
    change := [TxOut(to, amount, None)];
    forall u ensures TotalOut(change, u) == Surplus(proto, c, draft, funds, fee, u) {
      assert change[1..] == [] && TotalOut(change, u) == Total(amount, u);
      assert FundedIn(proto, c, draft, funds, fee, u);
      if u !in units && !IsBeaconUnit(proto, u) {
        OtherUnitsAbsent(proto, c, refs, draft.outputs, u);
      }
    }
  }

  lemma {:induction false} ChangeBalances(proto: Protocol, c: Chain, draft: Draft, funds: seq<OutRef>, fee: nat,
                                          tx: LedgerTx, change: seq<TxOut>)
    requires multiset(tx.inputs) == multiset(ScriptRefs(draft.inputs) + funds) && tx.outputs == draft.outputs + change
    requires forall u :: TotalOut(change, u) == Surplus(proto, c, draft, funds, fee, u)
    ensures Balanced(proto, c, draft, [], tx, fee)
  {
    forall u ensures BalancedIn(proto, c, draft, [], tx, fee, u) {
      SumPermutes(HeldAt(c, u), tx.inputs, ScriptRefs(draft.inputs) + funds);
      TotalOutAppend(draft.outputs, change, u);
    }
  }

  /** Sufficient funds complete a draft. */
  lemma {:induction false} FundedCompletes(proto: Protocol, c: Chain, draft: Draft, funds: seq<OutRef>, fee: nat,
                                           to: Address, pos: nat, height: nat)
    returns (tx: LedgerTx, change: seq<TxOut>)
    requires InBuilderOrder(draft.inputs) && FundsFor(proto, c, draft, funds)
    requires Funded(proto, c, draft, funds, fee)
    ensures CompletedBy(proto, c, draft, funds, fee, tx, change) && tx.pos == pos
  {
    var refs := ScriptRefs(draft.inputs) + funds;
    OrderedRefs(proto, c, draft, funds);
    var inputs := SortedRefs(refs);
    SameElements(inputs, refs);
    change := ChangeOf(proto, c, draft, funds, fee, to);
    forall i | 0 <= i < |draft.inputs| ensures draft.inputs[i].ref in inputs {
      assert refs[i] == draft.inputs[i].ref && refs[i] in refs;
    }
    tx := TxOver(proto, draft.inputs, inputs, draft.outputs + change, pos, height);
    TxOverMatches(proto, draft.inputs, inputs, draft.outputs + change, pos, height);
    ChangeBalances(proto, c, draft, funds, fee, tx, change);
  }
}
