/**
 * The arbitrage scanner: sizing one rotation of a cycle of orders, choosing the best
 * rotation, and enumerating the 2- and 3-cycles of the open book. The functions say
 * what is computed; the methods at the end are the source's loops over running state.
 */
module Arbitrage {
  import opened Wrappers
  import opened ByteStrings
  import opened Sequences
  import opened Sorting
  import opened Pricing
  import opened Orders
  import opened TxBuilder

  /** takeAmount is present on a partial leg only. */
  datatype ArbLeg = ArbLeg(
    ref: OutRef,
    payAsset: string,
    payAmount: int,
    receiveAsset: string,
    receiveAmount: int,
    expiration: Option<int>,
    takeAmount: Option<int>)

  datatype Evaluated = Evaluated(
    legs: seq<ArbLeg>,
    nets: map<string, int>,
    partialMinAda: int,
    lovelaceNetAfterCosts: int)

  /** A found cycle under its id; the found map is kept in insertion order. */
  datatype Entry = Entry(id: string, orders: seq<Order>, ev: Evaluated)

  datatype Margin = Margin(num: int, den: int)

  datatype ArbitrageParams = ArbitrageParams(
    fee: int, directTopK: nat, triangularTopK: nat, maxOpportunities: nat, nowPosixMs: int)

  const LOVELACE := "lovelace"

  // --------------------------------------------------------- one rotation

  /** One leg out of what the previous leg delivered; the first leg is taken whole. */
  function SizeLeg(o: Order, carry: Option<int>): Option<ArbLeg> {
    var ask, offer := o.requestedAmount, o.offeredAmount;
    var whole := ArbLeg(o.ref, RequestedAssetId(o), ask, OfferedAssetId(o), offer, o.expiration, None);
    if carry.None? || ask <= carry.value then Some(whole)
    else if !o.allowPartialFill then None
    else
      var take := MaxTakeForSpend(carry.value, ask, offer);
      if take <= 0 then None
      else Some(whole.(payAmount := Owed(take, ask, offer), receiveAmount := take, takeAmount := Some(take)))
  }

  function Carry(legs: seq<ArbLeg>): Option<int> {
    if legs == [] then None else Some(legs[|legs| - 1].receiveAmount)
  }

  function Sized(cycle: seq<Order>): (r: Option<seq<ArbLeg>>)
    ensures r.Some? ==> |r.value| == |cycle|
  {
    if cycle == [] then Some([])
    else
      var before :- Sized(cycle[..|cycle| - 1]);
      var leg :- SizeLeg(cycle[|cycle| - 1], Carry(before));
      Some(before + [leg])
  }

  function NetAt(nets: map<string, int>, asset: string): int {
    if asset in nets then nets[asset] else 0
  }

  function AddLegNet(nets: map<string, int>, l: ArbLeg): map<string, int> {
    var paid := nets[l.payAsset := NetAt(nets, l.payAsset) - l.payAmount];
    paid[l.receiveAsset := NetAt(paid, l.receiveAsset) + l.receiveAmount]
  }

  function NetsOf(legs: seq<ArbLeg>): map<string, int> {
    if legs == [] then map[] else AddLegNet(NetsOf(legs[..|legs| - 1]), legs[|legs| - 1])
  }

  predicate Riskless(nets: map<string, int>) {
    && (forall a | a in nets :: nets[a] >= 0)
    && (exists a | a in nets :: nets[a] > 0)
  }

  /** Lovelace the taker adds to a partial leg's payment. */
  function LegMinAda(l: ArbLeg): int {
    if l.takeAmount.None? then 0
    else if l.payAsset != LOVELACE then PARTIAL_PAYMENT_LOVELACE
    else if l.payAmount < PARTIAL_PAYMENT_LOVELACE then PARTIAL_PAYMENT_LOVELACE - l.payAmount
    else 0
  }

  function PartialMinAda(legs: seq<ArbLeg>): int {
    if legs == [] then 0 else PartialMinAda(legs[..|legs| - 1]) + LegMinAda(legs[|legs| - 1])
  }

  function PartialCount(legs: seq<ArbLeg>): nat {
    if legs == [] then 0
    else PartialCount(legs[..|legs| - 1]) + (if legs[|legs| - 1].takeAmount.Some? then 1 else 0)
  }

  // -------------------------------------------------------- best rotation

  function Rotation(orders: seq<Order>, r: nat): seq<Order>
    requires r <= |orders|
  {
    orders[r..] + orders[..r]
  }

  function Evaluate(legs: seq<ArbLeg>, fee: int): Option<Evaluated> {
    var nets := NetsOf(legs);
    if !Riskless(nets) then None
    else
      var minAda := PartialMinAda(legs);
      Some(Evaluated(legs, nets, minAda, NetAt(nets, LOVELACE) - fee - minAda))
  }

  function EvaluateRotation(orders: seq<Order>, fee: int, r: nat): Option<Evaluated>
    requires r <= |orders|
  {
    var legs :- Sized(Rotation(orders, r));
    Evaluate(legs, fee)
  }

  /** Fewer partial legs, then more lovelace. */
  predicate Better(a: Evaluated, b: Evaluated) {
    || PartialCount(a.legs) < PartialCount(b.legs)
    || (PartialCount(a.legs) == PartialCount(b.legs) && a.lovelaceNetAfterCosts > b.lovelaceNetAfterCosts)
  }

  function Pick(best: Option<Evaluated>, candidate: Option<Evaluated>): Option<Evaluated> {
    if candidate.None? then best
    else if best.None? || Better(candidate.value, best.value) then candidate
    else best
  }

  function BestOf(orders: seq<Order>, fee: int, n: nat): Option<Evaluated>
    requires n <= |orders|
  {
    if n == 0 then None else Pick(BestOf(orders, fee, n - 1), EvaluateRotation(orders, fee, n - 1))
  }

  function Best(orders: seq<Order>, fee: int): Option<Evaluated> {
    BestOf(orders, fee, |orders|)
  }

  function Offers(orders: seq<Order>): int {
    if orders == [] then 1 else Offers(orders[..|orders| - 1]) * orders[|orders| - 1].offeredAmount
  }

  function Asks(orders: seq<Order>): int {
    if orders == [] then 1 else Asks(orders[..|orders| - 1]) * orders[|orders| - 1].requestedAmount
  }

  function MarginOf(orders: seq<Order>): Margin {
    Margin(Offers(orders) - Asks(orders), Asks(orders))
  }

  // ------------------------------------------------------------- the book

  predicate Scannable(o: Order, now: int) {
    o.status == Open && !IsOrderExpired(o, now) && o.offeredAmount > 0 && o.requestedAmount > 0
  }

  function Book(orders: seq<Order>, now: int): seq<Order> {
    if orders == [] then []
    else
      var last := orders[|orders| - 1];
      Book(orders[..|orders| - 1], now) + (if Scannable(last, now) then [last] else [])
  }

  predicate BetterRate(a: Order, b: Order) {
    a.offeredAmount * b.requestedAmount > b.offeredAmount * a.requestedAmount
  }

  predicate RateBefore(a: Order, b: Order) {
    if BetterRate(a, b) then true
    else if BetterRate(b, a) then false
    else StrLess(OrderId(a.ref), OrderId(b.ref))
  }

  predicate IsEdge(o: Order, from: string, to: string) {
    RequestedAssetId(o) == from && OfferedAssetId(o) == to && from != to
  }

  function EdgeOrders(book: seq<Order>, from: string, to: string): seq<Order> {
    if book == [] then []
    else
      var last := book[|book| - 1];
      EdgeOrders(book[..|book| - 1], from, to) + (if IsEdge(last, from, to) then [last] else [])
  }

  function Edge(book: seq<Order>, from: string, to: string): seq<Order> {
    Sort(RateBefore, EdgeOrders(book, from, to))
  }

  function FirstOf<T>(s: seq<T>, k: nat): seq<T> {
    if k < |s| then s[..k] else s
  }

  function WithKey(keys: seq<string>, key: string): seq<string> {
    if key in keys then keys else keys + [key]
  }

  /** Assets with outgoing edges, in order of first appearance. */
  function Assets(book: seq<Order>): seq<string> {
    if book == [] then []
    else
      var keys, last := Assets(book[..|book| - 1]), book[|book| - 1];
      if RequestedAssetId(last) == OfferedAssetId(last) then keys else WithKey(keys, RequestedAssetId(last))
  }

  function Targets(book: seq<Order>, from: string): seq<string> {
    if book == [] then []
    else
      var keys, last := Targets(book[..|book| - 1], from), book[|book| - 1];
      if RequestedAssetId(last) == OfferedAssetId(last) || RequestedAssetId(last) != from then keys
      else WithKey(keys, OfferedAssetId(last))
  }

  // ------------------------------------------------------- candidate cycles

  /** One pass of an inner loop: prefix followed by each of the last orders. */
  function Extend(prefix: seq<Order>, last: seq<Order>): seq<seq<Order>> {
    if last == [] then []
    else Extend(prefix, last[..|last| - 1]) + [prefix + [last[|last| - 1]]]
  }

  function Cross2(first: seq<Order>, second: seq<Order>): seq<seq<Order>> {
    if first == [] then []
    else Cross2(first[..|first| - 1], second) + Extend([first[|first| - 1]], second)
  }

  function Cross3From(o: Order, second: seq<Order>, third: seq<Order>): seq<seq<Order>> {
    if second == [] then []
    else Cross3From(o, second[..|second| - 1], third) + Extend([o, second[|second| - 1]], third)
  }

  function Cross3(first: seq<Order>, second: seq<Order>, third: seq<Order>): seq<seq<Order>> {
    if first == [] then []
    else Cross3(first[..|first| - 1], second, third) + Cross3From(first[|first| - 1], second, third)
  }

  function DirectAt(book: seq<Order>, k: nat, a: string, b: string): seq<seq<Order>> {
    if !StrLess(a, b) then [] else Cross2(FirstOf(Edge(book, a, b), k), FirstOf(Edge(book, b, a), k))
  }

  /** The cycles through a and each target: the loop over targets. */
  function DirectVia(book: seq<Order>, k: nat, a: string): string -> seq<seq<Order>> {
    (b: string) => DirectAt(book, k, a, b)
  }

  function DirectFrom(book: seq<Order>, k: nat): string -> seq<seq<Order>> {
    (a: string) => FlatMap(DirectVia(book, k, a), Targets(book, a))
  }

  /** 2-cycles, each unordered pair of assets once. */
  function Directs(book: seq<Order>, k: nat, assets: seq<string>): seq<seq<Order>> {
    FlatMap(DirectFrom(book, k), assets)
  }

  function TriangleAt(book: seq<Order>, k: nat, a: string, b: string, c: string): seq<seq<Order>> {
    if !StrLess(a, c) || c == b || Edge(book, c, a) == [] then []
    else Cross3(FirstOf(Edge(book, a, b), k), FirstOf(Edge(book, b, c), k), FirstOf(Edge(book, c, a), k))
  }

  function TriangleVia(book: seq<Order>, k: nat, a: string, b: string): string -> seq<seq<Order>> {
    (c: string) => TriangleAt(book, k, a, b, c)
  }

  function TrianglesThrough(book: seq<Order>, k: nat, a: string): string -> seq<seq<Order>> {
    (b: string) => if !StrLess(a, b) then [] else FlatMap(TriangleVia(book, k, a, b), Targets(book, b))
  }

  function TrianglesFrom(book: seq<Order>, k: nat): string -> seq<seq<Order>> {
    (a: string) => FlatMap(TrianglesThrough(book, k, a), Targets(book, a))
  }

  /** 3-cycles, anchored at the smallest asset, each orientation once. */
  function Triangles(book: seq<Order>, k: nat, assets: seq<string>): seq<seq<Order>> {
    FlatMap(TrianglesFrom(book, k), assets)
  }

  function Candidates(book: seq<Order>, p: ArbitrageParams): seq<seq<Order>> {
    Directs(book, p.directTopK, Assets(book)) + Triangles(book, p.triangularTopK, Assets(book))
  }

  // ------------------------------------------------------------ the results

  function Join(ids: seq<string>): string {
    if ids == [] then "" else if |ids| == 1 then ids[0] else ids[0] + "+" + Join(ids[1..])
  }

  function IdsOf(orders: seq<Order>): seq<string> {
    seq(|orders|, i requires 0 <= i < |orders| => OrderId(orders[i].ref))
  }

  function CycleId(orders: seq<Order>): string {
    Join(Sort(StrLess, IdsOf(orders)))
  }

  predicate HasId(found: seq<Entry>, id: string) {
    exists i | 0 <= i < |found| :: found[i].id == id
  }

  /** The prefilter: the rates multiply above 1. */
  predicate RateProductPositive(cycle: seq<Order>) {
    MarginOf(cycle).num > 0
  }

  function Record(found: seq<Entry>, cycle: seq<Order>, ev: Option<Evaluated>): seq<Entry> {
    if ev.None? then found else found + [Entry(CycleId(cycle), cycle, ev.value)]
  }

  function Consider(found: seq<Entry>, fee: int, cycle: seq<Order>): seq<Entry> {
    if !RateProductPositive(cycle) || HasId(found, CycleId(cycle)) then found
    else Record(found, cycle, Best(cycle, fee))
  }

  function ConsiderAll(found: seq<Entry>, fee: int, cycles: seq<seq<Order>>): seq<Entry> {
    if cycles == [] then found
    else Consider(ConsiderAll(found, fee, cycles[..|cycles| - 1]), fee, cycles[|cycles| - 1])
  }

  /** Larger margin first, compared by cross-multiplication, then smaller id. */
  predicate MarginBefore(x: Entry, y: Entry) {
    var a, b := MarginOf(x.orders), MarginOf(y.orders);
    var cmp := a.num * b.den - b.num * a.den;
    if cmp != 0 then cmp > 0 else StrLess(x.id, y.id)
  }

  function Found(orders: seq<Order>, p: ArbitrageParams): seq<Entry> {
    ConsiderAll([], p.fee, Candidates(Book(orders, p.nowPosixMs), p))
  }

  /** The scan: the best entries, at most the cap. */
  function Scan(orders: seq<Order>, p: ArbitrageParams): seq<Entry> {
    FirstOf(Sort(MarginBefore, Found(orders, p)), p.maxOpportunities)
  }

  // --------------------------------------------------- the source's loops

  /** The loop's body for one order, given the previous leg's delivery. */
  method SizeNext(o: Order, carry: Option<int>) returns (leg: Option<ArbLeg>)
    ensures leg == SizeLeg(o, carry)
  {
    var ask, offer := o.requestedAmount, o.offeredAmount;
    var pay, receive := ask, offer;
    var takeAmount := None;
    if carry.Some? && ask > carry.value {
      if !o.allowPartialFill {
        return None;
      }
      var take := MaxTakeForSpend(carry.value, ask, offer);
      if take <= 0 {
        return None;
      }
      takeAmount := Some(take);
      pay := Owed(take, ask, offer);
      receive := take;
    }
    return Some(ArbLeg(o.ref, RequestedAssetId(o), pay, OfferedAssetId(o), receive, o.expiration, takeAmount));
  }

  method SizeRotation(cycle: seq<Order>) returns (legs: Option<seq<ArbLeg>>)
    ensures legs == Sized(cycle)
  {
    var done: seq<ArbLeg> := [];
    var carry := None;
    for i := 0 to |cycle|
      invariant Sized(cycle[..i]) == Some(done) && carry == Carry(done)
    {
      PrefixStep(cycle, i);
      var leg := SizeNext(cycle[i], carry);
      if leg.None? {
        SizingFailsOn(cycle, i + 1);
        return None;
      }
      done := done + [leg.value];
      carry := Some(leg.value.receiveAmount);
    }
    assert cycle[..|cycle|] == cycle;
    return Some(done);
  }

  lemma {:induction false} SizingFailsOn(cycle: seq<Order>, i: nat)
    requires i <= |cycle| && Sized(cycle[..i]) == None
    ensures Sized(cycle) == None
    decreases |cycle| - i
  {
    if i == |cycle| {
      assert cycle[..i] == cycle;
    } else {
      PrefixStep(cycle, i);
      SizingFailsOn(cycle, i + 1);
    }
  }

  method ComputeNets(legs: seq<ArbLeg>) returns (nets: map<string, int>)
    ensures nets == NetsOf(legs)
  {
    nets := map[];
    for i := 0 to |legs|
      invariant nets == NetsOf(legs[..i])
    {
      PrefixStep(legs, i);
      var l := legs[i];
      nets := nets[l.payAsset := (if l.payAsset in nets then nets[l.payAsset] else 0) - l.payAmount];
      nets := nets[l.receiveAsset := (if l.receiveAsset in nets then nets[l.receiveAsset] else 0) + l.receiveAmount];
    }
    assert legs[..|legs|] == legs;
  }

  method CheckRiskless(nets: map<string, int>) returns (riskless: bool)
    ensures riskless <==> Riskless(nets)
  {
    var positive := false;
    var todo := nets.Keys;
    while todo != {}
      invariant todo <= nets.Keys
      invariant forall a | a in nets && a !in todo :: nets[a] >= 0
      invariant positive <==> exists a | a in nets && a !in todo :: nets[a] > 0
      decreases |todo|
    {
      var a :| a in todo;
      if nets[a] < 0 {
        return false;
      }
      if nets[a] > 0 {
        positive := true;
      }
      todo := todo - {a};
    }
    return positive;
  }

  method SumPartialMinAda(legs: seq<ArbLeg>) returns (total: int)
    ensures total == PartialMinAda(legs)
  {
    total := 0;
    for i := 0 to |legs|
      invariant total == PartialMinAda(legs[..i])
    {
      PrefixStep(legs, i);
      var l := legs[i];
      if l.takeAmount.None? {
        continue;
      }
      if l.payAsset != "lovelace" {
        total := total + PARTIAL_PAYMENT_LOVELACE;
      } else if l.payAmount < PARTIAL_PAYMENT_LOVELACE {
        total := total + (PARTIAL_PAYMENT_LOVELACE - l.payAmount);
      }
    }
    assert legs[..|legs|] == legs;
  }

  method ComputeMargin(orders: seq<Order>) returns (m: Margin)
    ensures m == MarginOf(orders)
  {
    var po, pa := 1, 1;
    for i := 0 to |orders|
      invariant po == Offers(orders[..i]) && pa == Asks(orders[..i])
    {
      PrefixStep(orders, i);
      po, pa := po * orders[i].offeredAmount, pa * orders[i].requestedAmount;
    }
    assert orders[..|orders|] == orders;
    m := Margin(po - pa, pa);
  }

  method CheckRateProduct(cycle: seq<Order>) returns (positive: bool)
    ensures positive <==> RateProductPositive(cycle)
  {
    var margin := ComputeMargin(cycle);
    positive := margin.num > 0;
  }

  method EvaluateLegs(legs: seq<ArbLeg>, fee: int) returns (candidate: Option<Evaluated>)
    ensures candidate == Evaluate(legs, fee)
  {
    var nets := ComputeNets(legs);
    var riskless := CheckRiskless(nets);
    if !riskless {
      return None;
    }
    var minAda := SumPartialMinAda(legs);
    return Some(Evaluated(legs, nets, minAda, (if "lovelace" in nets then nets["lovelace"] else 0) - fee - minAda));
  }

  method EvaluateCycle(orders: seq<Order>, fee: int) returns (best: Option<Evaluated>)
    ensures best == Best(orders, fee)
  {
    best := None;
    for r := 0 to |orders|
      invariant best == BestOf(orders, fee, r)
    {
      var rotated := orders[r..] + orders[..r];
      var legs := SizeRotation(rotated);
      if legs.None? {
        continue;
      }
      var candidate := EvaluateLegs(legs.value, fee);
      if candidate.None? {
        continue;
      }
      if best.None? || Better(candidate.value, best.value) {
        best := candidate;
      }
    }
  }

  lemma {:induction false} ConsiderMore(found: seq<Entry>, fee: int, xs: seq<seq<Order>>, ys: seq<seq<Order>>)
    ensures ConsiderAll(found, fee, xs + ys) == ConsiderAll(ConsiderAll(found, fee, xs), fee, ys)
  {
    if ys == [] {
      assert xs + ys == xs;
    } else {
      assert (xs + ys)[..|xs + ys| - 1] == xs + ys[..|ys| - 1];
      ConsiderMore(found, fee, xs, ys[..|ys| - 1]);
    }
  }

  /** The edge map: for each pair of assets the orders from one to the other. */
  class EdgeMap {
    var assets: seq<string>
    var targets: map<string, seq<string>>
    var lists: map<(string, string), seq<Order>>

    constructor ()
      ensures Holds([])
    {
      assets, targets, lists := [], map[], map[];
    }

    /** edges.get(from)?.get(to) ?? [] */
    function At(from: string, to: string): seq<Order>
      reads this
    {
      if (from, to) in lists then lists[(from, to)] else []
    }

    function TargetsOf(a: string): seq<string>
      reads this
    {
      if a in targets then targets[a] else []
    }

    ghost predicate KeysHold(book: seq<Order>)
      reads this
    {
      assets == Assets(book) && forall a :: TargetsOf(a) == Targets(book, a)
    }

    /** The maps hold the orders added so far. */
    ghost predicate Holds(book: seq<Order>)
      reads this
    {
      KeysHold(book) && forall a, b :: At(a, b) == EdgeOrders(book, a, b)
    }

    /** And with every list sorted. */
    ghost predicate Ready(book: seq<Order>)
      reads this
    {
      KeysHold(book) && forall a, b :: At(a, b) == Edge(book, a, b)
    }

    method AddKeys(o: Order, ghost book: seq<Order>)
      requires KeysHold(book) && RequestedAssetId(o) != OfferedAssetId(o)
      modifies this`assets, this`targets
      ensures KeysHold(book + [o])
    {
      EdgeAddsKeys(book, o);
      var from, to := RequestedAssetId(o), OfferedAssetId(o);
      if from !in assets {
        assets := assets + [from];
      }
      var byTo := TargetsOf(from);
      targets := targets[from := if to in byTo then byTo else byTo + [to]];
    }

    method AddToList(o: Order, ghost book: seq<Order>)
      requires RequestedAssetId(o) != OfferedAssetId(o)
      requires forall a, b :: At(a, b) == EdgeOrders(book, a, b)
      modifies this`lists
      ensures forall a, b :: At(a, b) == EdgeOrders(book + [o], a, b)
    {
      assert (book + [o])[..|book + [o]| - 1] == book;
      var from, to := RequestedAssetId(o), OfferedAssetId(o);
      lists := lists[(from, to) := At(from, to) + [o]];
    }

    method Add(o: Order, ghost book: seq<Order>)
      requires Holds(book)
      modifies this
      ensures Holds(book + [o])
    {
      if RequestedAssetId(o) == OfferedAssetId(o) {
        LoopAddsNothing(book, o);
        return;
      }
      AddKeys(o, book);
      AddToList(o, book);
    }

    method SortLists(ghost book: seq<Order>)
      requires Holds(book)
      modifies this`lists
      ensures Ready(book)
    {
      lists := SortValues(lists);
      forall a, b ensures At(a, b) == Edge(book, a, b) {
        assert old(At(a, b)) == EdgeOrders(book, a, b);
      }
    }
  }

  lemma {:induction false} EdgeAddsKeys(book: seq<Order>, o: Order)
    requires RequestedAssetId(o) != OfferedAssetId(o)
    ensures Assets(book + [o]) == WithKey(Assets(book), RequestedAssetId(o))
    ensures forall a :: Targets(book + [o], a)
                     == if a == RequestedAssetId(o) then WithKey(Targets(book, a), OfferedAssetId(o)) else Targets(book, a)
  {
    assert (book + [o])[..|book + [o]| - 1] == book;
  }

  lemma {:induction false} LoopAddsNothing(book: seq<Order>, o: Order)
    requires RequestedAssetId(o) == OfferedAssetId(o)
    ensures Assets(book + [o]) == Assets(book)
    ensures forall a :: Targets(book + [o], a) == Targets(book, a)
    ensures forall a, b :: EdgeOrders(book + [o], a, b) == EdgeOrders(book, a, b)
  {
    assert (book + [o])[..|book + [o]| - 1] == book;
  }

  /** Every list of the map sorted by rate. */
  method SortValues(lists: map<(string, string), seq<Order>>) returns (sorted: map<(string, string), seq<Order>>)
    ensures sorted.Keys == lists.Keys
    ensures forall e | e in lists :: sorted[e] == Sort(RateBefore, lists[e])
  {
    sorted := lists;
    var todo := lists.Keys;
    while todo != {}
      invariant todo <= lists.Keys && sorted.Keys == lists.Keys
      invariant forall e | e in lists && e in todo :: sorted[e] == lists[e]
      invariant forall e | e in lists && e !in todo :: sorted[e] == Sort(RateBefore, lists[e])
      decreases |todo|
    {
      var e :| e in todo;
      sorted := sorted[e := Sort(RateBefore, sorted[e])];
      todo := todo - {e};
    }
  }

  method BuildEdges(book: seq<Order>) returns (edges: EdgeMap)
    ensures fresh(edges) && edges.Ready(book)
  {
    edges := new EdgeMap();
    for i := 0 to |book|
      invariant fresh(edges) && edges.Holds(book[..i])
    {
      edges.Add(book[i], book[..i]);
      assert book[..i] + [book[i]] == book[..i + 1];
    }
    assert book[..|book|] == book;
    edges.SortLists(book);
  }

  /** consider: prefilter, skip what was found before, keep a riskless sizing. */
  method VisitCycle(found: seq<Entry>, fee: int, cycle: seq<Order>) returns (found': seq<Entry>)
    ensures found' == Consider(found, fee, cycle)
  {
    var profitable := CheckRateProduct(cycle);
    if !profitable || HasId(found, CycleId(cycle)) {
      return found;
    }
    var ev := EvaluateCycle(cycle, fee);
    assert Consider(found, fee, cycle) == Record(found, cycle, ev);
    found' := if ev.Some? then found + [Entry(CycleId(cycle), cycle, ev.value)] else found;
  }

  /** The scan's running state: the found map, in insertion order. */
  class Finder {
    const book: seq<Order>
    const fee: int
    const edges: EdgeMap
    var found: seq<Entry>

    constructor (book: seq<Order>, fee: int, edges: EdgeMap)
      ensures this.book == book && this.fee == fee && this.edges == edges && found == []
    {
      this.book, this.fee, this.edges, found := book, fee, edges, [];
    }

    method Visit(cycle: seq<Order>)
      modifies this`found
      ensures found == Consider(old(found), fee, cycle)
    {
      found := VisitCycle(found, fee, cycle);
    }

    method VisitLast(prefix: seq<Order>, last: seq<Order>)
      modifies this`found
      ensures found == ConsiderAll(old(found), fee, Extend(prefix, last))
    {
      for i := 0 to |last|
        invariant found == ConsiderAll(old(found), fee, Extend(prefix, last[..i]))
      {
        PrefixStep(last, i);
        ConsiderMore(old(found), fee, Extend(prefix, last[..i]), [prefix + [last[i]]]);
        ConsiderOne(found, fee, prefix + [last[i]]);
        Visit(prefix + [last[i]]);
      }
      assert last[..|last|] == last;
    }

    method VisitDirect(first: seq<Order>, second: seq<Order>)
      modifies this`found
      ensures found == ConsiderAll(old(found), fee, Cross2(first, second))
    {
      for i := 0 to |first|
        invariant found == ConsiderAll(old(found), fee, Cross2(first[..i], second))
      {
        PrefixStep(first, i);
        ConsiderMore(old(found), fee, Cross2(first[..i], second), Extend([first[i]], second));
        VisitLast([first[i]], second);
      }
      assert first[..|first|] == first;
    }

    method VisitTriangle(first: seq<Order>, second: seq<Order>, third: seq<Order>)
      modifies this`found
      ensures found == ConsiderAll(old(found), fee, Cross3(first, second, third))
    {
      for i := 0 to |first|
        invariant found == ConsiderAll(old(found), fee, Cross3(first[..i], second, third))
      {
        PrefixStep(first, i);
        ConsiderMore(old(found), fee, Cross3(first[..i], second, third), Cross3From(first[i], second, third));
        ghost var before := found;
        for j := 0 to |second|
          invariant found == ConsiderAll(before, fee, Cross3From(first[i], second[..j], third))
        {
          PrefixStep(second, j);
          ConsiderMore(before, fee, Cross3From(first[i], second[..j], third), Extend([first[i], second[j]], third));
          VisitLast([first[i], second[j]], third);
        }
        assert second[..|second|] == second;
      }
      assert first[..|first|] == first;
    }

    /** The inner loop of the 2-cycles. */
    method FindDirectsFrom(k: nat, a: string)
      requires edges.Ready(book)
      modifies this`found
      ensures found == ConsiderAll(old(found), fee, DirectFrom(book, k)(a))
    {
      var targets := edges.TargetsOf(a);
      for j := 0 to |targets|
        invariant found == ConsiderAll(old(found), fee, FlatMap(DirectVia(book, k, a), targets[..j]))
      {
        PrefixStep(targets, j);
        var b := targets[j];
        ConsiderMore(old(found), fee, FlatMap(DirectVia(book, k, a), targets[..j]), DirectAt(book, k, a, b));
        if StrLess(a, b) {
          VisitDirect(FirstOf(edges.At(a, b), k), FirstOf(edges.At(b, a), k));
        }
      }
      assert targets[..|targets|] == targets;
    }

    /** The 2-cycle loops. */
    method FindDirects(k: nat)
      requires edges.Ready(book)
      modifies this`found
      ensures found == ConsiderAll(old(found), fee, Directs(book, k, Assets(book)))
    {
      var assets := edges.assets;
      for i := 0 to |assets|
        invariant found == ConsiderAll(old(found), fee, Directs(book, k, assets[..i]))
      {
        PrefixStep(assets, i);
        ConsiderMore(old(found), fee, Directs(book, k, assets[..i]), DirectFrom(book, k)(assets[i]));
        FindDirectsFrom(k, assets[i]);
      }
      assert assets[..|assets|] == assets;
    }

    /** The innermost asset loop of the 3-cycles. */
    method FindTrianglesVia(k: nat, a: string, b: string)
      requires edges.Ready(book)
      modifies this`found
      ensures found == ConsiderAll(old(found), fee, FlatMap(TriangleVia(book, k, a, b), Targets(book, b)))
    {
      var targets := edges.TargetsOf(b);
      for j := 0 to |targets|
        invariant found == ConsiderAll(old(found), fee, FlatMap(TriangleVia(book, k, a, b), targets[..j]))
      {
        PrefixStep(targets, j);
        var c := targets[j];
        ConsiderMore(old(found), fee, FlatMap(TriangleVia(book, k, a, b), targets[..j]), TriangleAt(book, k, a, b, c));
        if !StrLess(a, c) || c == b {
          continue;
        }
        if edges.At(c, a) == [] {
          continue;
        }
        VisitTriangle(FirstOf(edges.At(a, b), k), FirstOf(edges.At(b, c), k), FirstOf(edges.At(c, a), k));
      }
      assert targets[..|targets|] == targets;
    }

    /** The middle loop of the 3-cycles. */
    method FindTrianglesFrom(k: nat, a: string)
      requires edges.Ready(book)
      modifies this`found
      ensures found == ConsiderAll(old(found), fee, TrianglesFrom(book, k)(a))
    {
      var targets := edges.TargetsOf(a);
      for j := 0 to |targets|
        invariant found == ConsiderAll(old(found), fee, FlatMap(TrianglesThrough(book, k, a), targets[..j]))
      {
        PrefixStep(targets, j);
        var b := targets[j];
        ConsiderMore(old(found), fee, FlatMap(TrianglesThrough(book, k, a), targets[..j]), TrianglesThrough(book, k, a)(b));
        if !StrLess(a, b) {
          continue;
        }
        FindTrianglesVia(k, a, b);
      }
      assert targets[..|targets|] == targets;
    }

    /** The 3-cycle loops. */
    method FindTriangles(k: nat)
      requires edges.Ready(book)
      modifies this`found
      ensures found == ConsiderAll(old(found), fee, Triangles(book, k, Assets(book)))
    {
      var assets := edges.assets;
      for i := 0 to |assets|
        invariant found == ConsiderAll(old(found), fee, Triangles(book, k, assets[..i]))
      {
        PrefixStep(assets, i);
        ConsiderMore(old(found), fee, Triangles(book, k, assets[..i]), TrianglesFrom(book, k)(assets[i]));
        FindTrianglesFrom(k, assets[i]);
      }
      assert assets[..|assets|] == assets;
    }
  }

  lemma {:induction false} ConsiderOne(found: seq<Entry>, fee: int, cycle: seq<Order>)
    ensures ConsiderAll(found, fee, [cycle]) == Consider(found, fee, cycle)
  {
    assert [cycle][..0] == [];
  }

  method FindArbitrage(orders: seq<Order>, p: ArbitrageParams) returns (opportunities: seq<Entry>)
    ensures opportunities == Scan(orders, p)
  {
    var open := Book(orders, p.nowPosixMs);
    var edges := BuildEdges(open);
    var finder := new Finder(open, p.fee, edges);
    finder.FindDirects(p.directTopK);
    finder.FindTriangles(p.triangularTopK);
    ConsiderMore([], p.fee, Directs(open, p.directTopK, Assets(open)), Triangles(open, p.triangularTopK, Assets(open)));
    var ranked := Sort(MarginBefore, finder.found);
    opportunities := FirstOf(ranked, p.maxOpportunities);
  }
}
