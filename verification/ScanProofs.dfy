/**
 * The scan is exact: it finds precisely the 2- and 3-cycles of the open book, over distinct
 * assets and over the best orders of each edge, that some rotation chains risklessly, each
 * once, and ranks them by margin.
 */
module ScanProofs {
  import opened Wrappers
  import opened ByteStrings
  import opened Sequences
  import opened Decimals
  import opened Sorting
  import opened Orders
  import opened Products
  import opened Arbitrage
  import opened ArbitrageProofs
  import opened Sizings
  import SmartFillProofs

  // ---------------------------------------------------- the book's edges

  lemma {:induction false} BookIs(orders: seq<Order>, now: int, o: Order)
    ensures o in Book(orders, now) <==> o in orders && Scannable(o, now)
  {
    if orders != [] {
      BookIs(orders[..|orders| - 1], now, o);
      assert orders == orders[..|orders| - 1] + [orders[|orders| - 1]];
    }
  }

  lemma {:induction false} EdgeOrdersAre(book: seq<Order>, from: string, to: string, o: Order)
    ensures o in EdgeOrders(book, from, to) <==> o in book && IsEdge(o, from, to)
    ensures |EdgeOrders(book, from, to)| <= |book|
  {
    if book != [] {
      EdgeOrdersAre(book[..|book| - 1], from, to, o);
      assert book == book[..|book| - 1] + [book[|book| - 1]];
    }
  }

  lemma {:induction false} EdgeIs(book: seq<Order>, from: string, to: string, o: Order)
    ensures o in Edge(book, from, to) <==> o in book && IsEdge(o, from, to)
    ensures |Edge(book, from, to)| <= |book|
  {
    EdgeOrdersAre(book, from, to, o);
    SortKeepsElements(RateBefore, EdgeOrders(book, from, to));
  }

  /** The scan looks at the first k orders of an edge; this is one of them. */
  predicate InFirst(book: seq<Order>, k: nat, o: Order) {
    o in FirstOf(Edge(book, RequestedAssetId(o), OfferedAssetId(o)), k)
  }

  function LooksAt(book: seq<Order>, k: nat): Order -> bool {
    (o: Order) => InFirst(book, k, o)
  }

  ghost predicate AllInFirst(book: seq<Order>, k: nat, c: seq<Order>) {
    Each(LooksAt(book, k), c)
  }

  lemma {:induction false} FirstOfEdge(book: seq<Order>, k: nat, from: string, to: string, o: Order)
    ensures o in FirstOf(Edge(book, from, to), k) <==> o in book && IsEdge(o, from, to) && InFirst(book, k, o)
    ensures k >= |book| && o in book && IsEdge(o, from, to) ==> InFirst(book, k, o)
  {
    EdgeIs(book, from, to, o);
  }

  lemma {:induction false} AssetsInclude(book: seq<Order>, o: Order)
    requires o in book && RequestedAssetId(o) != OfferedAssetId(o)
    ensures RequestedAssetId(o) in Assets(book) && OfferedAssetId(o) in Targets(book, RequestedAssetId(o))
  {
    var init, last := book[..|book| - 1], book[|book| - 1];
    assert book == init + [last];
    if o != last {
      AssetsInclude(init, o);
    }
  }

  // ------------------------------------------------------ candidate cycles

  lemma {:induction false} ExtendIs(prefix: seq<Order>, last: seq<Order>, c: seq<Order>)
    ensures c in Extend(prefix, last) <==> |c| == |prefix| + 1 && c[..|prefix|] == prefix && c[|prefix|] in last
  {
    if last != [] {
      var n := |last| - 1;
      ExtendIs(prefix, last[..n], c);
      assert last == last[..n] + [last[n]];
      assert c == prefix + [last[n]] <==> |c| == |prefix| + 1 && c[..|prefix|] == prefix && c[|prefix|] == last[n];
    }
  }

  lemma {:induction false} Cross2Is(first: seq<Order>, second: seq<Order>, c: seq<Order>)
    ensures c in Cross2(first, second) <==> |c| == 2 && c[0] in first && c[1] in second
  {
    if first != [] {
      var n := |first| - 1;
      Cross2Is(first[..n], second, c);
      ExtendIs([first[n]], second, c);
      assert first == first[..n] + [first[n]];
      assert |c| == 2 ==> (c[..1] == [first[n]] <==> c[0] == first[n]);
    }
  }

  lemma {:induction false} Cross3FromIs(o: Order, second: seq<Order>, third: seq<Order>, c: seq<Order>)
    ensures c in Cross3From(o, second, third) <==> |c| == 3 && c[0] == o && c[1] in second && c[2] in third
  {
    if second != [] {
      var n := |second| - 1;
      Cross3FromIs(o, second[..n], third, c);
      ExtendIs([o, second[n]], third, c);
      assert second == second[..n] + [second[n]];
      assert |c| == 3 ==> (c[..2] == [o, second[n]] <==> c[0] == o && c[1] == second[n]);
    }
  }

  lemma {:induction false} Cross3Is(first: seq<Order>, second: seq<Order>, third: seq<Order>, c: seq<Order>)
    ensures c in Cross3(first, second, third) <==> |c| == 3 && c[0] in first && c[1] in second && c[2] in third
  {
    if first != [] {
      var n := |first| - 1;
      Cross3Is(first[..n], second, third, c);
      Cross3FromIs(first[n], second, third, c);
      assert first == first[..n] + [first[n]];
    }
  }

  /** A cycle of the book that starts at its smallest pay asset. */
  ghost predicate Anchored(book: seq<Order>, c: seq<Order>) {
    && IsCycle(c) && |c| <= 3
    && (forall i | 0 <= i < |c| :: c[i] in book)
    && (forall i | 0 < i < |c| :: StrLess(RequestedAssetId(c[0]), RequestedAssetId(c[i])))
  }

  predicate DirectCycle(book: seq<Order>, c: seq<Order>, a: string, b: string) {
    |c| == 2 && c[0] in book && c[1] in book && IsEdge(c[0], a, b) && IsEdge(c[1], b, a) && StrLess(a, b)
  }

  predicate TriangleCycle(book: seq<Order>, c: seq<Order>, a: string, b: string, d: string) {
    && |c| == 3 && c[0] in book && c[1] in book && c[2] in book
    && IsEdge(c[0], a, b) && IsEdge(c[1], b, d) && IsEdge(c[2], d, a)
    && StrLess(a, b) && StrLess(a, d) && d != b
  }

  lemma {:induction false} DirectIsAnchored(book: seq<Order>, c: seq<Order>)
    requires |c| == 2
    ensures Anchored(book, c) <==> DirectCycle(book, c, RequestedAssetId(c[0]), OfferedAssetId(c[0]))
  {
    StrLessIsStrictTotal(RequestedAssetId(c[0]), RequestedAssetId(c[0]), RequestedAssetId(c[0]));
    assert IsCycle(c) ==> LinksOn(c, 0) && LinksOn(c, 1);
  }

  lemma {:induction false} TriangleIsAnchored(book: seq<Order>, c: seq<Order>)
    requires |c| == 3
    ensures Anchored(book, c)
       <==> TriangleCycle(book, c, RequestedAssetId(c[0]), OfferedAssetId(c[0]), OfferedAssetId(c[1]))
  {
    StrLessIsStrictTotal(RequestedAssetId(c[0]), RequestedAssetId(c[0]), RequestedAssetId(c[0]));
    assert IsCycle(c) ==> LinksOn(c, 0) && LinksOn(c, 1) && LinksOn(c, 2);
  }

  lemma {:induction false} DirectAtIs(book: seq<Order>, k: nat, a: string, b: string, c: seq<Order>)
    requires StrLess(a, b)
    ensures c in DirectAt(book, k, a, b) <==> DirectCycle(book, c, a, b) && AllInFirst(book, k, c)
  {
    var ab, ba := FirstOf(Edge(book, a, b), k), FirstOf(Edge(book, b, a), k);
    assert DirectAt(book, k, a, b) == Cross2(ab, ba);
    Cross2Is(ab, ba, c);
    if |c| == 2 {
      EachOfTwo(LooksAt(book, k), c);
      FirstOfEdge(book, k, a, b, c[0]);
      FirstOfEdge(book, k, b, a, c[1]);
    }
  }

  /** A triangle is looked for only where its last edge has an order. */
  lemma {:induction false} TriangleAtCrosses(book: seq<Order>, k: nat, a: string, b: string, d: string, c: seq<Order>)
    ensures c in TriangleAt(book, k, a, b, d) <==>
      && StrLess(a, d) && d != b && |c| == 3 && c[0] in FirstOf(Edge(book, a, b), k)
      && c[1] in FirstOf(Edge(book, b, d), k) && c[2] in FirstOf(Edge(book, d, a), k)
  {
    Cross3Is(FirstOf(Edge(book, a, b), k), FirstOf(Edge(book, b, d), k), FirstOf(Edge(book, d, a), k), c);
  }

  lemma {:induction false} TriangleAtIs(book: seq<Order>, k: nat, a: string, b: string, d: string, c: seq<Order>)
    requires StrLess(a, b)
    ensures c in TriangleAt(book, k, a, b, d) <==> TriangleCycle(book, c, a, b, d) && AllInFirst(book, k, c)
  {
    TriangleAtCrosses(book, k, a, b, d, c);
    if |c| == 3 {
      EachOfThree(LooksAt(book, k), c);
      FirstOfEdge(book, k, a, b, c[0]);
      FirstOfEdge(book, k, b, d, c[1]);
      FirstOfEdge(book, k, d, a, c[2]);
    }
  }

  /** Only anchored cycles are considered, each over orders the limit lets through. */
  lemma {:induction false} DirectsAreAnchored(book: seq<Order>, k: nat, c: seq<Order>)
    requires c in Directs(book, k, Assets(book))
    ensures Anchored(book, c) && |c| == 2 && AllInFirst(book, k, c)
  {
    var assets := Assets(book);
    var i := FlatMapAt(DirectFrom(book, k), assets, c);
    var a, targets := assets[i], Targets(book, assets[i]);
    var j := FlatMapAt(DirectVia(book, k, a), targets, c);
    assert StrLess(a, targets[j]);
    DirectAtIs(book, k, a, targets[j], c);
    DirectIsAnchored(book, c);
  }

  lemma {:induction false} TrianglesAreAnchored(book: seq<Order>, k: nat, c: seq<Order>)
    requires c in Triangles(book, k, Assets(book))
    ensures Anchored(book, c) && |c| == 3 && AllInFirst(book, k, c)
  {
    var assets := Assets(book);
    var i := FlatMapAt(TrianglesFrom(book, k), assets, c);
    var a, targets := assets[i], Targets(book, assets[i]);
    var j := FlatMapAt(TrianglesThrough(book, k, a), targets, c);
    var b, via := targets[j], Targets(book, targets[j]);
    var l := FlatMapAt(TriangleVia(book, k, a, b), via, c);
    TriangleAtIs(book, k, a, b, via[l], c);
    TriangleIsAnchored(book, c);
  }

  /** And every such cycle is. */
  lemma {:induction false} AnchoredDirect(book: seq<Order>, k: nat, c: seq<Order>)
    requires Anchored(book, c) && |c| == 2 && AllInFirst(book, k, c)
    ensures c in Directs(book, k, Assets(book))
  {
    DirectIsAnchored(book, c);
    var a, b := RequestedAssetId(c[0]), OfferedAssetId(c[0]);
    AssetsInclude(book, c[0]);
    DirectAtIs(book, k, a, b, c);
    var assets, targets := Assets(book), Targets(book, a);
    var i :| 0 <= i < |assets| && assets[i] == a;
    var j :| 0 <= j < |targets| && targets[j] == b;
    FlatMapHas(DirectVia(book, k, a), targets, j, c);
    FlatMapHas(DirectFrom(book, k), assets, i, c);
  }

  lemma {:induction false} AnchoredTriangle(book: seq<Order>, k: nat, c: seq<Order>)
    requires Anchored(book, c) && |c| == 3 && AllInFirst(book, k, c)
    ensures c in Triangles(book, k, Assets(book))
  {
    TriangleIsAnchored(book, c);
    var a, b, d := RequestedAssetId(c[0]), OfferedAssetId(c[0]), OfferedAssetId(c[1]);
    AssetsInclude(book, c[0]);
    AssetsInclude(book, c[1]);
    TriangleAtIs(book, k, a, b, d, c);
    var assets, targets, via := Assets(book), Targets(book, a), Targets(book, b);
    var i :| 0 <= i < |assets| && assets[i] == a;
    var j :| 0 <= j < |targets| && targets[j] == b;
    var l :| 0 <= l < |via| && via[l] == d;
    FlatMapHas(TriangleVia(book, k, a, b), via, l, c);
    FlatMapHas(TrianglesThrough(book, k, a), targets, j, c);
    FlatMapHas(TrianglesFrom(book, k), assets, i, c);
  }

  function Limit(p: ArbitrageParams, c: seq<Order>): nat {
    if |c| == 2 then p.directTopK else p.triangularTopK
  }

  /** The cycles considered, whatever the limits: anchored, over orders the limit lets through. */
  lemma {:induction false} CandidatesAre(book: seq<Order>, p: ArbitrageParams, c: seq<Order>)
    ensures c in Candidates(book, p) <==> Anchored(book, c) && AllInFirst(book, Limit(p, c), c)
  {
    if c in Directs(book, p.directTopK, Assets(book)) {
      DirectsAreAnchored(book, p.directTopK, c);
    }
    if c in Triangles(book, p.triangularTopK, Assets(book)) {
      TrianglesAreAnchored(book, p.triangularTopK, c);
    }
    if Anchored(book, c) && AllInFirst(book, Limit(p, c), c) {
      if |c| == 2 {
        AnchoredDirect(book, p.directTopK, c);
      } else {
        AnchoredTriangle(book, p.triangularTopK, c);
      }
    }
  }

  // ------------------------------------------------ what the limits leave out

  /** x trades what o trades and gives more for it, or as much under a smaller id. */
  predicate Outbids(x: Order, o: Order) {
    && RequestedAssetId(x) == RequestedAssetId(o) && OfferedAssetId(x) == OfferedAssetId(o)
    && (x.offeredAmount * o.requestedAmount > o.offeredAmount * x.requestedAmount
        || (x.offeredAmount * o.requestedAmount == o.offeredAmount * x.requestedAmount
            && StrLess(OrderId(x.ref), OrderId(o.ref))))
  }

  ghost function BetterOnEdge(book: seq<Order>, o: Order): set<Order> {
    set x | x in book && Outbids(x, o)
  }

  lemma {:induction false} AheadOutbids(book: seq<Order>, o: Order)
    requires RequestedAssetId(o) != OfferedAssetId(o)
    ensures Ahead(RateBefore, EdgeOrders(book, RequestedAssetId(o), OfferedAssetId(o)), o) == BetterOnEdge(book, o)
  {
    var from, to := RequestedAssetId(o), OfferedAssetId(o);
    forall x ensures x in Ahead(RateBefore, EdgeOrders(book, from, to), o) <==> x in BetterOnEdge(book, o) {
      EdgeOrdersAre(book, from, to, x);
      assert IsEdge(x, from, to) ==> (RateBefore(x, o) <==> Outbids(x, o));
    }
  }

  /** Every order of the cycle is one of the best of its edge, as many as the limit lets through. */
  ghost predicate WithinLimits(book: seq<Order>, p: ArbitrageParams, c: seq<Order>) {
    forall i | 0 <= i < |c| :: |BetterOnEdge(book, c[i])| < Limit(p, c)
  }

  ghost predicate PositiveBook(book: seq<Order>) {
    DistinctBook(book) && forall i | 0 <= i < |book| :: book[i].offeredAmount > 0 && book[i].requestedAmount > 0
  }

  lemma {:induction false} RateBeforeTransitive(a: Order, b: Order, c: Order)
    requires a.offeredAmount > 0 && a.requestedAmount > 0 && b.offeredAmount > 0 && b.requestedAmount > 0
    requires c.offeredAmount > 0 && c.requestedAmount > 0 && RateBefore(a, b) && RateBefore(b, c)
    ensures RateBefore(a, c)
  {
    StrLessIsStrictTotal(OrderId(a.ref), OrderId(b.ref), OrderId(c.ref));
    SmartFillProofs.CrossTransitive(a.requestedAmount, a.offeredAmount, b.requestedAmount, b.offeredAmount,
      c.requestedAmount, c.offeredAmount);
    if !BetterRate(a, b) && !BetterRate(b, c) {
      SmartFillProofs.CrossTransitive(c.requestedAmount, c.offeredAmount, b.requestedAmount, b.offeredAmount,
        a.requestedAmount, a.offeredAmount);
    }
  }

  lemma {:induction false} RateBeforeIsStrictTotal(book: seq<Order>)
    requires PositiveBook(book)
    ensures StrictTotalOn(RateBefore, Elements(book))
  {
    var dom := Elements(book);
    forall x | x in dom ensures !RateBefore(x, x) {
      StrLessIsStrictTotal(OrderId(x.ref), OrderId(x.ref), OrderId(x.ref));
    }
    forall x, y | x in dom && y in dom && x != y ensures RateBefore(x, y) || RateBefore(y, x) {
      StrLessIsStrictTotal(OrderId(x.ref), OrderId(y.ref), OrderId(x.ref));
      if OrderId(x.ref) == OrderId(y.ref) {
        SameIdSameOrder(book, x, y);
      }
    }
    forall x, y, z | x in dom && y in dom && z in dom && RateBefore(x, y) && RateBefore(y, z) ensures RateBefore(x, z) {
      RateBeforeTransitive(x, y, z);
    }
  }

  lemma {:induction false} EdgeOrdersOnce(book: seq<Order>, from: string, to: string)
    requires DistinctOrders(book)
    ensures NoRepeats(EdgeOrders(book, from, to))
  {
    if book != [] {
      var init, last := book[..|book| - 1], book[|book| - 1];
      EdgeOrdersOnce(init, from, to);
      EdgeOrdersAre(init, from, to, last);
      assert forall i | 0 <= i < |init| :: init[i].ref != last.ref;
    }
  }

  /** An edge is sorted from its best order on, each order once. */
  lemma {:induction false} EdgeIsRanked(book: seq<Order>, from: string, to: string)
    requires PositiveBook(book)
    ensures Sorted(RateBefore, Edge(book, from, to)) && NoRepeats(Edge(book, from, to))
    ensures Within(Edge(book, from, to), Elements(book))
  {
    var edge := EdgeOrders(book, from, to);
    RateBeforeIsStrictTotal(book);
    forall i | 0 <= i < |edge| ensures edge[i] in Elements(book) {
      EdgeOrdersAre(book, from, to, edge[i]);
    }
    SortSorts(RateBefore, edge, Elements(book));
    EdgeOrdersOnce(book, from, to);
    PermutationWithoutRepeats(edge, Edge(book, from, to));
  }

  /** An order is looked at exactly when fewer orders of its edge are better than the limit allows. */
  lemma {:induction false} InFirstIsRank(book: seq<Order>, k: nat, o: Order)
    requires PositiveBook(book) && o in book && RequestedAssetId(o) != OfferedAssetId(o)
    ensures InFirst(book, k, o) <==> |BetterOnEdge(book, o)| < k
    ensures |BetterOnEdge(book, o)| < |book|
  {
    var from, to := RequestedAssetId(o), OfferedAssetId(o);
    EdgeIs(book, from, to, o);
    EdgeIsRanked(book, from, to);
    RateBeforeIsStrictTotal(book);
    AheadPermutes(RateBefore, EdgeOrders(book, from, to), Edge(book, from, to), o);
    AheadOutbids(book, o);
    RankOf(RateBefore, Edge(book, from, to), Elements(book), o, k);
  }

  /** Over an anchored cycle of the book the limit and the rank say the same. */
  lemma {:induction false} LimitsAreRanks(book: seq<Order>, p: ArbitrageParams, c: seq<Order>)
    requires PositiveBook(book) && Anchored(book, c)
    ensures AllInFirst(book, Limit(p, c), c) <==> WithinLimits(book, p, c)
    ensures Limit(p, c) >= |book| ==> WithinLimits(book, p, c)
  {
    forall i | 0 <= i < |c|
      ensures LooksAt(book, Limit(p, c))(c[i]) <==> |BetterOnEdge(book, c[i])| < Limit(p, c)
      ensures |BetterOnEdge(book, c[i])| < |book| {
      CycleTrades(c, i);
      InFirstIsRank(book, Limit(p, c), c[i]);
    }
  }

  lemma {:induction false} CycleTrades(c: seq<Order>, i: nat)
    requires IsCycle(c) && i < |c|
    ensures RequestedAssetId(c[i]) != OfferedAssetId(c[i])
  {
    assert LinksOn(c, i);
  }

  // ------------------------------------------------------------- cycle ids

  predicate NoPlus(s: string) {
    forall i | 0 <= i < |s| :: s[i] != '+'
  }

  predicate NonePlus(ids: seq<string>) {
    forall i | 0 <= i < |ids| :: NoPlus(ids[i])
  }

  lemma {:induction false} FirstPlus(x: string, rest: string, y: string, rest': string)
    requires NoPlus(x) && NoPlus(y) && x + "+" + rest == y + "+" + rest'
    ensures x == y && rest == rest'
  {
    var s := x + "+" + rest;
    var n, m := |x|, |y|;
    assert s[n] == '+' && s[m] == '+';
    assert forall i | 0 <= i < n :: s[i] == x[i];
    assert forall i | 0 <= i < m :: s[i] == y[i];
    assert n == m;
    assert s[..n] == x && s[..m] == y && s[n + 1..] == rest && s[m + 1..] == rest';
  }

  lemma {:induction false} OnePlus(x: string, y: string, rest: string)
    requires NoPlus(x)
    ensures x != y + "+" + rest
  {
    assert (y + "+" + rest)[|y|] == '+';
  }

  /** Joined ids read apart: they contain no plus sign. */
  lemma {:induction false} JoinInjective(a: seq<string>, b: seq<string>)
    requires a != [] && b != [] && NonePlus(a) && NonePlus(b) && Join(a) == Join(b)
    ensures a == b
  {
    if |a| == 1 && |b| == 1 {
      assert a == [a[0]] && b == [b[0]];
    } else if |a| == 1 {
      OnePlus(a[0], b[0], Join(b[1..]));
    } else if |b| == 1 {
      OnePlus(b[0], a[0], Join(a[1..]));
    } else {
      FirstPlus(a[0], Join(a[1..]), b[0], Join(b[1..]));
      JoinInjective(a[1..], b[1..]);
      assert a == [a[0]] + a[1..] && b == [b[0]] + b[1..];
    }
  }

  lemma {:induction false} OrderIdHasNoPlus(r: OutRef)
    requires IsTxHash(r.txHash)
    ensures NoPlus(OrderId(r))
  {
    PrintHasNoLeadingZero(r.index);
  }

  lemma {:induction false} SameIdSameOrder(book: seq<Order>, x: Order, y: Order)
    requires DistinctBook(book) && x in book && y in book && OrderId(x.ref) == OrderId(y.ref)
    ensures x == y
  {
    OrderIdInjective(x.ref, y.ref);
  }

  lemma {:induction false} IdsHaveNoPlus(book: seq<Order>, c: seq<Order>)
    requires DistinctBook(book) && forall i | 0 <= i < |c| :: c[i] in book
    ensures NonePlus(Sort(StrLess, IdsOf(c))) && |Sort(StrLess, IdsOf(c))| == |c|
  {
    var sorted := Sort(StrLess, IdsOf(c));
    SortKeepsElements(StrLess, IdsOf(c));
    forall i | 0 <= i < |sorted| ensures NoPlus(sorted[i]) {
      assert sorted[i] in sorted;
      IdHasNoPlus(book, c, sorted[i]);
    }
  }

  lemma {:induction false} IdHasNoPlus(book: seq<Order>, c: seq<Order>, id: string)
    requires DistinctBook(book) && (forall i | 0 <= i < |c| :: c[i] in book) && id in IdsOf(c)
    ensures NoPlus(id)
  {
    var k :| 0 <= k < |c| && IdsOf(c)[k] == id;
    assert c[k] in book;
    OrderIdHasNoPlus(c[k].ref);
  }

  lemma {:induction false} SameCycleIds(book: seq<Order>, c: seq<Order>, d: seq<Order>)
    requires DistinctBook(book) && c != [] && d != []
    requires (forall i | 0 <= i < |c| :: c[i] in book) && (forall i | 0 <= i < |d| :: d[i] in book)
    requires CycleId(c) == CycleId(d)
    ensures |c| == |d| && multiset(IdsOf(c)) == multiset(IdsOf(d))
  {
    IdsHaveNoPlus(book, c);
    IdsHaveNoPlus(book, d);
    JoinInjective(Sort(StrLess, IdsOf(c)), Sort(StrLess, IdsOf(d)));
  }

  /** Cycles under one id have the same orders. */
  lemma {:induction false} SameCycleOrders(book: seq<Order>, c: seq<Order>, d: seq<Order>, k: nat) returns (j: nat)
    requires DistinctBook(book) && k < |c| && |d| == |c|
    requires (forall i | 0 <= i < |c| :: c[i] in book) && (forall i | 0 <= i < |d| :: d[i] in book)
    requires multiset(IdsOf(c)) == multiset(IdsOf(d))
    ensures j < |d| && d[j] == c[k]
  {
    SameElements(IdsOf(c), IdsOf(d));
    assert IdsOf(c)[k] in IdsOf(c);
    j :| 0 <= j < |d| && IdsOf(d)[j] == IdsOf(c)[k];
    assert c[k] in book && d[j] in book;
    SameIdSameOrder(book, c[k], d[j]);
  }

  lemma {:induction false} SameAnchor(book: seq<Order>, c: seq<Order>, d: seq<Order>)
    requires DistinctBook(book) && Anchored(book, c) && Anchored(book, d)
    requires |c| == |d| && multiset(IdsOf(c)) == multiset(IdsOf(d))
    ensures c[0] == d[0]
  {
    var i := SameCycleOrders(book, c, d, 0);
    var j := SameCycleOrders(book, d, c, 0);
    StrLessIsStrictTotal(RequestedAssetId(c[0]), RequestedAssetId(d[0]), RequestedAssetId(c[0]));
  }

  lemma {:induction false} SameNext(book: seq<Order>, c: seq<Order>, d: seq<Order>, k: nat)
    requires DistinctBook(book) && Anchored(book, c) && Anchored(book, d)
    requires |c| == |d| && multiset(IdsOf(c)) == multiset(IdsOf(d))
    requires k + 1 < |c| && c[k] == d[k]
    ensures c[k + 1] == d[k + 1]
  {
    var j := SameCycleOrders(book, c, d, k + 1);
    assert LinksOn(c, k) && LinksOn(d, k);
    assert RequestedAssetId(d[j]) == RequestedAssetId(d[k + 1]);
  }

  lemma {:induction false} SameAt(book: seq<Order>, c: seq<Order>, d: seq<Order>, k: nat)
    requires DistinctBook(book) && Anchored(book, c) && Anchored(book, d)
    requires |c| == |d| && multiset(IdsOf(c)) == multiset(IdsOf(d)) && k < |c|
    ensures c[k] == d[k]
  {
    if k == 0 {
      SameAnchor(book, c, d);
    } else {
      SameAt(book, c, d, k - 1);
      SameNext(book, c, d, k - 1);
    }
  }

  lemma {:induction false} SameIdsSameCycle(book: seq<Order>, c: seq<Order>, d: seq<Order>)
    requires DistinctBook(book) && Anchored(book, c) && Anchored(book, d)
    requires |c| == |d| && multiset(IdsOf(c)) == multiset(IdsOf(d))
    ensures c == d
  {
    forall k | 0 <= k < |c| ensures c[k] == d[k] {
      SameAt(book, c, d, k);
    }
  }

  /** The id of an anchored cycle tells it apart from every other. */
  lemma {:induction false} CycleIdInjective(book: seq<Order>, c: seq<Order>, d: seq<Order>)
    requires DistinctBook(book) && Anchored(book, c) && Anchored(book, d) && CycleId(c) == CycleId(d)
    ensures c == d
  {
    SameCycleIds(book, c, d);
    SameIdsSameCycle(book, c, d);
  }

  // ------------------------------------------------------------- found map

  /** A found entry is a considered cycle, under its id, with its best riskless sizing. */
  ghost predicate EntryOf(e: Entry, fee: int, cycles: seq<seq<Order>>) {
    e.orders in cycles && e.id == CycleId(e.orders) && Best(e.orders, fee) == Some(e.ev)
  }

  ghost predicate EntriesOf(found: seq<Entry>, fee: int, cycles: seq<seq<Order>>) {
    && (forall i | 0 <= i < |found| :: EntryOf(found[i], fee, cycles))
    && (forall i, j | 0 <= i < j < |found| :: found[i].id != found[j].id)
  }

  lemma {:induction false} EntriesAre(fee: int, cycles: seq<seq<Order>>)
    ensures EntriesOf(ConsiderAll([], fee, cycles), fee, cycles)
  {
    if cycles != [] {
      var init, last := cycles[..|cycles| - 1], cycles[|cycles| - 1];
      EntriesAre(fee, init);
      var found := ConsiderAll([], fee, init);
      assert cycles == init + [last];
      forall i | 0 <= i < |found| ensures EntryOf(found[i], fee, cycles) {
        assert EntryOf(found[i], fee, init);
      }
      ConsiderKeepsIds(found, fee, last);
    }
  }

  lemma {:induction false} ConsiderKeepsIds(found: seq<Entry>, fee: int, c: seq<Order>)
    requires forall i, j | 0 <= i < j < |found| :: found[i].id != found[j].id
    ensures forall i, j | 0 <= i < j < |Consider(found, fee, c)| :: Consider(found, fee, c)[i].id != Consider(found, fee, c)[j].id
  {
    if RateProductPositive(c) && !HasId(found, CycleId(c)) {
      RecordKeepsIds(found, c, Best(c, fee));
    }
  }

  lemma {:induction false} RecordKeepsIds(found: seq<Entry>, c: seq<Order>, ev: Option<Evaluated>)
    requires forall i, j | 0 <= i < j < |found| :: found[i].id != found[j].id
    requires !HasId(found, CycleId(c))
    ensures forall i, j | 0 <= i < j < |Record(found, c, ev)| :: Record(found, c, ev)[i].id != Record(found, c, ev)[j].id
  {
    assert forall i | 0 <= i < |found| :: found[i].id != CycleId(c);
  }

  lemma {:induction false} ConsiderFinds(found: seq<Entry>, fee: int, c: seq<Order>, id: string)
    ensures HasId(found, id) ==> HasId(Consider(found, fee, c), id)
    ensures RateProductPositive(c) && Best(c, fee).Some? ==> HasId(Consider(found, fee, c), CycleId(c))
  {
    var after := Consider(found, fee, c);
    assert forall i | 0 <= i < |found| :: after[i] == found[i];
    if |after| > |found| {
      assert after[|found|].id == CycleId(c);
    }
  }

  lemma {:induction false} ConsideredIsFound(fee: int, cycles: seq<seq<Order>>, c: seq<Order>)
    requires c in cycles && RateProductPositive(c) && Best(c, fee).Some?
    ensures HasId(ConsiderAll([], fee, cycles), CycleId(c))
  {
    var init, last := cycles[..|cycles| - 1], cycles[|cycles| - 1];
    assert cycles == init + [last];
    ConsiderFinds(ConsiderAll([], fee, init), fee, last, CycleId(c));
    if c != last {
      ConsideredIsFound(fee, init, c);
    }
  }

  // -------------------------------------------------------------- exactness

  lemma {:induction false} BookKeeps(orders: seq<Order>, now: int)
    requires DistinctBook(orders)
    ensures DistinctBook(Book(orders, now))
    ensures forall i | 0 <= i < |Book(orders, now)| ::
      Book(orders, now)[i] in orders && Scannable(Book(orders, now)[i], now)
    ensures |Book(orders, now)| <= |orders|
  {
    if orders != [] {
      var init, last := orders[..|orders| - 1], orders[|orders| - 1];
      BookKeeps(init, now);
      assert orders == init + [last];
      forall i | 0 <= i < |Book(init, now)| ensures Book(init, now)[i].ref != last.ref {
        assert Book(init, now)[i] in init;
      }
    }
  }

  lemma {:induction false} AnchoredIsPositive(orders: seq<Order>, now: int, c: seq<Order>)
    requires DistinctBook(orders) && Anchored(Book(orders, now), c)
    ensures Positive(c)
  {
    BookKeeps(orders, now);
    forall i | 0 <= i < |c| ensures c[i].offeredAmount > 0 && c[i].requestedAmount > 0 {
      BookIs(orders, now, c[i]);
    }
  }

  ghost predicate SomeRotationRiskless(c: seq<Order>, fee: int) {
    exists r: nat :: r < |c| && EvaluateRotation(c, fee, r).Some?
  }

  ghost predicate IsFound(found: seq<Entry>, c: seq<Order>) {
    exists i :: 0 <= i < |found| && found[i].orders == c
  }

  /** What is found is an anchored cycle of the open book within the limits that some rotation chains risklessly. */
  lemma {:induction false} FoundIsRiskless(orders: seq<Order>, p: ArbitrageParams, c: seq<Order>)
    requires IsFound(Found(orders, p), c)
    ensures Anchored(Book(orders, p.nowPosixMs), c) && AllInFirst(Book(orders, p.nowPosixMs), Limit(p, c), c)
    ensures SomeRotationRiskless(c, p.fee)
  {
    var book := Book(orders, p.nowPosixMs);
    var found := Found(orders, p);
    EntriesAre(p.fee, Candidates(book, p));
    var i :| 0 <= i < |found| && found[i].orders == c;
    assert EntryOf(found[i], p.fee, Candidates(book, p));
    CandidatesAre(book, p, c);
    var r := BestIsBest(c, p.fee);
  }

  /** And every such cycle is found. */
  lemma {:induction false} RisklessIsFound(orders: seq<Order>, p: ArbitrageParams, c: seq<Order>)
    requires DistinctBook(orders) && AllInFirst(Book(orders, p.nowPosixMs), Limit(p, c), c)
    requires Anchored(Book(orders, p.nowPosixMs), c) && SomeRotationRiskless(c, p.fee)
    ensures IsFound(Found(orders, p), c)
  {
    var book := Book(orders, p.nowPosixMs);
    BookKeeps(orders, p.nowPosixMs);
    AnchoredIsPositive(orders, p.nowPosixMs, c);
    CandidatesAre(book, p, c);
    var r: nat :| r < |c| && EvaluateRotation(c, p.fee, r).Some?;
    PrefilterIsSound(c, p.fee, r);
    var best := BestIsBest(c, p.fee);
    ConsideredIsFound(p.fee, Candidates(book, p), c);
    FoundUnderItsId(book, p, c);
  }

  lemma {:induction false} FoundUnderItsId(book: seq<Order>, p: ArbitrageParams, c: seq<Order>)
    requires DistinctBook(book) && Anchored(book, c)
    requires HasId(ConsiderAll([], p.fee, Candidates(book, p)), CycleId(c))
    ensures IsFound(ConsiderAll([], p.fee, Candidates(book, p)), c)
  {
    var found := ConsiderAll([], p.fee, Candidates(book, p));
    EntriesAre(p.fee, Candidates(book, p));
    var i :| 0 <= i < |found| && found[i].id == CycleId(c);
    assert EntryOf(found[i], p.fee, Candidates(book, p));
    CandidatesAre(book, p, found[i].orders);
    CycleIdInjective(book, c, found[i].orders);
  }

  /** No cycle is found twice, and every entry carries its cycle's best riskless sizing. */
  lemma {:induction false} FoundOnce(orders: seq<Order>, p: ArbitrageParams, i: nat, j: nat)
    requires i < j < |Found(orders, p)|
    ensures Found(orders, p)[i].orders != Found(orders, p)[j].orders
    ensures Best(Found(orders, p)[i].orders, p.fee) == Some(Found(orders, p)[i].ev)
  {
    var cycles := Candidates(Book(orders, p.nowPosixMs), p);
    EntriesAre(p.fee, cycles);
    var found := Found(orders, p);
    assert EntryOf(found[i], p.fee, cycles) && EntryOf(found[j], p.fee, cycles);
  }

  // ---------------------------------------------------------------- ranking

  /** Fractions with positive denominators, compared by cross-multiplication. */
  predicate NotBelow(a: Margin, b: Margin) {
    a.num * b.den >= b.num * a.den
  }

  /** x has no smaller margin than y, and no larger id if they have the same. */
  predicate RankedAhead(x: Entry, y: Entry) {
    && NotBelow(MarginOf(x.orders), MarginOf(y.orders))
    && (NotBelow(MarginOf(y.orders), MarginOf(x.orders)) ==> !StrLess(y.id, x.id))
  }

  lemma {:induction false} FractionsChain(a: Margin, b: Margin, c: Margin)
    requires a.den > 0 && b.den > 0 && c.den > 0 && NotBelow(a, b) && NotBelow(b, c)
    ensures NotBelow(a, c)
    ensures NotBelow(c, a) ==> NotBelow(b, a) && NotBelow(c, b)
  {
    assert a.num * b.den * c.den >= b.num * a.den * c.den;
    assert b.num * c.den * a.den >= c.num * b.den * a.den;
    assert a.num * c.den * b.den >= c.num * a.den * b.den;
    if NotBelow(c, a) {
      FractionStep(a, b, c);
    }
  }

  lemma {:induction false} FractionStep(a: Margin, b: Margin, c: Margin)
    requires a.den > 0 && b.den > 0 && c.den > 0 && NotBelow(a, b) && NotBelow(b, c) && NotBelow(c, a)
    ensures NotBelow(b, a) && NotBelow(c, b)
  {
    assert c.num * a.den * b.den >= a.num * c.den * b.den;
    assert b.num * c.den * a.den >= c.num * b.den * a.den;
    assert b.num * a.den * c.den >= a.num * b.den * c.den;
    assert a.num * b.den * c.den >= b.num * a.den * c.den;
    assert c.num * b.den * a.den >= b.num * c.den * a.den;
  }

  /** Entries that can be ranked: positive denominators, and no id twice. */
  ghost predicate Rankable(found: seq<Entry>) {
    && (forall i | 0 <= i < |found| :: MarginOf(found[i].orders).den > 0)
    && (forall i, j | 0 <= i < j < |found| :: found[i].id != found[j].id)
  }

  lemma {:induction false} PositiveMargin(c: seq<Order>)
    requires Positive(c)
    ensures MarginOf(c).den > 0
  {
    MarginIsProducts(c);
    var asks := AskSeq(c);
    assert Products.AllPositive(asks);
    ProdPositive(asks);
  }

  lemma {:induction false} CandidateMargin(orders: seq<Order>, p: ArbitrageParams, c: seq<Order>)
    requires DistinctBook(orders) && c in Candidates(Book(orders, p.nowPosixMs), p)
    ensures MarginOf(c).den > 0
  {
    CandidatesAre(Book(orders, p.nowPosixMs), p, c);
    AnchoredIsPositive(orders, p.nowPosixMs, c);
    PositiveMargin(c);
  }

  lemma {:induction false} EntriesRankable(found: seq<Entry>, fee: int, cycles: seq<seq<Order>>)
    requires EntriesOf(found, fee, cycles) && forall c | c in cycles :: MarginOf(c).den > 0
    ensures Rankable(found)
  {
    forall i | 0 <= i < |found| ensures MarginOf(found[i].orders).den > 0 {
      assert EntryOf(found[i], fee, cycles);
    }
  }

  lemma {:induction false} FoundIsRankable(orders: seq<Order>, p: ArbitrageParams)
    requires DistinctBook(orders)
    ensures Rankable(Found(orders, p))
  {
    var cycles := Candidates(Book(orders, p.nowPosixMs), p);
    EntriesAre(p.fee, cycles);
    forall c | c in cycles ensures MarginOf(c).den > 0 {
      CandidateMargin(orders, p, c);
    }
    EntriesRankable(Found(orders, p), p.fee, cycles);
  }

  lemma {:induction false} MarginOrder(x: Entry, y: Entry, z: Entry)
    requires MarginOf(x.orders).den > 0 && MarginOf(y.orders).den > 0 && MarginOf(z.orders).den > 0
    ensures !MarginBefore(x, x)
    ensures x.id != y.id ==> MarginBefore(x, y) || MarginBefore(y, x)
    ensures MarginBefore(x, y) && MarginBefore(y, z) ==> MarginBefore(x, z)
    ensures !MarginBefore(y, x) ==> RankedAhead(x, y)
  {
    StrLessIsStrictTotal(x.id, y.id, z.id);
    StrLessIsStrictTotal(x.id, x.id, x.id);
    if MarginBefore(x, y) && MarginBefore(y, z) {
      FractionsChain(MarginOf(x.orders), MarginOf(y.orders), MarginOf(z.orders));
    }
  }

  lemma {:induction false} MarginBeforeIsStrictTotal(found: seq<Entry>)
    requires Rankable(found)
    ensures StrictTotalOn(MarginBefore, Elements(found))
  {
    var dom := Elements(found);
    forall x | x in dom ensures !MarginBefore(x, x) {
      MarginOrder(x, x, x);
    }
    forall x, y | x in dom && y in dom && x != y ensures MarginBefore(x, y) || MarginBefore(y, x) {
      var i :| 0 <= i < |found| && found[i] == x;
      var j :| 0 <= j < |found| && found[j] == y;
      MarginOrder(x, y, x);
    }
    forall x, y, z | x in dom && y in dom && z in dom && MarginBefore(x, y) && MarginBefore(y, z)
      ensures MarginBefore(x, z) {
      MarginOrder(x, y, z);
    }
  }

  /** The scan lists found cycles in non-increasing margin, ties by id. */
  lemma {:induction false} ScanIsRanked(orders: seq<Order>, p: ArbitrageParams, i: nat, j: nat)
    requires DistinctBook(orders) && i < j < |Scan(orders, p)|
    ensures RankedAhead(Scan(orders, p)[i], Scan(orders, p)[j])
    ensures Scan(orders, p)[i] in Found(orders, p)
  {
    SortKeepsElements(MarginBefore, Found(orders, p));
    AllAreRanked(orders, p, i, j);
  }

  /** The order of everything found, listed or cut off. */
  lemma {:induction false} AllAreRanked(orders: seq<Order>, p: ArbitrageParams, i: nat, j: nat)
    requires DistinctBook(orders) && i < j < |Sort(MarginBefore, Found(orders, p))|
    ensures var ranked := Sort(MarginBefore, Found(orders, p));
      && ranked[i] in Found(orders, p)
      && RankedAhead(ranked[i], ranked[j])
  {
    var found := Found(orders, p);
    var ranked := Sort(MarginBefore, found);
    FoundIsRankable(orders, p);
    MarginBeforeIsStrictTotal(found);
    SortSorts(MarginBefore, found, Elements(found));
    SortKeepsElements(MarginBefore, found);
    assert ranked[i] in Elements(found) && ranked[j] in Elements(found) && !MarginBefore(ranked[j], ranked[i]);
    MarginOrder(ranked[i], ranked[j], ranked[i]);
  }

  lemma {:induction false} BookIsPositive(orders: seq<Order>, now: int)
    requires DistinctBook(orders)
    ensures PositiveBook(Book(orders, now)) && |Book(orders, now)| <= |orders|
  {
    BookKeeps(orders, now);
  }

  /**
   * What is found is exact for every limit: the anchored 2- and 3-cycles of the open book
   * that can be traded around risklessly from some whole order on, in any sizes the
   * builder accepts, and whose orders are each among the best of their edge. So all that
   * a limit loses are cycles over an order with that many better ones beside it, and a
   * limit of the book's size loses none.
   */
  lemma {:induction false} FoundIsExact(orders: seq<Order>, p: ArbitrageParams, c: seq<Order>)
    requires DistinctBook(orders)
    ensures var book := Book(orders, p.nowPosixMs);
      IsFound(Found(orders, p), c) <==> Anchored(book, c) && WithinLimits(book, p, c) && SomeRotationPays(c)
    ensures Anchored(Book(orders, p.nowPosixMs), c) && Limit(p, c) >= |orders|
        ==> WithinLimits(Book(orders, p.nowPosixMs), p, c)
  {
    var book := Book(orders, p.nowPosixMs);
    BookIsPositive(orders, p.nowPosixMs);
    if IsFound(Found(orders, p), c) {
      FoundIsRiskless(orders, p, c);
    }
    if Anchored(book, c) {
      AnchoredIsPositive(orders, p.nowPosixMs, c);
      SomeRotationEvaluates(c, p.fee);
      LimitsAreRanks(book, p, c);
      if WithinLimits(book, p, c) && SomeRotationRiskless(c, p.fee) {
        RisklessIsFound(orders, p, c);
      }
    }
  }

  /** The scan is exact: with room for all that is found it lists just that. */
  lemma {:induction false} ScanIsExact(orders: seq<Order>, p: ArbitrageParams, c: seq<Order>)
    requires DistinctBook(orders) && p.maxOpportunities >= |Found(orders, p)|
    ensures var book := Book(orders, p.nowPosixMs);
      IsFound(Scan(orders, p), c) <==> Anchored(book, c) && WithinLimits(book, p, c) && SomeRotationPays(c)
    ensures multiset(Scan(orders, p)) == multiset(Found(orders, p))
  {
    SortKeepsElements(MarginBefore, Found(orders, p));
    SameFound(Found(orders, p), Scan(orders, p), c);
    FoundIsExact(orders, p, c);
  }

  /** Without room, nothing left out is ranked before anything listed. */
  lemma {:induction false} CapDropsTheWorst(orders: seq<Order>, p: ArbitrageParams, e: Entry, i: nat)
    requires DistinctBook(orders) && e in Found(orders, p) && e !in Scan(orders, p) && i < |Scan(orders, p)|
    ensures |Scan(orders, p)| == p.maxOpportunities
    ensures RankedAhead(Scan(orders, p)[i], e)
  {
    var j := CutOff(Found(orders, p), p.maxOpportunities, e);
    AllAreRanked(orders, p, i, j);
  }

  /** What a cap leaves out comes after all it keeps. */
  lemma {:induction false} CutOff(found: seq<Entry>, n: nat, e: Entry) returns (j: nat)
    requires e in found && e !in FirstOf(Sort(MarginBefore, found), n)
    ensures n <= j < |Sort(MarginBefore, found)| && Sort(MarginBefore, found)[j] == e
    ensures FirstOf(Sort(MarginBefore, found), n) == Sort(MarginBefore, found)[..n]
  {
    var ranked := Sort(MarginBefore, found);
    SortKeepsElements(MarginBefore, found);
    j :| j < |ranked| && ranked[j] == e;
    if j < n {
      FirstKeeps(ranked, n, j);
    }
  }

  lemma {:induction false} FirstKeeps<T>(s: seq<T>, n: nat, j: nat)
    requires j < |s| && j < n
    ensures s[j] in FirstOf(s, n)
  {
    assert FirstOf(s, n)[j] == s[j];
  }

  lemma {:induction false} SameFound(a: seq<Entry>, b: seq<Entry>, c: seq<Order>)
    requires multiset(a) == multiset(b)
    ensures IsFound(a, c) <==> IsFound(b, c)
  {
    SameElements(a, b);
    if IsFound(a, c) {
      var i :| 0 <= i < |a| && a[i].orders == c;
      assert a[i] in b;
      var j :| 0 <= j < |b| && b[j] == a[i];
    }
    if IsFound(b, c) {
      var i :| 0 <= i < |b| && b[i].orders == c;
      assert b[i] in a;
      var j :| 0 <= j < |a| && a[j] == b[i];
    }
  }

  // ------------------------------------------------------ every cycle is anchored

  lemma {:induction false} RotationTwice(c: seq<Order>, k: nat, r: nat) returns (s: nat)
    requires k < |c| && r < |c|
    ensures s < |c| && Rotation(Rotation(c, k), s) == Rotation(c, r)
  {
    s := if r >= k then r - k else r + |c| - k;
    var d := Rotation(c, k);
    if r >= k {
      assert d[s..] == c[r..] + c[..k] && d[..s] == c[k..r];
      assert c[..r] == c[..k] + c[k..r];
    } else {
      assert d[s..] == c[r..k] && d[..s] == c[k..] + c[..r];
      assert c[r..] == c[r..k] + c[k..];
    }
  }

  /** Whether a cycle chains risklessly does not depend on where it is cut open. */
  lemma {:induction false} RisklessAnywhere(c: seq<Order>, fee: int, k: nat)
    requires k < |c| && SomeRotationRiskless(c, fee)
    ensures SomeRotationRiskless(Rotation(c, k), fee)
  {
    var r: nat :| r < |c| && EvaluateRotation(c, fee, r).Some?;
    var s := RotationTwice(c, k, r);
    assert EvaluateRotation(Rotation(c, k), fee, s).Some?;
  }

  lemma {:induction false} PaysAnywhere(c: seq<Order>, fee: int, k: nat)
    requires IsCycle(c) && k < |c| && SomeRotationPays(c)
    ensures SomeRotationPays(Rotation(c, k))
  {
    RotationIsCycle(c, k);
    SomeRotationEvaluates(c, fee);
    RisklessAnywhere(c, fee, k);
    SomeRotationEvaluates(Rotation(c, k), fee);
  }

  lemma {:induction false} SmallestFirst(c: seq<Order>, n: nat) returns (k: nat)
    requires IsCycle(c) && 0 < n <= |c|
    ensures k < n && forall i | 0 <= i < n && i != k :: StrLess(RequestedAssetId(c[k]), RequestedAssetId(c[i]))
  {
    if n == 1 {
      k := 0;
    } else {
      k := SmallestFirst(c, n - 1);
      var a, b := RequestedAssetId(c[k]), RequestedAssetId(c[n - 1]);
      StrLessIsStrictTotal(a, b, a);
      if StrLess(b, a) {
        forall i | 0 <= i < n - 1 ensures StrLess(b, RequestedAssetId(c[i])) {
          StrLessIsStrictTotal(b, a, RequestedAssetId(c[i]));
        }
        k := n - 1;
      }
    }
  }

  lemma {:induction false} RotationWithinLimits(book: seq<Order>, p: ArbitrageParams, c: seq<Order>, k: nat)
    requires k < |c| && WithinLimits(book, p, c)
    ensures WithinLimits(book, p, Rotation(c, k))
  {
    var d := Rotation(c, k);
    forall i | 0 <= i < |d| ensures |BetterOnEdge(book, d[i])| < Limit(p, d) {
      assert d[i] == c[if i + k < |c| then i + k else i + k - |c|];
    }
  }

  /**
   * Every riskless 2- or 3-cycle of open orders over distinct assets within the limits,
   * wherever it is cut open, is reported: as its one rotation that starts at its smallest
   * asset.
   */
  lemma {:induction false} EveryRisklessCycleIsReported(orders: seq<Order>, p: ArbitrageParams, c: seq<Order>) returns (k: nat)
    requires DistinctBook(orders) && WithinLimits(Book(orders, p.nowPosixMs), p, c)
    requires p.maxOpportunities >= |Found(orders, p)|
    requires IsCycle(c) && |c| <= 3 && forall i | 0 <= i < |c| :: c[i] in Book(orders, p.nowPosixMs)
    requires SomeRotationPays(c)
    ensures k < |c| && IsFound(Scan(orders, p), Rotation(c, k))
  {
    var book := Book(orders, p.nowPosixMs);
    k := SmallestFirst(c, |c|);
    RotationIsAnchored(book, c, k);
    PaysAnywhere(c, p.fee, k);
    RotationWithinLimits(book, p, c, k);
    ScanIsExact(orders, p, Rotation(c, k));
  }

  lemma {:induction false} RotationIsAnchored(book: seq<Order>, c: seq<Order>, k: nat)
    requires IsCycle(c) && |c| <= 3 && k < |c| && forall i | 0 <= i < |c| :: c[i] in book
    requires forall i | 0 <= i < |c| && i != k :: StrLess(RequestedAssetId(c[k]), RequestedAssetId(c[i]))
    ensures Anchored(book, Rotation(c, k))
  {
    var n, d := |c|, Rotation(c, k);
    RotationLinks(c, k);
    forall i | 0 <= i < n ensures d[i] == c[if i + k < n then i + k else i + k - n] {
    }
  }
}
