/**
 * The position view: order rows grouped by root, each group put in parent-to-child
 * order whatever its links say, and the fills read off the result.
 */
module Positions {
  import opened Wrappers
  import opened Sequences
  import opened Sorting
  import opened Orders

  datatype Position = Position(rootId: OutRef, chain: seq<Order>, original: Order, tip: Order)

  datatype FillKind = Fill | Final | CancelEvent

  datatype FillEvent = FillEvent(soldOffered: int, receivedAsk: int, txHash: Option<string>, kind: FillKind)

  function RefsOf(members: seq<Order>): (r: set<OutRef>)
    ensures forall i | 0 <= i < |members| :: members[i].ref in r
  {
    set m | m in members :: m.ref
  }

  // ---------------------------------------------------------- one chain

  /** childByParent.get: the last member that names ref as its parent. */
  function ChildOf(members: seq<Order>, ref: OutRef): (r: Option<Order>)
    ensures r.Some? ==> r.value in members && r.value.parent == Some(ref)
  {
    if members == [] then None
    else
      var last := members[|members| - 1];
      if last.parent == Some(ref) then Some(last) else ChildOf(members[..|members| - 1], ref)
  }

  function FindRef(members: seq<Order>, ref: OutRef): (r: Option<Order>)
    ensures r.Some? ==> r.value in members && r.value.ref == ref
    ensures r.None? ==> forall i | 0 <= i < |members| :: members[i].ref != ref
  {
    if members == [] then None
    else if members[0].ref == ref then Some(members[0])
    else
      assert members == [members[0]] + members[1..];
      FindRef(members[1..], ref)
  }

  /** The first member without a parent among ids. */
  function FindTop(members: seq<Order>, ids: set<OutRef>): (r: Option<Order>)
    ensures r.Some? ==> r.value in members
  {
    if members == [] then None
    else if members[0].parent.None? || members[0].parent.value !in ids then Some(members[0])
    else FindTop(members[1..], ids)
  }

  function Head(rootId: OutRef, members: seq<Order>): (r: Order)
    requires members != []
    ensures r in members
  {
    var root := FindRef(members, rootId);
    if root.Some? then root.value
    else
      var top := FindTop(members, RefsOf(members));
      if top.Some? then top.value else members[0]
  }

  /** Follow child links from cur until they end or meet an order already seen. */
  function Follow(members: seq<Order>, cur: Option<Order>, seen: set<OutRef>): (r: seq<Order>)
    requires cur.Some? ==> cur.value in members
    decreases |RefsOf(members) - seen|
  {
    if cur.None? || cur.value.ref in seen then []
    else
      var ref := cur.value.ref;
      FewerUnseen(members, seen, ref);
      [cur.value] + Follow(members, ChildOf(members, ref), seen + {ref})
  }

  lemma {:induction false} FewerUnseen(members: seq<Order>, seen: set<OutRef>, ref: OutRef)
    requires ref in RefsOf(members) && ref !in seen
    ensures |RefsOf(members) - (seen + {ref})| < |RefsOf(members) - seen|
  {
    assert RefsOf(members) - (seen + {ref}) == (RefsOf(members) - seen) - {ref};
  }

  function Unseen(members: seq<Order>, seen: set<OutRef>): seq<Order> {
    if members == [] then []
    else
      var last := members[|members| - 1];
      Unseen(members[..|members| - 1], seen) + (if last.ref in seen then [] else [last])
  }

  function ChainOf(rootId: OutRef, members: seq<Order>): seq<Order>
    requires members != []
  {
    var walk := Follow(members, Some(Head(rootId, members)), {});
    walk + Unseen(members, RefsOf(walk))
  }

  // ------------------------------------------------- each order exactly once

  /** The walk meets members only, none twice, and none already seen. */
  lemma {:induction false} FollowMeets(members: seq<Order>, cur: Option<Order>, seen: set<OutRef>)
    requires cur.Some? ==> cur.value in members
    ensures forall i | 0 <= i < |Follow(members, cur, seen)| ::
      Follow(members, cur, seen)[i] in members && Follow(members, cur, seen)[i].ref !in seen
    ensures DistinctOrders(Follow(members, cur, seen))
    decreases |RefsOf(members) - seen|
  {
    if cur.Some? && cur.value.ref !in seen {
      FewerUnseen(members, seen, cur.value.ref);
      FollowMeets(members, ChildOf(members, cur.value.ref), seen + {cur.value.ref});
    }
  }

  lemma {:induction false} UnseenAre(members: seq<Order>, seen: set<OutRef>)
    requires DistinctOrders(members)
    ensures forall o :: o in Unseen(members, seen) <==> o in members && o.ref !in seen
    ensures DistinctOrders(Unseen(members, seen))
  {
    if members != [] {
      var init, last := members[..|members| - 1], members[|members| - 1];
      assert members == init + [last];
      UnseenAre(init, seen);
      forall i | 0 <= i < |Unseen(init, seen)| ensures Unseen(init, seen)[i].ref != last.ref {
        assert Unseen(init, seen)[i] in init;
      }
    }
  }

  lemma {:induction false} SameRefSameOrder(members: seq<Order>, a: Order, b: Order)
    requires DistinctOrders(members) && a in members && b in members && a.ref == b.ref
    ensures a == b
  {
  }

  /** Whatever the links, a chain lists every member of its group exactly once. */
  lemma {:induction false} ChainIsPermutation(rootId: OutRef, members: seq<Order>)
    requires members != [] && DistinctOrders(members)
    ensures multiset(ChainOf(rootId, members)) == multiset(members)
  {
    var walk := Follow(members, Some(Head(rootId, members)), {});
    var rest := Unseen(members, RefsOf(walk));
    FollowMeets(members, Some(Head(rootId, members)), {});
    UnseenAre(members, RefsOf(walk));
    forall o ensures o in walk + rest <==> o in members {
      if o in members && o.ref in RefsOf(walk) {
        var m :| m in walk && m.ref == o.ref;
        SameRefSameOrder(members, m, o);
      }
    }
    forall i, j | 0 <= i < |walk| && 0 <= j < |rest| ensures walk[i] != rest[j] {
      assert rest[j] in rest;
    }
    assert NoRepeats(walk + rest);
    SameWithoutRepeats(walk + rest, members);
  }

  // ------------------------------------------------------- a true fill chain

  /** Rows root to tip: each names the one before it as its parent. */
  ghost predicate FillChain(chain: seq<Order>) {
    && chain != [] && DistinctOrders(chain) && chain[0].parent == None
    && forall i: nat | i < |chain| :: NamesPrevious(chain, i)
  }

  predicate NoParentAmong(o: Order, members: seq<Order>) {
    o.parent.None? || o.parent.value !in RefsOf(members)
  }

  /** The rows of a fill chain from some order on: the first one's parent is not among them. */
  ghost predicate RestOfChain(chain: seq<Order>) {
    && chain != [] && DistinctOrders(chain) && NoParentAmong(chain[0], chain)
    && forall i: nat | i < |chain| :: NamesPrevious(chain, i)
  }

  predicate NamesPrevious(chain: seq<Order>, i: nat)
    requires i < |chain|
  {
    i > 0 ==> chain[i].parent == Some(chain[i - 1].ref)
  }

  lemma {:induction false} ChildOfOnly(members: seq<Order>, ref: OutRef, child: Order)
    requires child in members && child.parent == Some(ref)
    requires forall o | o in members && o.parent == Some(ref) :: o == child
    ensures ChildOf(members, ref) == Some(child)
  {
    var init, last := members[..|members| - 1], members[|members| - 1];
    assert members == init + [last];
    if last.parent == Some(ref) {
      assert last in members;
    } else {
      ChildOfOnly(init, ref, child);
    }
  }

  lemma {:induction false} NextInChain(chain: seq<Order>, i: nat, o: Order)
    requires RestOfChain(chain) && i < |chain| && o in chain && o.parent == Some(chain[i].ref)
    ensures i + 1 < |chain| && o == chain[i + 1]
  {
    var j :| 0 <= j < |chain| && chain[j] == o;
    assert NamesPrevious(chain, j);
  }

  lemma {:induction false} ChildInChain(chain: seq<Order>, members: seq<Order>, i: nat)
    requires RestOfChain(chain) && i < |chain| && forall o :: o in members <==> o in chain
    ensures ChildOf(members, chain[i].ref) == if i + 1 < |chain| then Some(chain[i + 1]) else None
  {
    forall o | o in members && o.parent == Some(chain[i].ref) ensures i + 1 < |chain| && o == chain[i + 1] {
      NextInChain(chain, i, o);
    }
    if i + 1 < |chain| {
      assert chain[i + 1] in chain && NamesPrevious(chain, i + 1);
      ChildOfOnly(members, chain[i].ref, chain[i + 1]);
    }
  }

  lemma {:induction false} PrefixRefs(chain: seq<Order>, i: nat)
    requires DistinctOrders(chain) && i < |chain|
    ensures RefsOf(chain[..i]) + {chain[i].ref} == RefsOf(chain[..i + 1]) && chain[i].ref !in RefsOf(chain[..i])
  {
    assert chain[..i + 1] == chain[..i] + [chain[i]];
  }

  /** One step of the walk: an unseen row, then the walk from its child. */
  lemma {:induction false} FollowOnce(members: seq<Order>, cur: Order, seen: set<OutRef>)
    requires cur in members && cur.ref !in seen
    ensures Follow(members, Some(cur), seen) == [cur] + Follow(members, ChildOf(members, cur.ref), seen + {cur.ref})
  {
  }

  lemma {:induction false} FollowsChain(chain: seq<Order>, members: seq<Order>, i: nat)
    requires RestOfChain(chain) && i < |chain| && forall o :: o in members <==> o in chain
    requires chain[i] in members
    ensures Follow(members, Some(chain[i]), RefsOf(chain[..i])) == chain[i..]
    decreases |chain| - i
  {
    ChildInChain(chain, members, i);
    PrefixRefs(chain, i);
    FollowOnce(members, chain[i], RefsOf(chain[..i]));
    if i + 1 < |chain| {
      assert chain[i + 1] in chain;
      FollowsChain(chain, members, i + 1);
    }
    assert chain[i..] == [chain[i]] + chain[i + 1..];
  }

  lemma {:induction false} WalkIsChain(chain: seq<Order>, members: seq<Order>)
    requires RestOfChain(chain) && chain[0] in members && forall o :: o in members <==> o in chain
    ensures Follow(members, Some(chain[0]), {}) == chain
  {
    FollowsChain(chain, members, 0);
    assert chain[..0] == [] && chain[0..] == chain;
    assert RefsOf(chain[..0]) == {};
  }

  lemma {:induction false} TopIs(members: seq<Order>, ids: set<OutRef>, top: Order)
    requires top in members && (top.parent.None? || top.parent.value !in ids)
    requires forall o | o in members && o != top :: o.parent.Some? && o.parent.value in ids
    ensures FindTop(members, ids) == Some(top)
  {
    assert members == [members[0]] + members[1..];
    if members[0] != top {
      assert members[0] in members;
      TopIs(members[1..], ids, top);
    }
  }

  lemma {:induction false} SameRefs(chain: seq<Order>, members: seq<Order>)
    requires forall o :: o in members <==> o in chain
    ensures RefsOf(members) == RefsOf(chain)
  {
  }

  lemma {:induction false} OthersHaveParents(chain: seq<Order>, o: Order)
    requires RestOfChain(chain) && o in chain && o != chain[0]
    ensures o.parent.Some? && o.parent.value in RefsOf(chain)
  {
    var j :| 0 <= j < |chain| && chain[j] == o;
    assert NamesPrevious(chain, j) && chain[j - 1] in chain;
  }

  /** With its root's row, or without it, the chain starts at its first row. */
  lemma {:induction false} HeadIsFirst(rootId: OutRef, chain: seq<Order>, members: seq<Order>)
    requires RestOfChain(chain) && members != [] && forall o :: o in members <==> o in chain
    requires rootId == chain[0].ref || rootId !in RefsOf(chain)
    ensures Head(rootId, members) == chain[0]
  {
    assert chain[0] in chain;
    SameRefs(chain, members);
    var root := FindRef(members, rootId);
    if root.Some? {
      assert root.value.ref in RefsOf(members);
      SameRefSameOrder(chain, root.value, chain[0]);
    } else {
      forall o | o in members && o != chain[0] ensures o.parent.Some? && o.parent.value in RefsOf(members) {
        OthersHaveParents(chain, o);
      }
      TopIs(members, RefsOf(members), chain[0]);
    }
  }

  /** However its rows arrive, a fill chain is listed from its first row to its last, even while its root's row is missing. */
  lemma {:induction false} RestOfChainIsListed(rootId: OutRef, chain: seq<Order>, members: seq<Order>)
    requires RestOfChain(chain) && multiset(members) == multiset(chain)
    requires rootId == chain[0].ref || rootId !in RefsOf(chain)
    ensures members != [] && ChainOf(rootId, members) == chain
  {
    SameElements(members, chain);
    assert chain[0] in chain;
    HeadIsFirst(rootId, chain, members);
    WalkIsChain(chain, members);
    NoneUnseen(chain, members);
  }

  /** So a true fill chain is listed from root to tip. */
  lemma {:induction false} TrueChainIsListed(chain: seq<Order>, members: seq<Order>)
    requires FillChain(chain) && multiset(members) == multiset(chain)
    ensures members != [] && ChainOf(chain[0].ref, members) == chain
  {
    RestOfChainIsListed(chain[0].ref, chain, members);
  }

  lemma {:induction false} NoneUnseen(chain: seq<Order>, members: seq<Order>)
    requires forall o | o in members :: o in chain
    ensures Unseen(members, RefsOf(chain)) == []
  {
    if members != [] {
      assert members == members[..|members| - 1] + [members[|members| - 1]];
      assert members[|members| - 1] in members;
      NoneUnseen(chain, members[..|members| - 1]);
    }
  }

  // --------------------------------------------------------------- events

  function StepEvent(cur: Order, next: Order): Option<FillEvent> {
    var sold := cur.offeredAmount - next.offeredAmount;
    if sold <= 0 then None
    else Some(FillEvent(sold, cur.requestedAmount - next.requestedAmount, Some(next.ref.txHash), Fill))
  }

  /** The fills between the first n + 1 rows. */
  function StepEvents(chain: seq<Order>, n: nat): seq<FillEvent>
    requires n < |chain| || n == 0
  {
    if n == 0 then []
    else
      var e := StepEvent(chain[n - 1], chain[n]);
      StepEvents(chain, n - 1) + (if e.Some? then [e.value] else [])
  }

  function ClosingEvents(tip: Order): seq<FillEvent> {
    if tip.status == Taken then [FillEvent(tip.offeredAmount, tip.requestedAmount, None, Final)]
    else if tip.status == Cancelled then [FillEvent(0, 0, None, CancelEvent)]
    else []
  }

  function FillEvents(p: Position): seq<FillEvent>
    requires p.chain != []
  {
    StepEvents(p.chain, |p.chain| - 1) + ClosingEvents(p.tip)
  }

  function Sold(events: seq<FillEvent>): int {
    if events == [] then 0 else Sold(events[..|events| - 1]) + events[|events| - 1].soldOffered
  }

  function Received(events: seq<FillEvent>): int {
    if events == [] then 0 else Received(events[..|events| - 1]) + events[|events| - 1].receivedAsk
  }

  lemma {:induction false} SumsAppend(a: seq<FillEvent>, b: seq<FillEvent>)
    ensures Sold(a + b) == Sold(a) + Sold(b) && Received(a + b) == Received(a) + Received(b)
  {
    if b == [] {
      assert a + b == a;
    } else {
      assert (a + b)[..|a + b| - 1] == a + b[..|b| - 1];
      SumsAppend(a, b[..|b| - 1]);
    }
  }

  /** Each of the first n steps lowers the offer. */
  ghost predicate StepsSell(chain: seq<Order>, n: nat)
    requires n < |chain|
  {
    forall i: nat | i <= n :: Sells(chain, i)
  }

  /** None of the first n steps raises the offer. */
  ghost predicate NoStepRaises(chain: seq<Order>, n: nat)
    requires n < |chain|
  {
    forall i: nat | i <= n :: DoesNotRaise(chain, i)
  }

  predicate Sells(chain: seq<Order>, i: nat)
    requires i < |chain|
  {
    i > 0 ==> chain[i].offeredAmount < chain[i - 1].offeredAmount
  }

  predicate DoesNotRaise(chain: seq<Order>, i: nat)
    requires i < |chain|
  {
    i > 0 ==> chain[i].offeredAmount <= chain[i - 1].offeredAmount
  }

  lemma {:induction false} OneStepMore(chain: seq<Order>, n: nat)
    requires 0 < n < |chain|
    ensures NoStepRaises(chain, n) <==> NoStepRaises(chain, n - 1) && DoesNotRaise(chain, n)
    ensures StepsSell(chain, n) <==> StepsSell(chain, n - 1) && Sells(chain, n)
  {
  }

  lemma {:induction false} SellingDoesNotRaise(chain: seq<Order>, n: nat)
    requires n < |chain| && StepsSell(chain, n)
    ensures NoStepRaises(chain, n)
  {
    forall i: nat | i <= n ensures DoesNotRaise(chain, i) {
      assert Sells(chain, i);
    }
  }

  lemma {:induction false} OneEvent(events: seq<FillEvent>, e: FillEvent)
    ensures Sold(events + [e]) == Sold(events) + e.soldOffered
    ensures Received(events + [e]) == Received(events) + e.receivedAsk
  {
    assert (events + [e])[..|events|] == events;
  }

  lemma {:induction false} StepSums(chain: seq<Order>, n: nat)
    requires 0 < n < |chain|
    ensures var sold, got := chain[n - 1].offeredAmount - chain[n].offeredAmount,
                             chain[n - 1].requestedAmount - chain[n].requestedAmount;
      && Sold(StepEvents(chain, n)) == Sold(StepEvents(chain, n - 1)) + (if sold > 0 then sold else 0)
      && Received(StepEvents(chain, n)) == Received(StepEvents(chain, n - 1)) + (if sold > 0 then got else 0)
  {
    var e := StepEvent(chain[n - 1], chain[n]);
    if e.Some? {
      OneEvent(StepEvents(chain, n - 1), e.value);
    } else {
      assert StepEvents(chain, n - 1) + [] == StepEvents(chain, n - 1);
    }
  }

  /** One more step adds what it lowered the offer by, and nothing when it raised it. */
  lemma {:induction false} SoldOneMore(before: int, after: int, first: int, last: int, next: int, kept: bool, stillKept: bool)
    requires before >= first - last && (before == first - last <==> kept)
    requires after == before + (if last - next > 0 then last - next else 0)
    requires stillKept <==> kept && next <= last
    ensures after >= first - next && (after == first - next <==> stillKept)
  {
  }

  lemma {:induction false} SoldTelescopes(chain: seq<Order>, n: nat)
    requires n < |chain|
    ensures Sold(StepEvents(chain, n)) >= chain[0].offeredAmount - chain[n].offeredAmount
    ensures Sold(StepEvents(chain, n)) == chain[0].offeredAmount - chain[n].offeredAmount <==> NoStepRaises(chain, n)
  {
    if n > 0 {
      SoldTelescopes(chain, n - 1);
      StepSums(chain, n);
      OneStepMore(chain, n);
      SoldOneMore(Sold(StepEvents(chain, n - 1)), Sold(StepEvents(chain, n)), chain[0].offeredAmount,
                  chain[n - 1].offeredAmount, chain[n].offeredAmount, NoStepRaises(chain, n - 1), NoStepRaises(chain, n));
    }
  }

  lemma {:induction false} ReceivedTelescopes(chain: seq<Order>, n: nat)
    requires n < |chain| && StepsSell(chain, n)
    ensures Received(StepEvents(chain, n)) == chain[0].requestedAmount - chain[n].requestedAmount
  {
    if n > 0 {
      OneStepMore(chain, n);
      ReceivedTelescopes(chain, n - 1);
      StepSums(chain, n);
    }
  }

  /** What is left at the tip, nothing once it was taken. */
  function LeftOffer(tip: Order): int {
    if tip.status == Taken then 0 else tip.offeredAmount
  }

  function LeftAsk(tip: Order): int {
    if tip.status == Taken then 0 else tip.requestedAmount
  }

  lemma {:induction false} ClosingSums(tip: Order)
    ensures Sold(ClosingEvents(tip)) + LeftOffer(tip) == tip.offeredAmount
    ensures Received(ClosingEvents(tip)) + LeftAsk(tip) == tip.requestedAmount
  {
    if ClosingEvents(tip) != [] {
      OneEvent([], ClosingEvents(tip)[0]);
      assert [] + [ClosingEvents(tip)[0]] == ClosingEvents(tip);
    }
  }

  /**
   * The events account for the original offer exactly when no step of the chain raises
   * it, and for the original ask too when every step sells something.
   */
  lemma {:induction false} EventsAccount(p: Position)
    requires p.chain != [] && p.original == p.chain[0] && p.tip == p.chain[|p.chain| - 1]
    ensures Sold(FillEvents(p)) + LeftOffer(p.tip) == p.original.offeredAmount
       <==> NoStepRaises(p.chain, |p.chain| - 1)
    ensures StepsSell(p.chain, |p.chain| - 1) ==>
      && Sold(FillEvents(p)) + LeftOffer(p.tip) == p.original.offeredAmount
      && Received(FillEvents(p)) + LeftAsk(p.tip) == p.original.requestedAmount
  {
    var n := |p.chain| - 1;
    SoldTelescopes(p.chain, n);
    if StepsSell(p.chain, n) {
      ReceivedTelescopes(p.chain, n);
      SellingDoesNotRaise(p.chain, n);
    }
    SumsAppend(StepEvents(p.chain, n), ClosingEvents(p.tip));
    ClosingSums(p.tip);
  }

  // ------------------------------------------------------------- grouping

  function RootOf(o: Order): OutRef {
    o.root.GetOr(o.ref)
  }

  /** The groups' roots in order of first appearance. */
  function GroupKeys(orders: seq<Order>): seq<OutRef> {
    if orders == [] then []
    else
      var keys, root := GroupKeys(orders[..|orders| - 1]), RootOf(orders[|orders| - 1]);
      if root in keys then keys else keys + [root]
  }

  function GroupOf(orders: seq<Order>, root: OutRef): seq<Order> {
    if orders == [] then []
    else
      var last := orders[|orders| - 1];
      GroupOf(orders[..|orders| - 1], root) + (if RootOf(last) == root then [last] else [])
  }

  function PositionOf(root: OutRef, members: seq<Order>): (p: Position)
    requires members != []
    ensures p.rootId == root && p.chain == ChainOf(root, members) && p.chain != []
    ensures p.original == p.chain[0] && p.tip == p.chain[|p.chain| - 1]
  {
    var chain := ChainOf(root, members);
    assert Follow(members, Some(Head(root, members)), {}) != [];
    Position(root, chain, chain[0], chain[|chain| - 1])
  }

  ghost predicate HaveGroups(orders: seq<Order>, keys: seq<OutRef>) {
    forall i | 0 <= i < |keys| :: GroupOf(orders, keys[i]) != []
  }

  function PositionsOf(orders: seq<Order>, keys: seq<OutRef>): seq<Position>
    requires HaveGroups(orders, keys)
  {
    if keys == [] then []
    else
      var last := keys[|keys| - 1];
      PositionsOf(orders, keys[..|keys| - 1]) + [PositionOf(last, GroupOf(orders, last))]
  }

  /** idx.get(ref) ?? 0: the last index at which ref occurs. */
  function IndexOf(orders: seq<Order>, ref: OutRef): nat {
    if orders == [] then 0
    else if orders[|orders| - 1].ref == ref then |orders| - 1
    else IndexOf(orders[..|orders| - 1], ref)
  }

  /** The earliest index of a chain's rows. */
  function EarliestIndex(orders: seq<Order>, chain: seq<Order>): nat {
    if chain == [] then |orders|
    else
      var before, i := EarliestIndex(orders, chain[..|chain| - 1]), IndexOf(orders, chain[|chain| - 1].ref);
      if i < before then i else before
  }

  function Earlier(orders: seq<Order>): (Position, Position) -> bool {
    (a: Position, b: Position) => EarliestIndex(orders, a.chain) < EarliestIndex(orders, b.chain)
  }

  lemma {:induction false} KeysAreRoots(orders: seq<Order>, root: OutRef)
    ensures root in GroupKeys(orders) <==> GroupOf(orders, root) != []
  {
    if orders != [] {
      KeysAreRoots(orders[..|orders| - 1], root);
    }
  }

  lemma {:induction false} KeysHaveGroups(orders: seq<Order>)
    ensures HaveGroups(orders, GroupKeys(orders)) && NoRepeats(GroupKeys(orders))
  {
    forall i | 0 <= i < |GroupKeys(orders)| ensures GroupOf(orders, GroupKeys(orders)[i]) != [] {
      KeysAreRoots(orders, GroupKeys(orders)[i]);
    }
    if orders != [] {
      KeysHaveGroups(orders[..|orders| - 1]);
    }
  }

  function Grouped(orders: seq<Order>): seq<Position> {
    KeysHaveGroups(orders);
    Sort(Earlier(orders), PositionsOf(orders, GroupKeys(orders)))
  }

  // ------------------------------------------- each order in exactly one chain

  function Rows(positions: seq<Position>): seq<Order> {
    if positions == [] then [] else positions[0].chain + Rows(positions[1..])
  }

  lemma {:induction false} RowsCons(p: Position, rest: seq<Position>)
    ensures Rows([p] + rest) == p.chain + Rows(rest)
  {
    assert ([p] + rest)[1..] == rest;
  }

  lemma {:induction false} RowsAppend(a: seq<Position>, b: seq<Position>)
    ensures Rows(a + b) == Rows(a) + Rows(b)
  {
    if a == [] {
      assert a + b == b;
    } else {
      assert (a + b)[1..] == a[1..] + b;
      RowsAppend(a[1..], b);
    }
  }

  lemma {:induction false} InsertKeepsRows(less: (Position, Position) -> bool, p: Position, s: seq<Position>)
    ensures multiset(Rows(Insert(less, p, s))) == multiset(p.chain) + multiset(Rows(s))
  {
    RowsCons(p, s);
    if s != [] && less(s[0], p) {
      InsertKeepsRows(less, p, s[1..]);
      RowsCons(s[0], Insert(less, p, s[1..]));
    } else if s == [] {
      assert [p] + s == [p];
    }
  }

  lemma {:induction false} SortKeepsRows(less: (Position, Position) -> bool, s: seq<Position>)
    ensures multiset(Rows(Sort(less, s))) == multiset(Rows(s))
  {
    if s != [] {
      SortKeepsRows(less, s[1..]);
      InsertKeepsRows(less, s[0], Sort(less, s[1..]));
    }
  }

  lemma {:induction false} GroupCounts(orders: seq<Order>, root: OutRef, o: Order)
    ensures multiset(GroupOf(orders, root))[o] == if RootOf(o) == root then multiset(orders)[o] else 0
  {
    if orders != [] {
      var init, last := orders[..|orders| - 1], orders[|orders| - 1];
      GroupCounts(init, root, o);
      assert orders == init + [last];
    }
  }

  lemma {:induction false} GroupIsDistinct(orders: seq<Order>, root: OutRef)
    requires DistinctOrders(orders)
    ensures DistinctOrders(GroupOf(orders, root))
    ensures forall o :: o in GroupOf(orders, root) <==> o in orders && RootOf(o) == root
  {
    if orders != [] {
      var init, last := orders[..|orders| - 1], orders[|orders| - 1];
      GroupIsDistinct(init, root);
      assert orders == init + [last];
      forall i | 0 <= i < |GroupOf(init, root)| ensures GroupOf(init, root)[i].ref != last.ref {
        assert GroupOf(init, root)[i] in init;
      }
    }
  }

  lemma {:induction false} PositionsCount(orders: seq<Order>, keys: seq<OutRef>, o: Order)
    requires DistinctOrders(orders) && NoRepeats(keys)
    requires HaveGroups(orders, keys)
    ensures multiset(Rows(PositionsOf(orders, keys)))[o] == if RootOf(o) in keys then multiset(orders)[o] else 0
  {
    if keys != [] {
      var init, last := keys[..|keys| - 1], keys[|keys| - 1];
      assert keys == init + [last];
      PositionsCount(orders, init, o);
      GroupIsDistinct(orders, last);
      ChainIsPermutation(last, GroupOf(orders, last));
      GroupCounts(orders, last, o);
      RowsOfLast(orders, keys);
    }
  }

  lemma {:induction false} RowsOfLast(orders: seq<Order>, keys: seq<OutRef>)
    requires keys != [] && HaveGroups(orders, keys)
    ensures var init, last := keys[..|keys| - 1], keys[|keys| - 1];
      && HaveGroups(orders, init) && GroupOf(orders, last) != []
      && multiset(Rows(PositionsOf(orders, keys)))
         == multiset(Rows(PositionsOf(orders, init))) + multiset(ChainOf(last, GroupOf(orders, last)))
  {
    var init, last := keys[..|keys| - 1], keys[|keys| - 1];
    var p := PositionOf(last, GroupOf(orders, last));
    RowsAppend(PositionsOf(orders, init), [p]);
    RowsCons(p, []);
    assert [p] + [] == [p];
  }

  /** Whatever the links, grouping puts every order in exactly one chain, exactly once. */
  lemma {:induction false} GroupingPartitions(orders: seq<Order>)
    requires DistinctOrders(orders)
    ensures multiset(Rows(Grouped(orders))) == multiset(orders)
  {
    KeysHaveGroups(orders);
    var positions := PositionsOf(orders, GroupKeys(orders));
    SortKeepsRows(Earlier(orders), positions);
    forall o ensures multiset(Rows(positions))[o] == multiset(orders)[o] {
      PositionsCount(orders, GroupKeys(orders), o);
      KeysAreRoots(orders, RootOf(o));
      GroupIsDistinct(orders, RootOf(o));
      assert o in multiset(orders) ==> o in GroupOf(orders, RootOf(o));
    }
  }

  lemma {:induction false} PositionHasKey(orders: seq<Order>, keys: seq<OutRef>, p: Position)
    requires HaveGroups(orders, keys) && p in PositionsOf(orders, keys)
    ensures GroupOf(orders, p.rootId) != [] && p == PositionOf(p.rootId, GroupOf(orders, p.rootId))
  {
    var init, last := keys[..|keys| - 1], keys[|keys| - 1];
    if p in PositionsOf(orders, init) {
      PositionHasKey(orders, init, p);
    } else {
      assert p == PositionOf(last, GroupOf(orders, last));
    }
  }

  lemma {:induction false} PositionOfKey(orders: seq<Order>, p: Position)
    requires p in Grouped(orders)
    ensures GroupOf(orders, p.rootId) != [] && p == PositionOf(p.rootId, GroupOf(orders, p.rootId))
  {
    KeysHaveGroups(orders);
    var keys := GroupKeys(orders);
    SortKeepsElements(Earlier(orders), PositionsOf(orders, keys));
    PositionHasKey(orders, keys, p);
  }

  /** A position is its root's whole group, and positions differ in their roots. */
  lemma {:induction false} PositionIsItsGroup(orders: seq<Order>, p: Position)
    requires DistinctOrders(orders) && p in Grouped(orders)
    ensures forall o :: o in p.chain <==> o in orders && RootOf(o) == p.rootId
  {
    PositionOfKey(orders, p);
    GroupIsDistinct(orders, p.rootId);
    ChainIsPermutation(p.rootId, GroupOf(orders, p.rootId));
    SameElements(p.chain, GroupOf(orders, p.rootId));
  }

  lemma {:induction false} EarliestIsSome(orders: seq<Order>, chain: seq<Order>) returns (o: Order)
    requires DistinctOrders(orders) && chain != [] && forall i | 0 <= i < |chain| :: chain[i] in orders
    ensures o in chain && IndexOf(orders, o.ref) == EarliestIndex(orders, chain)
  {
    var init, last := chain[..|chain| - 1], chain[|chain| - 1];
    assert chain == init + [last];
    o := last;
    IndexBound(orders, last.ref);
    if init != [] && EarliestIndex(orders, init) <= IndexOf(orders, last.ref) {
      o := EarliestIsSome(orders, init);
    }
  }

  lemma {:induction false} IndexBound(orders: seq<Order>, ref: OutRef)
    ensures orders != [] ==> IndexOf(orders, ref) < |orders|
  {
    if orders != [] && orders[|orders| - 1].ref != ref {
      IndexBound(orders[..|orders| - 1], ref);
    }
  }

  lemma {:induction false} IndexFinds(orders: seq<Order>, o: Order)
    requires DistinctOrders(orders) && o in orders
    ensures IndexOf(orders, o.ref) < |orders| && orders[IndexOf(orders, o.ref)] == o
  {
    var init, last := orders[..|orders| - 1], orders[|orders| - 1];
    assert orders == init + [last];
    if last.ref == o.ref {
      SameRefSameOrder(orders, last, o);
    } else {
      IndexFinds(init, o);
    }
  }

  lemma {:induction false} SharedRow(orders: seq<Order>, p: Position, q: Position, o: Order)
    requires DistinctOrders(orders) && p in Grouped(orders) && q in Grouped(orders)
    requires o in p.chain && o in q.chain
    ensures p == q
  {
    PositionIsItsGroup(orders, p);
    PositionIsItsGroup(orders, q);
    assert p.rootId == RootOf(o) == q.rootId;
    PositionOfKey(orders, p);
    PositionOfKey(orders, q);
  }

  lemma {:induction false} EarliestRow(orders: seq<Order>, p: Position) returns (o: Order)
    requires DistinctOrders(orders) && p in Grouped(orders)
    ensures o in p.chain && EarliestIndex(orders, p.chain) < |orders|
    ensures o == orders[EarliestIndex(orders, p.chain)]
  {
    PositionIsItsGroup(orders, p);
    PositionOfKey(orders, p);
    o := EarliestIsSome(orders, p.chain);
    IndexFinds(orders, o);
  }

  lemma {:induction false} EarliestDiffer(orders: seq<Order>, p: Position, q: Position)
    requires DistinctOrders(orders) && p in Grouped(orders) && q in Grouped(orders)
    requires EarliestIndex(orders, p.chain) == EarliestIndex(orders, q.chain)
    ensures p == q
  {
    var a := EarliestRow(orders, p);
    var b := EarliestRow(orders, q);
    SharedRow(orders, p, q, a);
  }

  /** Positions come by the earliest of their rows in the input. */
  lemma {:induction false} PositionsAreSorted(orders: seq<Order>)
    requires DistinctOrders(orders)
    ensures Sorted(Earlier(orders), Grouped(orders))
  {
    KeysHaveGroups(orders);
    var s := PositionsOf(orders, GroupKeys(orders));
    var dom := Elements(s);
    SortKeepsElements(Earlier(orders), s);
    forall p, q | p in dom && q in dom && p != q ensures Earlier(orders)(p, q) || Earlier(orders)(q, p) {
      assert p in Grouped(orders) && q in Grouped(orders);
      if EarliestIndex(orders, p.chain) == EarliestIndex(orders, q.chain) {
        EarliestDiffer(orders, p, q);
      }
    }
    SortSorts(Earlier(orders), s, dom);
  }

  // --------------------------------------------------- the source's loops

  method OrderChain(rootId: OutRef, members: seq<Order>) returns (chain: seq<Order>)
    requires members != []
    ensures chain == ChainOf(rootId, members)
  {
    var childByParent := ChildLinks(members);
    var head := Head(rootId, members);
    chain := [];
    var seen: set<OutRef> := {};
    var cur := Some(head);
    while cur.Some? && cur.value.ref !in seen
      invariant cur.Some? ==> cur.value in members
      invariant chain + Follow(members, cur, seen) == Follow(members, Some(head), {})
      invariant seen == RefsOf(chain)
      decreases |RefsOf(members) - seen|
    {
      var ref := cur.value.ref;
      FewerUnseen(members, seen, ref);
      FollowStep(members, cur, seen, chain);
      chain := chain + [cur.value];
      seen := seen + {ref};
      cur := LookUp(childByParent, ref);
    }
    assert chain + [] == chain;
    var rest := ListUnseen(members, seen);
    chain := chain + rest;
  }

  /** The members the walk did not reach. */
  method ListUnseen(members: seq<Order>, seen: set<OutRef>) returns (rest: seq<Order>)
    ensures rest == Unseen(members, seen)
  {
    rest := [];
    for i := 0 to |members|
      invariant rest == Unseen(members[..i], seen)
    {
      PrefixStep(members, i);
      if members[i].ref !in seen {
        rest := rest + [members[i]];
      }
    }
    assert members[..|members|] == members;
  }

  lemma {:induction false} FollowStep(members: seq<Order>, cur: Option<Order>, seen: set<OutRef>, chain: seq<Order>)
    requires cur.Some? && cur.value in members && cur.value.ref !in seen && seen == RefsOf(chain)
    ensures chain + Follow(members, cur, seen)
         == (chain + [cur.value]) + Follow(members, ChildOf(members, cur.value.ref), seen + {cur.value.ref})
    ensures RefsOf(chain + [cur.value]) == seen + {cur.value.ref}
  {
    var ref := cur.value.ref;
    assert Follow(members, cur, seen)
        == [cur.value] + Follow(members, ChildOf(members, ref), seen + {ref});
    forall x ensures x in RefsOf(chain + [cur.value]) <==> x in seen + {ref} {
      if x in seen {
        var m :| m in chain && m.ref == x;
        assert m in chain + [cur.value];
      }
      assert cur.value in chain + [cur.value];
    }
  }

  function LookUp(m: map<OutRef, Order>, ref: OutRef): Option<Order> {
    if ref in m then Some(m[ref]) else None
  }

  /** The map of last children by parent. */
  method ChildLinks(members: seq<Order>) returns (childByParent: map<OutRef, Order>)
    ensures forall ref :: ChildOf(members, ref) == LookUp(childByParent, ref)
  {
    childByParent := map[];
    for i := 0 to |members|
      invariant forall ref :: ChildOf(members[..i], ref) == LookUp(childByParent, ref)
    {
      PrefixStep(members, i);
      if members[i].parent.Some? {
        childByParent := childByParent[members[i].parent.value := members[i]];
      }
    }
    assert members[..|members|] == members;
  }

  method CollectGroups(orders: seq<Order>) returns (keys: seq<OutRef>, groups: map<OutRef, seq<Order>>)
    ensures keys == GroupKeys(orders)
    ensures forall k :: k in groups <==> k in keys
    ensures forall k | k in groups :: groups[k] == GroupOf(orders, k)
  {
    keys, groups := [], map[];
    for i := 0 to |orders|
      invariant keys == GroupKeys(orders[..i])
      invariant forall k :: k in groups <==> k in keys
      invariant forall k | k in groups :: groups[k] == GroupOf(orders[..i], k)
    {
      PrefixStep(orders, i);
      var o, root := orders[i], RootOf(orders[i]);
      KeysAreRoots(orders[..i], root);
      if root in groups {
        groups := groups[root := groups[root] + [o]];
      } else {
        keys := keys + [root];
        groups := groups[root := [o]];
      }
    }
    assert orders[..|orders|] == orders;
  }

  method MakePosition(root: OutRef, members: seq<Order>) returns (p: Position)
    requires members != []
    ensures p == PositionOf(root, members)
  {
    var chain := OrderChain(root, members);
    assert PositionOf(root, members).chain == chain;
    p := Position(root, chain, chain[0], chain[|chain| - 1]);
  }

  method ListPositions(orders: seq<Order>, keys: seq<OutRef>, groups: map<OutRef, seq<Order>>)
    returns (positions: seq<Position>)
    requires HaveGroups(orders, keys)
    requires forall k | k in keys :: k in groups && groups[k] == GroupOf(orders, k)
    ensures positions == PositionsOf(orders, keys)
  {
    positions := [];
    for i := 0 to |keys|
      invariant positions == PositionsOf(orders, keys[..i])
    {
      PrefixStep(keys, i);
      assert keys[i] in groups;
      var p := MakePosition(keys[i], groups[keys[i]]);
      positions := positions + [p];
    }
    assert keys[..|keys|] == keys;
  }

  method GroupPositions(orders: seq<Order>) returns (positions: seq<Position>)
    ensures positions == Grouped(orders)
  {
    var keys, groups := CollectGroups(orders);
    KeysHaveGroups(orders);
    positions := ListPositions(orders, keys, groups);
    positions := Sort(Earlier(orders), positions);
  }

  method ListFillEvents(p: Position) returns (events: seq<FillEvent>)
    requires p.chain != []
    ensures events == FillEvents(p)
  {
    events := [];
    for i := 0 to |p.chain| - 1
      invariant events == StepEvents(p.chain, i)
    {
      var cur, next := p.chain[i], p.chain[i + 1];
      var soldOffered := cur.offeredAmount - next.offeredAmount;
      if soldOffered <= 0 {
        continue;
      }
      events := events + [FillEvent(soldOffered, cur.requestedAmount - next.requestedAmount, Some(next.ref.txHash), Fill)];
    }
    if p.tip.status == Taken {
      events := events + [FillEvent(p.tip.offeredAmount, p.tip.requestedAmount, None, Final)];
    } else if p.tip.status == Cancelled {
      events := events + [FillEvent(0, 0, None, CancelEvent)];
    }
  }
}
