/**
 * An owner's portfolio in every run: as long as no pass gave up a reconstruction, each
 * position grouped from the cached rows is one whole fill chain, from its true origin to
 * its furthest cached order, and its events account exactly for the origin's amounts.
 */
module Portfolios {
  import opened Wrappers
  import opened Sorting
  import opened Pricing
  import opened Orders
  import opened OrdersRepo
  import opened Indexer
  import opened Ledger
  import opened TxBuilderProofs
  import opened Ancestry
  import opened Runs
  import opened Lineages
  import opened FillChains
  import opened Evolution
  import opened Positions
  import opened Histories

  // ---------------------------------------------------- fill chains are lines

  /** An order has at most one continuation. */
  lemma {:induction false} OneChild(t: Truth, a: OutRef, b: OutRef)
    requires Coherent(t) && t.up(a).Some? && t.up(b).Some? && t.up(a).value.ref == t.up(b).value.ref
    ensures a == b
  {
    assert FillFate(t, a) && FillFate(t, b);
  }

  /** Two orders of one origin are on one line: position by position their paths agree. */
  lemma {:induction false} PathsAgree(t: Truth, a: OutRef, b: OutRef, i: nat)
    requires Coherent(t) && Origin(t, a) == Origin(t, b) && i < |Path(t, a)| && i < |Path(t, b)|
    ensures Path(t, a)[i] == Path(t, b)[i]
  {
    PathLinks(t, a, i);
    PathLinks(t, b, i);
    if i > 0 {
      PathsAgree(t, a, b, i - 1);
      OneChild(t, Path(t, a)[i], Path(t, b)[i]);
    }
  }

  lemma {:induction false} ShorterIsOnPath(t: Truth, a: OutRef, b: OutRef)
    requires Coherent(t) && Origin(t, a) == Origin(t, b) && |Path(t, a)| <= |Path(t, b)|
    ensures a in Path(t, b)
  {
    PathsAgree(t, a, b, |Path(t, a)| - 1);
  }

  /** In a complete cache the whole way up from a cached order is cached. */
  lemma {:induction false} PathIsCached(t: Truth, r: Repo, n: OutRef)
    requires Tracks(t, r) && Linked(t, r) && n in r.orders
    ensures AllCached(r, Path(t, n))
    decreases t.rank(n)
  {
    if t.up(n).Some? {
      assert OrderLinked(t, r, n);
      assert RowTrue(t, n, r.lineage[n]);
      PathIsCached(t, r, t.up(n).value.ref);
    }
  }

  // ------------------------------------------------------- whole chains of rows

  predicate FromCache(r: Repo, o: Order) {
    o.ref in r.orders && r.orders[o.ref] == o
  }

  /** Cached rows, each once, in any order, with every cached order of a chain they touch. */
  ghost predicate WholeChains(t: Truth, r: Repo, rows: seq<Order>)
    requires Descends(t)
  {
    && DistinctOrders(rows) && (forall i | 0 <= i < |rows| :: FromCache(r, rows[i]))
    && (forall i, id | 0 <= i < |rows| && id in r.orders && Origin(t, id) == Origin(t, rows[i].ref) :: r.orders[id] in rows)
  }

  lemma {:induction false} RootIsOrigin(t: Truth, r: Repo, o: Order)
    requires Tracks(t, r) && Linked(t, r) && FromCache(r, o)
    ensures RootOf(o) == Origin(t, o.ref)
  {
    LinkedShowsAncestry(t, r, o.ref);
  }

  /** The group's row furthest down its chain. */
  lemma {:induction false} Deepest(t: Truth, members: seq<Order>) returns (k: nat)
    requires Descends(t) && members != []
    ensures k < |members|
    ensures forall i | 0 <= i < |members| :: |Path(t, members[i].ref)| <= |Path(t, members[k].ref)|
  {
    var init := members[..|members| - 1];
    if init == [] {
      k := 0;
    } else {
      k := Deepest(t, init);
      if |Path(t, members[k].ref)| < |Path(t, members[|members| - 1].ref)| {
        k := |members| - 1;
      }
    }
  }

  lemma {:induction false} GroupHas(orders: seq<Order>, root: OutRef, o: Order)
    ensures o in GroupOf(orders, root) <==> o in orders && RootOf(o) == root
  {
    GroupCounts(orders, root, o);
    assert o in GroupOf(orders, root) <==> o in multiset(GroupOf(orders, root));
    assert o in orders <==> o in multiset(orders);
  }

  ghost predicate OneOrigin(t: Truth, r: Repo, members: seq<Order>, root: OutRef)
    requires Descends(t)
  {
    forall i | 0 <= i < |members| :: FromCache(r, members[i]) && Origin(t, members[i].ref) == root
  }

  lemma {:induction false} GroupIsOneOrigin(t: Truth, r: Repo, rows: seq<Order>, root: OutRef)
    requires Tracks(t, r) && Linked(t, r) && WholeChains(t, r, rows)
    ensures OneOrigin(t, r, GroupOf(rows, root), root)
  {
    var members := GroupOf(rows, root);
    forall i | 0 <= i < |members| ensures FromCache(r, members[i]) && Origin(t, members[i].ref) == root {
      GroupHas(rows, root, members[i]);
      var k :| 0 <= k < |rows| && rows[k] == members[i];
      RootIsOrigin(t, r, members[i]);
    }
  }

  /** Whatever is cached of the deepest member's path is a member. */
  lemma {:induction false} PathIsInGroup(t: Truth, r: Repo, rows: seq<Order>, root: OutRef, n: OutRef, i: nat)
    requires Tracks(t, r) && Linked(t, r) && WholeChains(t, r, rows)
    requires n in r.orders && r.orders[n] in GroupOf(rows, root) && Origin(t, n) == root && i < |Path(t, n)|
    requires Path(t, n)[i] in r.orders
    ensures r.orders[Path(t, n)[i]] in GroupOf(rows, root)
  {
    var o := r.orders[Path(t, n)[i]];
    PathLinks(t, n, i);
    GroupHas(rows, root, r.orders[n]);
    var k :| 0 <= k < |rows| && rows[k] == r.orders[n];
    assert rows[k].ref == n && o in rows;
    assert FromCache(r, o);
    RootIsOrigin(t, r, o);
    GroupHas(rows, root, o);
  }

  lemma {:induction false} MemberIsOnPath(t: Truth, r: Repo, o: Order, n: OutRef)
    requires Coherent(t) && FromCache(r, o) && AllCached(r, Path(t, n))
    requires Origin(t, o.ref) == Origin(t, n) && |Path(t, o.ref)| <= |Path(t, n)|
    ensures o in CachedRows(r, Path(t, n))
  {
    ShorterIsOnPath(t, o.ref, n);
    var i :| 0 <= i < |Path(t, n)| && Path(t, n)[i] == o.ref;
    assert CachedRows(r, Path(t, n))[i] == o;
  }

  lemma {:induction false} RowsAreDistinct(t: Truth, r: Repo, n: OutRef)
    requires Coherent(t) && r.Valid() && AllCached(r, Path(t, n))
    ensures NoRepeats(CachedRows(r, Path(t, n)))
  {
    PathIsDistinct(t, n);
    var rows := CachedRows(r, Path(t, n));
    forall i, j | 0 <= i < j < |rows| ensures rows[i] != rows[j] {
      assert rows[i].ref == Path(t, n)[i] && rows[j].ref == Path(t, n)[j];
    }
  }

  /** A group of a complete cache is exactly one path, up to order. */
  lemma {:induction false} GroupIsPath(t: Truth, r: Repo, rows: seq<Order>, root: OutRef) returns (n: OutRef)
    requires Tracks(t, r) && Linked(t, r) && WholeChains(t, r, rows) && GroupOf(rows, root) != []
    ensures n in r.orders && Origin(t, n) == root && AllCached(r, Path(t, n))
    ensures multiset(GroupOf(rows, root)) == multiset(CachedRows(r, Path(t, n)))
  {
    var members := GroupOf(rows, root);
    GroupIsOneOrigin(t, r, rows, root);
    var k := Deepest(t, members);
    n := members[k].ref;
    PathIsCached(t, r, n);
    var path := CachedRows(r, Path(t, n));
    forall o ensures o in members <==> o in path {
      if o in members {
        MemberIsOnPath(t, r, o, n);
      }
      if o in path {
        var i :| 0 <= i < |path| && path[i] == o;
        PathIsInGroup(t, r, rows, root, n, i);
      }
    }
    GroupIsDistinct(rows, root);
    RowsAreDistinct(t, r, n);
    SameWithoutRepeats(members, path);
  }

  /** Nothing cached continues the chain beyond the tip. */
  lemma {:induction false} PathEndsChain(t: Truth, r: Repo, rows: seq<Order>, n: OutRef, id: OutRef)
    requires Tracks(t, r) && Linked(t, r) && WholeChains(t, r, rows) && AllCached(r, Path(t, n))
    requires multiset(GroupOf(rows, Origin(t, n))) == multiset(CachedRows(r, Path(t, n)))
    requires id in r.orders && Origin(t, id) == Origin(t, n) && r.orders[n] in rows
    ensures id in Path(t, n)
  {
    var k :| 0 <= k < |rows| && rows[k] == r.orders[n];
    assert rows[k].ref == n && r.orders[id] in rows;
    assert FromCache(r, r.orders[id]);
    RootIsOrigin(t, r, r.orders[id]);
    GroupHas(rows, Origin(t, n), r.orders[id]);
    SameElements(GroupOf(rows, Origin(t, n)), CachedRows(r, Path(t, n)));
    CachedRowIsOnPath(r, Path(t, n), id);
  }

  lemma {:induction false} CachedRowIsOnPath(r: Repo, path: seq<OutRef>, id: OutRef)
    requires r.Valid() && AllCached(r, path) && id in r.orders && r.orders[id] in CachedRows(r, path)
    ensures id in path
  {
    var rows := CachedRows(r, path);
    var i :| 0 <= i < |rows| && rows[i] == r.orders[id];
    assert r.orders[path[i]].ref == path[i] && path[i] in path;
  }

  /** What a position should be: a whole chain from its origin, accounted for to the unit. */
  ghost predicate TellsHistory(t: Truth, r: Repo, p: Position, n: OutRef)
    requires Descends(t)
  {
    && n in r.orders && AllCached(r, Path(t, n)) && p.chain == CachedRows(r, Path(t, n))
    && p.rootId == Origin(t, n) && p.original.ref == Origin(t, n) && p.tip.ref == n
    && (forall id | id in r.orders && Origin(t, id) == Origin(t, n) :: id in Path(t, n))
    && p.chain != [] && EventsTold(p)
    && Sold(FillEvents(p)) + LeftOffer(p.tip) == p.original.offeredAmount
    && Received(FillEvents(p)) + LeftAsk(p.tip) == p.original.requestedAmount
  }

  lemma {:induction false} PositionTellsHistory(t: Truth, r: Repo, rows: seq<Order>, p: Position) returns (n: OutRef)
    requires Tracks(t, r) && Linked(t, r) && TermsChain(t) && WholeChains(t, r, rows) && p in Grouped(rows)
    ensures TellsHistory(t, r, p, n)
  {
    PositionOfKey(rows, p);
    n := GroupIsPath(t, r, rows, p.rootId);
    var q := HistoryAccounts(t, r, n, GroupOf(rows, p.rootId));
    assert p == q;
    TipIsListed(r, rows, p.rootId, Path(t, n), n);
    forall id | id in r.orders && Origin(t, id) == Origin(t, n) ensures id in Path(t, n) {
      PathEndsChain(t, r, rows, n, id);
    }
  }

  lemma {:induction false} TipIsListed(r: Repo, rows: seq<Order>, root: OutRef, path: seq<OutRef>, n: OutRef)
    requires AllCached(r, path) && path != [] && path[|path| - 1] == n
    requires multiset(GroupOf(rows, root)) == multiset(CachedRows(r, path))
    ensures r.orders[n] in rows
  {
    var listed := CachedRows(r, path);
    SameElements(GroupOf(rows, root), listed);
    assert listed[|path| - 1] == r.orders[n] && r.orders[n] in listed;
    GroupHas(rows, root, r.orders[n]);
  }

  // ------------------------------------------------------------ an owner's rows

  /** listByOwner: the cached orders of one owner, each once, in whatever order. */
  ghost predicate OwnersRows(r: Repo, owner: string, rows: seq<Order>) {
    && DistinctOrders(rows)
    && (forall o :: o in rows <==> FromCache(r, o) && o.ownerStakeCredential == owner)
  }

  lemma {:induction false} OwnerOnChain(t: Truth, r: Repo, id: OutRef)
    requires Tracks(t, r) && TermsChain(t) && id in r.orders
    ensures t.at(Origin(t, id)).Some? && r.orders[id].ownerStakeCredential == t.at(Origin(t, id)).value.ownerStakeCredential
  {
    assert RecordTrue(t, id, r.orders[id]);
    ChainIsRun(t, id);
    assert Terms(r.orders[id]).ownerStakeCredential == r.orders[id].ownerStakeCredential;
  }

  /** A chain has one owner, so an owner's rows are whole chains. */
  lemma {:induction false} OwnersRowsAreWhole(t: Truth, r: Repo, owner: string, rows: seq<Order>)
    requires Tracks(t, r) && TermsChain(t) && OwnersRows(r, owner, rows)
    ensures WholeChains(t, r, rows)
  {
    forall i | 0 <= i < |rows| ensures FromCache(r, rows[i]) && rows[i].ownerStakeCredential == owner {
      assert rows[i] in rows;
    }
    forall i, id | 0 <= i < |rows| && id in r.orders && Origin(t, id) == Origin(t, rows[i].ref)
      ensures r.orders[id] in rows {
      OwnerOnChain(t, r, id);
      OwnerOnChain(t, r, rows[i].ref);
      assert FromCache(r, r.orders[id]);
    }
  }

  /**
   * In every state of every run in which no pass gave up a reconstruction: each position
   * of an owner's portfolio is one whole fill chain, listed from its true origin to its
   * furthest cached order, and its fills plus what is left sum to the origin's amounts.
   */
  lemma {:induction false} EveryPositionTellsHistory(proto: Protocol, states: seq<State>, events: seq<Event>, i: nat,
                                                     owner: string, rows: seq<Order>, p: Position) returns (n: OutRef)
    requires ConfigOk(proto) && Run(proto, states, events) && ShallowRun(proto, states, events) && i < |states|
    requires OwnersRows(states[i].cache, owner, rows) && p in Grouped(rows)
    ensures Coherent(TruthOf(proto, states[i].world))
    ensures TellsHistory(TruthOf(proto, states[i].world), states[i].cache, p, n)
  {
    var t, r := TruthOf(proto, states[i].world), states[i].cache;
    StateIsComplete(proto, states, events, i);
    OwnersRowsAreWhole(t, r, owner, rows);
    n := PositionTellsHistory(t, r, rows, p);
  }

  lemma {:induction false} StateIsComplete(proto: Protocol, states: seq<State>, events: seq<Event>, i: nat)
    requires ConfigOk(proto) && Run(proto, states, events) && ShallowRun(proto, states, events) && i < |states|
    ensures Tracks(TruthOf(proto, states[i].world), states[i].cache)
    ensures Linked(TruthOf(proto, states[i].world), states[i].cache)
    ensures TermsChain(TruthOf(proto, states[i].world))
  {
    EveryStateTruthful(proto, states, events, i);
    EveryStateLinked(proto, states, events, i);
    TermsAreChained(proto, states[i].world);
  }
}
