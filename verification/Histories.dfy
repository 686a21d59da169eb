/**
 * The position view of a cached fill chain: listed from origin to tip, with events
 * that account exactly for the origin's offer and ask.
 */
module Histories {
  import opened Wrappers
  import opened Pricing
  import opened Orders
  import opened OrdersRepo
  import opened Indexer
  import opened Ancestry
  import opened Runs
  import opened Lineages
  import opened FillChains
  import opened Evolution
  import opened Positions

  /** The fill chain from the origin down to n. */
  ghost function Path(t: Truth, n: OutRef): (r: seq<OutRef>)
    requires Descends(t)
    ensures r != [] && r[|r| - 1] == n && r[0] == Origin(t, n)
    decreases t.rank(n)
  {
    if t.up(n).None? then [n] else Path(t, t.up(n).value.ref) + [n]
  }

  ghost predicate AllCached(r: Repo, refs: seq<OutRef>) {
    forall i | 0 <= i < |refs| :: refs[i] in r.orders
  }

  function CachedRows(r: Repo, refs: seq<OutRef>): (rows: seq<Order>)
    requires forall i | 0 <= i < |refs| :: refs[i] in r.orders
    ensures |rows| == |refs| && forall i | 0 <= i < |refs| :: rows[i] == r.orders[refs[i]]
  {
    seq(|refs|, i requires 0 <= i < |refs| => r.orders[refs[i]])
  }

  lemma {:induction false} PathLinks(t: Truth, n: OutRef, i: nat)
    requires Coherent(t) && i < |Path(t, n)|
    ensures i == 0 ==> t.up(Path(t, n)[i]).None?
    ensures i > 0 ==> t.up(Path(t, n)[i]).Some? && t.up(Path(t, n)[i]).value.ref == Path(t, n)[i - 1]
    ensures Origin(t, Path(t, n)[i]) == Origin(t, n)
    decreases t.rank(n)
  {
    if t.up(n).Some? && i < |Path(t, n)| - 1 {
      PathLinks(t, t.up(n).value.ref, i);
    }
  }

  lemma {:induction false} PathAscends(t: Truth, n: OutRef)
    requires Coherent(t)
    ensures forall i, j | 0 <= i < j < |Path(t, n)| :: t.rank(Path(t, n)[i]) < t.rank(Path(t, n)[j])
    decreases t.rank(n)
  {
    if t.up(n).Some? {
      var p := t.up(n).value.ref;
      PathAscends(t, p);
      assert forall i | 0 <= i < |Path(t, p)| :: t.rank(Path(t, p)[i]) <= t.rank(p);
    }
  }

  /** A cached row on the path: its own reference, its true parent, its true amounts. */
  lemma {:induction false} CachedRow(t: Truth, r: Repo, n: OutRef, i: nat)
    requires Tracks(t, r) && Linked(t, r) && i < |Path(t, n)| && Path(t, n)[i] in r.orders
    ensures var o := r.orders[Path(t, n)[i]];
      && o.ref == Path(t, n)[i]
      && o.parent == (if i == 0 then None else Some(Path(t, n)[i - 1]))
      && RootOf(o) == Origin(t, n)
      && t.at(o.ref).Some? && o.offeredAmount == t.at(o.ref).value.offeredAmount
  {
    var id := Path(t, n)[i];
    PathLinks(t, n, i);
    LinkedShowsAncestry(t, r, id);
    assert RecordTrue(t, id, r.orders[id]);
    assert Terms(r.orders[id]).offeredAmount == r.orders[id].offeredAmount;
  }

  lemma {:induction false} FillSells(t: Truth, n: OutRef)
    requires Coherent(t) && TermsChain(t) && t.up(n).Some?
    ensures t.at(n).Some? && t.at(t.up(n).value.ref) == t.up(n)
    ensures t.at(n).value.offeredAmount < t.up(n).value.offeredAmount
  {
    assert FillFate(t, n);
  }

  lemma {:induction false} CachedStepSells(t: Truth, r: Repo, n: OutRef, i: nat)
    requires Tracks(t, r) && Linked(t, r) && TermsChain(t) && 0 < i < |Path(t, n)|
    requires Path(t, n)[i] in r.orders && Path(t, n)[i - 1] in r.orders
    ensures r.orders[Path(t, n)[i]].offeredAmount < r.orders[Path(t, n)[i - 1]].offeredAmount
  {
    PathLinks(t, n, i);
    CachedFillSells(t, r, Path(t, n)[i]);
  }

  lemma {:induction false} CachedFillSells(t: Truth, r: Repo, id: OutRef)
    requires Tracks(t, r) && TermsChain(t) && t.up(id).Some? && id in r.orders && t.up(id).value.ref in r.orders
    ensures r.orders[id].offeredAmount < r.orders[t.up(id).value.ref].offeredAmount
  {
    FillSells(t, id);
    CachedAmount(t, r, id);
    CachedAmount(t, r, t.up(id).value.ref);
  }

  lemma {:induction false} CachedAmount(t: Truth, r: Repo, id: OutRef)
    requires Tracks(t, r) && id in r.orders
    ensures t.at(id).Some? && r.orders[id].offeredAmount == t.at(id).value.offeredAmount
  {
    assert RecordTrue(t, id, r.orders[id]);
    assert Terms(r.orders[id]).offeredAmount == r.orders[id].offeredAmount;
  }

  /** Row i stands for path[i]: its reference, its parent, its group, and less to offer than before. */
  ghost predicate RowFollows(rows: seq<Order>, path: seq<OutRef>, root: OutRef, i: nat) {
    && i < |rows| == |path|
    && rows[i].ref == path[i] && RootOf(rows[i]) == root
    && (if i == 0 then rows[i].parent == None
        else rows[i].parent == Some(path[i - 1]) && rows[i].offeredAmount < rows[i - 1].offeredAmount)
  }

  ghost predicate FollowPath(rows: seq<Order>, path: seq<OutRef>, root: OutRef) {
    |rows| == |path| && path != [] && forall i: nat | i < |rows| :: RowFollows(rows, path, root, i)
  }

  lemma {:induction false} PathRows(rows: seq<Order>, path: seq<OutRef>, root: OutRef)
    requires FollowPath(rows, path, root) && forall i, j | 0 <= i < j < |path| :: path[i] != path[j]
    ensures FillChain(rows) && StepsSell(rows, |rows| - 1)
    ensures rows[0].ref == path[0] && rows[|rows| - 1].ref == path[|path| - 1]
  {
    assert forall i: nat | i < |rows| :: RowFollows(rows, path, root, i) && rows[i].ref == path[i];
    assert RowFollows(rows, path, root, 0);
    forall i: nat | i < |rows| ensures NamesPrevious(rows, i) && Sells(rows, i) {
      assert RowFollows(rows, path, root, i);
      assert i > 0 ==> RowFollows(rows, path, root, i - 1);
    }
  }

  lemma {:induction false} CachedRowFollows(t: Truth, r: Repo, n: OutRef, i: nat)
    requires Tracks(t, r) && Linked(t, r) && TermsChain(t) && AllCached(r, Path(t, n)) && i < |Path(t, n)|
    ensures RowFollows(CachedRows(r, Path(t, n)), Path(t, n), Origin(t, n), i)
  {
    assert Path(t, n)[i] in r.orders;
    CachedRow(t, r, n, i);
    if i > 0 {
      assert Path(t, n)[i - 1] in r.orders;
      CachedStepSells(t, r, n, i);
    }
  }

  lemma {:induction false} CachedRowsFollow(t: Truth, r: Repo, n: OutRef)
    requires Tracks(t, r) && Linked(t, r) && TermsChain(t) && AllCached(r, Path(t, n))
    ensures FollowPath(CachedRows(r, Path(t, n)), Path(t, n), Origin(t, n))
  {
    forall i: nat | i < |Path(t, n)| ensures RowFollows(CachedRows(r, Path(t, n)), Path(t, n), Origin(t, n), i) {
      CachedRowFollows(t, r, n, i);
    }
  }

  lemma {:induction false} PathIsDistinct(t: Truth, n: OutRef)
    requires Coherent(t)
    ensures forall i, j | 0 <= i < j < |Path(t, n)| :: Path(t, n)[i] != Path(t, n)[j]
  {
    PathAscends(t, n);
  }

  /** The cached rows of a path form a fill chain in which every step sells. */
  lemma {:induction false} CachedPathIsChain(t: Truth, r: Repo, n: OutRef)
    requires Tracks(t, r) && Linked(t, r) && TermsChain(t) && AllCached(r, Path(t, n))
    ensures var rows := CachedRows(r, Path(t, n));
      && FillChain(rows) && StepsSell(rows, |rows| - 1)
      && rows[0].ref == Origin(t, n) && rows[|rows| - 1].ref == n
  {
    CachedRowsFollow(t, r, n);
    PathIsDistinct(t, n);
    PathRows(CachedRows(r, Path(t, n)), Path(t, n), Origin(t, n));
  }

  // ------------------------------------------------- what each event tells

  /** The event is one acceptable partial fill of cur, at its ceiling price, under the transaction that spent cur. */
  predicate TellsStep(e: FillEvent, cur: Order) {
    && e.kind == Fill && cur.status == PartiallyFilled
    && e.txHash.Some? && e.txHash == cur.spentTxHash
    && cur.offeredAmount > 0 && cur.requestedAmount > 0
    && AcceptedTake(e.soldOffered, cur.requestedAmount, cur.offeredAmount)
    && e.receivedAsk == Owed(e.soldOffered, cur.requestedAmount, cur.offeredAmount)
  }

  predicate EventTold(events: seq<FillEvent>, chain: seq<Order>, j: nat) {
    j < |events| && j < |chain| && TellsStep(events[j], chain[j])
  }

  /** One event for every order the chain went on from, and one more when its last order was taken or cancelled. */
  ghost predicate EventsTold(p: Position)
    requires p.chain != []
  {
    var events, n := FillEvents(p), |p.chain| - 1;
    && (forall j: nat | j < n :: EventTold(events, p.chain, j))
    && (match p.tip.status
        case Taken => |events| == n + 1 && events[n] == FillEvent(p.tip.offeredAmount, p.tip.requestedAmount, None, Final)
        case Cancelled => |events| == n + 1 && events[n] == FillEvent(0, 0, None, CancelEvent)
        case _ => |events| == n)
  }

  /** A parent whose continuation is cached is marked with the transaction that made it. */
  lemma {:induction false} ParentIsMarked(t: Truth, r: Repo, id: OutRef)
    requires Tracks(t, r) && Linked(t, r) && t.up(id).Some? && id in r.orders && t.up(id).value.ref in r.orders
    ensures var cur := r.orders[t.up(id).value.ref]; cur.status == PartiallyFilled && cur.spentTxHash == Some(id.txHash)
  {
    var parent := t.up(id).value.ref;
    assert OrderLinked(t, r, id) && RowTrue(t, id, r.lineage[id]) && FillFate(t, id);
    assert RecordTrue(t, parent, r.orders[parent]);
  }

  lemma {:induction false} StepIsTold(t: Truth, r: Repo, id: OutRef)
    requires Tracks(t, r) && Linked(t, r) && TermsChain(t)
    requires t.up(id).Some? && id in r.orders && t.up(id).value.ref in r.orders
    ensures var cur, next := r.orders[t.up(id).value.ref], r.orders[id];
      next.ref == id && StepEvent(cur, next).Some? && TellsStep(StepEvent(cur, next).value, cur)
  {
    var parent := t.up(id).value.ref;
    ParentIsMarked(t, r, id);
    assert FillFate(t, id) && t.at(parent) == t.up(id);
    CachedTerms(t, r, id);
    CachedTerms(t, r, parent);
    FillIsTold(t.up(id).value, t.at(id).value, r.orders[parent], r.orders[id]);
  }

  /** The event between two records that show a fill's two orders. */
  lemma {:induction false} FillIsTold(parent: Order, child: Order, cur: Order, next: Order)
    requires KeepsTerms(parent, child) && cur.status == PartiallyFilled && cur.spentTxHash == Some(next.ref.txHash)
    requires cur.offeredAmount == parent.offeredAmount && cur.requestedAmount == parent.requestedAmount
    requires next.offeredAmount == child.offeredAmount && next.requestedAmount == child.requestedAmount
    ensures StepEvent(cur, next).Some? && TellsStep(StepEvent(cur, next).value, cur)
  {
    assert child.requestedAmount == parent.requestedAmount - Owed(parent.offeredAmount - child.offeredAmount, parent.requestedAmount, parent.offeredAmount);
  }

  lemma {:induction false} CachedTerms(t: Truth, r: Repo, id: OutRef)
    requires Tracks(t, r) && id in r.orders
    ensures t.at(id).Some? && r.orders[id].ref == id
    ensures r.orders[id].offeredAmount == t.at(id).value.offeredAmount && r.orders[id].requestedAmount == t.at(id).value.requestedAmount
  {
    assert RecordTrue(t, id, r.orders[id]);
    assert Terms(r.orders[id]).offeredAmount == r.orders[id].offeredAmount;
    assert Terms(r.orders[id]).requestedAmount == r.orders[id].requestedAmount;
  }

  /** The step from row j sells something, and its event tells what. */
  predicate StepTold(chain: seq<Order>, j: nat) {
    && j + 1 < |chain| && StepEvent(chain[j], chain[j + 1]).Some?
    && TellsStep(StepEvent(chain[j], chain[j + 1]).value, chain[j])
  }

  lemma {:induction false} StepsAreTold(chain: seq<Order>, n: nat)
    requires n < |chain| && forall j: nat | j < n :: StepTold(chain, j)
    ensures |StepEvents(chain, n)| == n && forall j: nat | j < n :: EventTold(StepEvents(chain, n), chain, j)
  {
    if n > 0 {
      StepsAreTold(chain, n - 1);
      assert StepTold(chain, n - 1);
      var before, e := StepEvents(chain, n - 1), StepEvent(chain[n - 1], chain[n]).value;
      forall j: nat | j < n ensures EventTold(before + [e], chain, j) {
        if j < n - 1 {
          assert EventTold(before, chain, j);
        }
      }
    }
  }

  lemma {:induction false} EveryStepIsTold(t: Truth, r: Repo, n: OutRef, j: nat)
    requires Tracks(t, r) && Linked(t, r) && TermsChain(t) && AllCached(r, Path(t, n)) && j + 1 < |Path(t, n)|
    ensures StepTold(CachedRows(r, Path(t, n)), j)
  {
    PathLinks(t, n, j + 1);
    StepIsTold(t, r, Path(t, n)[j + 1]);
  }

  lemma {:induction false} EventsFollow(p: Position)
    requires p.chain != [] && forall j: nat | j < |p.chain| - 1 :: StepTold(p.chain, j)
    ensures EventsTold(p)
  {
    var n := |p.chain| - 1;
    StepsAreTold(p.chain, n);
    var steps := StepEvents(p.chain, n);
    forall j: nat | j < n ensures EventTold(FillEvents(p), p.chain, j) {
      assert EventTold(steps, p.chain, j);
    }
  }

  lemma {:induction false} EventsAreTold(t: Truth, r: Repo, n: OutRef, p: Position)
    requires Tracks(t, r) && Linked(t, r) && TermsChain(t) && AllCached(r, Path(t, n))
    requires p.chain == CachedRows(r, Path(t, n))
    ensures EventsTold(p)
  {
    forall j: nat | j < |p.chain| - 1 ensures StepTold(p.chain, j) {
      EveryStepIsTold(t, r, n, j);
    }
    EventsFollow(p);
  }

  /**
   * Whatever order the rows of a cached fill chain arrive in, the position view lists
   * them from origin to tip, and the fills plus what is left of the tip sum exactly to
   * the origin's offer and ask; each fill is told with its amounts and its transaction.
   */
  lemma {:induction false} HistoryAccounts(t: Truth, r: Repo, n: OutRef, members: seq<Order>) returns (p: Position)
    requires Tracks(t, r) && Linked(t, r) && TermsChain(t) && AllCached(r, Path(t, n))
    requires multiset(members) == multiset(CachedRows(r, Path(t, n)))
    ensures members != [] && p == PositionOf(Origin(t, n), members)
    ensures p.chain == CachedRows(r, Path(t, n)) && p.original.ref == Origin(t, n) && p.tip.ref == n
    ensures Sold(FillEvents(p)) + LeftOffer(p.tip) == p.original.offeredAmount
    ensures Received(FillEvents(p)) + LeftAsk(p.tip) == p.original.requestedAmount
    ensures EventsTold(p)
  {
    var rows := CachedRows(r, Path(t, n));
    CachedPathIsChain(t, r, n);
    TrueChainIsListed(rows, members);
    p := PositionOf(Origin(t, n), members);
    EventsAccount(p);
    EventsAreTold(t, r, n, p);
  }
}
