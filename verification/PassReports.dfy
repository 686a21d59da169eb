/**
 * What a pass says about itself: the two counters it returns, the cursor it leaves, and
 * the slot it stamps on the orders it caches.
 */
module PassReports {
  import opened Wrappers
  import opened Sequences
  import opened Sorting
  import opened Orders
  import opened Ledger
  import opened ChainModel
  import opened OrdersRepo
  import opened Indexer
  import opened SyncProofs

  // ------------------------------------------------------- the open counter

  /** Everything listed, holder after holder. */
  function AllListed(s: Snapshot): seq<Utxo> {
    FlatMap((h: Address) => ListingOf(s, h), s.holders)
  }

  lemma {:induction false} ListingAppends(proto: Protocol, s: Snapshot, confirmations: int, st: Sync, a: seq<Utxo>, b: seq<Utxo>)
    ensures DiscoverListing(proto, s, confirmations, st, a + b)
         == DiscoverListing(proto, s, confirmations, DiscoverListing(proto, s, confirmations, st, a), b)
  {
    if b == [] {
      assert a + b == a;
    } else {
      var n := |b| - 1;
      ListingAppends(proto, s, confirmations, st, a, b[..n]);
      assert (a + b)[..|a + b| - 1] == a + b[..n];
    }
  }

  lemma {:induction false} AllIsOneListing(proto: Protocol, s: Snapshot, confirmations: int, st: Sync, holders: seq<Address>)
    ensures DiscoverAll(proto, s, confirmations, st, holders)
         == DiscoverListing(proto, s, confirmations, st, FlatMap((h: Address) => ListingOf(s, h), holders))
  {
    if holders != [] {
      var f := (h: Address) => ListingOf(s, h);
      var init, last := holders[..|holders| - 1], holders[|holders| - 1];
      AllIsOneListing(proto, s, confirmations, st, init);
      ListingAppends(proto, s, confirmations, st, FlatMap(f, init), ListingOf(s, last));
    }
  }

  lemma {:induction false} AllListedAreShown(proto: Protocol, s: Snapshot)
    requires Consistent(proto, s)
    ensures AllShown(s, AllListed(s))
  {
    var f, listed := (h: Address) => ListingOf(s, h), AllListed(s);
    forall i | 0 <= i < |listed| ensures Shown(s, listed[i]) {
      assert listed[i] in FlatMap(f, s.holders);
      var j := FlatMapAt(f, s.holders, listed[i]);
      ListingIsShown(proto, s, s.holders[j]);
      var k :| 0 <= k < |ListingOf(s, s.holders[j])| && ListingOf(s, s.holders[j])[k] == listed[i];
    }
  }

  /** Whether the listed output at an index is open in this cache. */
  ghost function OpenAt(r: Repo, listed: seq<Utxo>): nat -> bool {
    (i: nat) => i < |listed| && r.IsOpen(listed[i].ref)
  }

  /** An output is counted when the pass leaves it open, whether it was or not. */
  lemma {:induction false} DiscoverCounts(proto: Protocol, s: Snapshot, confirmations: int, r: Repo, st: Sync, done: set<OutRef>, u: Utxo)
    requires Consistent(proto, s) && r.Valid() && Found(proto, s, confirmations, r, st, done) && Shown(s, u)
    ensures Discover(proto, s, confirmations, st, u).openCount
         == st.openCount + (if SyncPass(proto, s, confirmations, r).repo.IsOpen(u.ref) then 1 else 0)
  {
    SyncOpensExactly(proto, s, confirmations, r, u.ref);
    assert LiveValid(proto, s, u.ref) <==> ValidateAndMap(proto, u.ref, u.output).Some?;
  }

  ghost function CountedAt(proto: Protocol, s: Snapshot, confirmations: int, r: Repo): nat -> bool {
    (k: nat) => k <= |AllListed(s)| ==>
      DiscoverListing(proto, s, confirmations, Sync(r, {}, 0, 0), AllListed(s)[..k]).openCount
        == |Below(OpenAt(SyncPass(proto, s, confirmations, r).repo, AllListed(s)), k)|
  }

  lemma {:induction false} NextIsCounted(proto: Protocol, s: Snapshot, confirmations: int, r: Repo, k: nat)
    requires Consistent(proto, s) && r.Valid() && k < |AllListed(s)|
    ensures CarriesOver(CountedAt(proto, s, confirmations, r), k)
  {
    var listed, start := AllListed(s), Sync(r, {}, 0, 0);
    AllListedAreShown(proto, s);
    assert AllShown(s, listed[..k]) && Shown(s, listed[k]);
    ListingFinds(proto, s, confirmations, r, start, {}, listed[..k]);
    PrefixStep(listed, k);
    DiscoverCounts(proto, s, confirmations, r, DiscoverListing(proto, s, confirmations, start, listed[..k]),
      {} + RefsOf(listed[..k]), listed[k]);
    OneMoreBelow(OpenAt(SyncPass(proto, s, confirmations, r).repo, listed), k);
  }

  lemma {:induction false} DiscoveryCounts(proto: Protocol, s: Snapshot, confirmations: int, r: Repo)
    requires Consistent(proto, s) && r.Valid()
    ensures DiscoverAll(proto, s, confirmations, Sync(r, {}, 0, 0), s.holders).openCount
         == |Below(OpenAt(SyncPass(proto, s, confirmations, r).repo, AllListed(s)), |AllListed(s)|)|
  {
    var counted, n := CountedAt(proto, s, confirmations, r), |AllListed(s)|;
    assert Below(OpenAt(SyncPass(proto, s, confirmations, r).repo, AllListed(s)), 0) == {};
    forall k: nat | k < n ensures CarriesOver(counted, k) {
      NextIsCounted(proto, s, confirmations, r, k);
    }
    Climb(counted, n);
    assert AllListed(s)[..n] == AllListed(s);
    AllIsOneListing(proto, s, confirmations, Sync(r, {}, 0, 0), s.holders);
  }

  // ------------------------------------------------------ the spent counter

  /** Whether the order at an index was not found alive. */
  ghost function GoneAt(seen: set<OutRef>, ids: seq<OutRef>): nat -> bool {
    (i: nat) => i < |ids| && ids[i] !in seen
  }

  /** Where step 2 stands: what it counted, what it saw, and that it forgot no order. */
  ghost predicate Counts(found: Sync, st: Sync, ids: seq<OutRef>, k: nat) {
    && st.seen == found.seen && st.openCount == found.openCount
    && st.spentCount == found.spentCount + |Below(GoneAt(found.seen, ids), k)|
    && st.repo.orders.Keys == found.repo.orders.Keys
  }

  lemma {:induction false} RetireCounts(proto: Protocol, s: Snapshot, found: Sync, st: Sync, ids: seq<OutRef>, k: nat)
    requires Counts(found, st, ids, k) && k < |ids| && ids[k] in found.repo.orders
    requires forall ref | LiveValid(proto, s, ref) :: ref in found.seen
    ensures Counts(found, Retire(proto, s, st, ids[k]), ids, k + 1)
  {
    OneMoreBelow(GoneAt(found.seen, ids), k);
    if ids[k] !in st.seen {
      var spend, root := RetireMarks(proto, s, st, ids[k]);
    }
  }

  ghost function CountsAt(proto: Protocol, s: Snapshot, found: Sync, ids: seq<OutRef>): nat -> bool {
    (k: nat) => k <= |ids| ==> Counts(found, RetireAll(proto, s, found, ids[..k]), ids, k)
  }

  lemma {:induction false} AllAreCounted(proto: Protocol, s: Snapshot, found: Sync, ids: seq<OutRef>)
    requires forall i | 0 <= i < |ids| :: ids[i] in found.repo.orders
    requires forall ref | LiveValid(proto, s, ref) :: ref in found.seen
    ensures Counts(found, RetireAll(proto, s, found, ids), ids, |ids|)
  {
    var counts := CountsAt(proto, s, found, ids);
    assert Below(GoneAt(found.seen, ids), 0) == {};
    forall k: nat | k < |ids| ensures CarriesOver(counts, k) {
      PrefixStep(ids, k);
      if counts(k) {
        RetireCounts(proto, s, found, RetireAll(proto, s, found, ids[..k]), ids, k);
      }
    }
    Climb(counts, |ids|);
    assert ids[..|ids|] == ids;
  }

  /** Cached open orders, as step 1 leaves them, that are not alive any more. */
  ghost function Vanished(proto: Protocol, s: Snapshot, found: Repo): nat -> bool {
    (i: nat) => i < |found.OpenIds()| && !LiveValid(proto, s, found.OpenIds()[i])
  }

  lemma {:induction false} UnseenAreGone(proto: Protocol, s: Snapshot, found: Sync, ids: seq<OutRef>)
    requires ids == found.repo.OpenIds()
    requires forall ref :: ref in found.seen <==> LiveValid(proto, s, ref)
    ensures Below(GoneAt(found.seen, ids), |ids|) == Below(Vanished(proto, s, found.repo), |ids|)
  {
    forall i: nat | i < |ids| ensures GoneAt(found.seen, ids)(i) == Vanished(proto, s, found.repo)(i) {}
  }

  /**
   * A pass reports how many of the outputs listed to it are open afterwards, listed twice
   * counting twice, and how many of the orders open after step 1 are not alive any more;
   * and it moves the cursor to its tip.
   */
  lemma {:induction false} PassCounts(proto: Protocol, s: Snapshot, confirmations: int, r: Repo)
    requires Consistent(proto, s) && r.Valid()
    ensures var st, found := SyncPass(proto, s, confirmations, r), DiscoverAll(proto, s, confirmations, Sync(r, {}, 0, 0), s.holders);
      && st.openCount == |Below(OpenAt(st.repo, AllListed(s)), |AllListed(s)|)|
      && st.spentCount == |Below(Vanished(proto, s, found.repo), |found.repo.OpenIds()|)|
      && st.repo.cursor == s.tip.slot
  {
    var found := DiscoverAll(proto, s, confirmations, Sync(r, {}, 0, 0), s.holders);
    var ids := found.repo.OpenIds();
    SyncKeepsValid(proto, s, confirmations, r);
    DiscoveryCounts(proto, s, confirmations, r);
    NothingSpentYet(proto, s, confirmations, Sync(r, {}, 0, 0), s.holders);
    forall i | 0 <= i < |ids| ensures ids[i] in found.repo.orders {
      OpenIdsAreOpen(found.repo, ids[i]);
    }
    AllAreCounted(proto, s, found, ids);
    UnseenAreGone(proto, s, found, ids);
  }

  lemma {:induction false} NothingSpentInListing(proto: Protocol, s: Snapshot, confirmations: int, st: Sync, utxos: seq<Utxo>)
    ensures DiscoverListing(proto, s, confirmations, st, utxos).spentCount == st.spentCount
  {
    if utxos != [] {
      NothingSpentInListing(proto, s, confirmations, st, utxos[..|utxos| - 1]);
    }
  }

  lemma {:induction false} NothingSpentYet(proto: Protocol, s: Snapshot, confirmations: int, st: Sync, holders: seq<Address>)
    ensures DiscoverAll(proto, s, confirmations, st, holders).spentCount == st.spentCount
  {
    if holders != [] {
      var n := |holders| - 1;
      NothingSpentYet(proto, s, confirmations, st, holders[..n]);
      NothingSpentInListing(proto, s, confirmations, DiscoverAll(proto, s, confirmations, st, holders[..n]), ListingOf(s, holders[n]));
    }
  }

  // ---------------------------------------------------------------- the stamps

  /** Every order shows the slot it showed before, or the one being stamped; a new one can only show the latter. */
  ghost predicate Stamped(r: Repo, r': Repo, slot: int) {
    forall id | id in r'.orders ::
      || r'.orders[id].createdAtSlot == Some(slot)
      || (id in r.orders && r'.orders[id].createdAtSlot == r.orders[id].createdAtSlot)
  }

  lemma {:induction false} StampedTwice(r: Repo, r1: Repo, r2: Repo, slot: int)
    requires Stamped(r, r1, slot) && Stamped(r1, r2, slot)
    ensures Stamped(r, r2, slot)
  {
  }

  lemma {:induction false} LinkStamps(r: Repo, link: Link, root: OutRef, slot: int)
    ensures Stamped(r, WriteLink(r, link, root, slot), slot)
  {
    var up := r.Upsert(link.parent.(createdAtSlot := Some(slot)));
    var marked := up.MarkSpent(link.parent.ref, PartiallyFilled, Some(link.child.txHash));
    assert Stamped(r, up, slot) && Stamped(up, marked, slot);
    StampedTwice(r, up, marked, slot);
    StampedTwice(r, marked, WriteLink(r, link, root, slot), slot);
  }

  lemma {:induction false} LinksStamp(r: Repo, links: seq<Link>, root: OutRef, slot: int)
    ensures Stamped(r, WriteLinks(r, links, root, slot), slot)
  {
    if links != [] {
      LinksStamp(r, links[1..], root, slot);
      LinkStamps(WriteLinks(r, links[1..], root, slot), links[0], root, slot);
      StampedTwice(r, WriteLinks(r, links[1..], root, slot), WriteLinks(r, links, root, slot), slot);
    }
  }

  lemma {:induction false} BackfillStamps(proto: Protocol, c: Chain, r: Repo, node: OutRef, slot: int)
    ensures Stamped(r, Backfill(proto, c, r, node, slot), slot)
  {
    var walk := WalkUp(Parents(proto, c), r.lineage, node, 0);
    if walk.Some? {
      LinksStamp(r, walk.value.links, walk.value.root, slot);
    }
  }

  lemma {:induction false} DiscoverStamps(proto: Protocol, s: Snapshot, confirmations: int, st: Sync, u: Utxo)
    ensures Stamped(st.repo, Discover(proto, s, confirmations, st, u).repo, s.tip.slot)
  {
    var order := ValidateAndMap(proto, u.ref, u.output);
    if order.Some? {
      var up := st.repo.Upsert(order.value.(createdAtSlot := Some(s.tip.slot)));
      BackfillStamps(proto, s.chain, up, u.ref, s.tip.slot);
      StampedTwice(st.repo, up, Backfill(proto, s.chain, up, u.ref, s.tip.slot), s.tip.slot);
    }
  }

  lemma {:induction false} ListingStamps(proto: Protocol, s: Snapshot, confirmations: int, st: Sync, utxos: seq<Utxo>)
    ensures Stamped(st.repo, DiscoverListing(proto, s, confirmations, st, utxos).repo, s.tip.slot)
  {
    if utxos != [] {
      var n := |utxos| - 1;
      var before := DiscoverListing(proto, s, confirmations, st, utxos[..n]);
      ListingStamps(proto, s, confirmations, st, utxos[..n]);
      DiscoverStamps(proto, s, confirmations, before, utxos[n]);
      StampedTwice(st.repo, before.repo, DiscoverListing(proto, s, confirmations, st, utxos).repo, s.tip.slot);
    }
  }

  lemma {:induction false} RetireStamps(proto: Protocol, s: Snapshot, st: Sync, id: OutRef)
    ensures Stamped(st.repo, Retire(proto, s, st, id).repo, s.tip.slot)
  {
    if id !in st.seen && id in st.repo.orders {
      var spend := ClassifySpend(proto, s.chain, st.repo.orders[id].ref);
      var marked := st.(repo := st.repo.MarkSpent(id, spend.status, spend.txHash));
      assert Stamped(st.repo, marked.repo, s.tip.slot);
      if spend.status == PartiallyFilled && spend.child.Some? {
        var root := if id in marked.repo.lineage then marked.repo.lineage[id].root else id;
        var linked := marked.(repo := marked.repo.SetLineage(spend.child.value, id, root));
        StampedTwice(st.repo, marked.repo, linked.repo, s.tip.slot);
        SurfaceStamps(proto, s, linked, spend.child.value);
        StampedTwice(st.repo, linked.repo, Surface(proto, s, linked, spend.child.value).repo, s.tip.slot);
      }
    }
  }

  lemma {:induction false} SurfaceStamps(proto: Protocol, s: Snapshot, st: Sync, child: OutRef)
    ensures Stamped(st.repo, Surface(proto, s, st, child).repo, s.tip.slot)
  {
  }

  lemma {:induction false} RetireAllStamps(proto: Protocol, s: Snapshot, st: Sync, ids: seq<OutRef>)
    ensures Stamped(st.repo, RetireAll(proto, s, st, ids).repo, s.tip.slot)
  {
    if ids != [] {
      var n := |ids| - 1;
      var before := RetireAll(proto, s, st, ids[..n]);
      RetireAllStamps(proto, s, st, ids[..n]);
      RetireStamps(proto, s, before, ids[n]);
      StampedTwice(st.repo, before.repo, RetireAll(proto, s, st, ids).repo, s.tip.slot);
    }
  }

  /** What a pass caches for the first time shows the pass's own slot; nothing is given any other. */
  lemma {:induction false} PassStamps(proto: Protocol, s: Snapshot, confirmations: int, r: Repo)
    ensures Stamped(r, SyncPass(proto, s, confirmations, r).repo, s.tip.slot)
  {
    var found := DiscoverAll(proto, s, confirmations, Sync(r, {}, 0, 0), s.holders);
    AllIsOneListing(proto, s, confirmations, Sync(r, {}, 0, 0), s.holders);
    ListingStamps(proto, s, confirmations, Sync(r, {}, 0, 0), AllListed(s));
    RetireAllStamps(proto, s, found, found.repo.OpenIds());
    StampedTwice(r, found.repo, RetireAll(proto, s, found, found.repo.OpenIds()).repo, s.tip.slot);
  }
}
