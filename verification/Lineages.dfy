/**
 * Fill lineage over whole runs: chain transactions, sync passes and repairs in any
 * order, from an empty cache. Whatever the interleaving the cache tells only the
 * truth about lineage and fate and never rewrites a row; it tells the whole truth
 * as long as no pass faces 64 or more unrecorded ancestors.
 */
module Lineages {
  import opened Wrappers
  import opened Beacons
  import opened Orders
  import opened Ledger
  import opened TxBuilder
  import opened TxBuilderProofs
  import opened ChainModel
  import opened OrdersRepo
  import opened Indexer
  import opened SyncProofs
  import opened Ancestry
  import opened Runs

  // ------------------------------------------------------ the chain's truth

  function Rank(c: Chain, n: OutRef): nat {
    if n.txHash in c.txs then c.txs[n.txHash].pos else 0
  }

  function TruthOf(proto: Protocol, w: World): Truth {
    Truth(Parents(proto, w.chain), (ref: OutRef) => OrderAt(proto, w.chain, ref), w.fate, (n: OutRef) => Rank(w.chain, n))
  }

  lemma {:induction false} OrderIsBare(proto: Protocol, c: Chain, ref: OutRef)
    requires OrderAt(proto, c, ref).Some?
    ensures OrderAt(proto, c, ref).value.ref == ref && Bare(OrderAt(proto, c, ref).value)
  {
  }

  lemma {:induction false} FillIsFate(proto: Protocol, w: World, n: OutRef)
    requires Sound(proto, w)
    ensures FillFate(TruthOf(proto, w), n)
  {
    if ParentOrder(proto, w.chain, n).Some? {
      var parent := ParentIsInput(proto, w.chain, n);
      assert ParentIs(proto, w.chain, n, parent);
      assert IsFill(w, parent, n);
      ChildIsNamed(proto, w.chain, parent);
    }
  }

  lemma {:induction false} FateIsFill(proto: Protocol, w: World, p: OutRef)
    requires FatesTrue(proto, w) && FillsTrue(proto, w)
    ensures ChildFate(TruthOf(proto, w), p)
  {
    if p in w.fate {
      assert ClassifySpend(proto, w.chain, p) == w.fate[p] && Concluded(w.fate[p]);
      ChildIsNamed(proto, w.chain, p);
      if w.fate[p].child.Some? {
        var child := w.fate[p].child.value;
        assert IsFill(w, p, child);
        assert ParentIs(proto, w.chain, child, p);
        assert TruthOf(proto, w).up(child) == ParentOrder(proto, w.chain, child);
      }
    }
  }

  lemma {:induction false} ParentIsEarlier(proto: Protocol, w: World, n: OutRef)
    requires Ordered(w.chain) && ParentOrder(proto, w.chain, n).Some?
    ensures Rank(w.chain, ParentOrder(proto, w.chain, n).value.ref) < Rank(w.chain, n)
  {
    var parent := ParentIsInput(proto, w.chain, n);
  }

  lemma {:induction false} TruthIsCoherent(proto: Protocol, w: World)
    requires Sound(proto, w)
    ensures Coherent(TruthOf(proto, w))
  {
    var t := TruthOf(proto, w);
    forall n: OutRef | t.up(n).Some? ensures t.rank(t.up(n).value.ref) < t.rank(n) {
      ParentIsEarlier(proto, w, n);
    }
    forall n: OutRef ensures FillFate(t, n) { FillIsFate(proto, w, n); }
    forall p: OutRef ensures ChildFate(t, p) { FateIsFill(proto, w, p); }
    forall ref: OutRef | t.at(ref).Some? ensures PlainRecord(t, ref) { OrderIsBare(proto, w.chain, ref); }
  }

  // ------------------------------------------------------- writers in a pass

  /** None of the orders a reconstruction may start from has 64 or more unrecorded ancestors. */
  ghost predicate Shallow(t: Truth, faced: iset<OutRef>, lineage: map<OutRef, Lineage>)
    requires Descends(t)
  {
    forall n: OutRef | n in faced :: Unrecorded(t, lineage, n) < MAX_DEPTH
  }

  /** What a pass reconstructs from: live orders it has waited for long enough. */
  ghost function Faced(proto: Protocol, s: Snapshot, confirmations: int): iset<OutRef> {
    iset ref: OutRef | LiveValid(proto, s, ref) && Confirmed(s, confirmations, ref)
  }

  ghost predicate Linked(t: Truth, r: Repo)
    requires Descends(t)
  {
    LinkedBut(t, r, {})
  }

  /** What every writer keeps: truth, the rows already there, and completeness while walks are short. */
  ghost predicate Kept(t: Truth, faced: iset<OutRef>, r: Repo, r': Repo) {
    && Tracks(t, r') && Extends(r.lineage, r'.lineage)
    && (Shallow(t, faced, r.lineage) && Linked(t, r) ==> Linked(t, r'))
  }

  lemma {:induction false} ShallowStays(t: Truth, faced: iset<OutRef>, before: map<OutRef, Lineage>, after: map<OutRef, Lineage>)
    requires Descends(t) && Shallow(t, faced, before) && Extends(before, after)
    ensures Shallow(t, faced, after)
  {
    forall n: OutRef | n in faced ensures Unrecorded(t, after, n) < MAX_DEPTH {
      RecordingHelps(t, before, after, n);
    }
  }

  lemma {:induction false} KeptTwice(t: Truth, faced: iset<OutRef>, r: Repo, r1: Repo, r2: Repo)
    requires Coherent(t) && Kept(t, faced, r, r1) && Kept(t, faced, r1, r2)
    ensures Kept(t, faced, r, r2)
  {
    if Shallow(t, faced, r.lineage) {
      ShallowStays(t, faced, r.lineage, r1.lineage);
    }
  }

  lemma {:induction false} KeptItself(t: Truth, faced: iset<OutRef>, r: Repo)
    requires Tracks(t, r)
    ensures Kept(t, faced, r, r)
  {
  }

  /** Reconstruction writes for a cached order, linked or about to be. */
  lemma {:induction false} BackfillTracks(t: Truth, proto: Protocol, c: Chain, r: Repo, n: OutRef, slot: int) returns (r': Repo)
    requires Tracks(t, r) && t.up == Parents(proto, c) && t.at(n).Some?
    ensures r' == Backfill(proto, c, r, n, slot)
    ensures Tracks(t, r') && Extends(r.lineage, r'.lineage)
    ensures Unrecorded(t, r.lineage, n) < MAX_DEPTH && LinkedBut(t, r, {n}) ==> Linked(t, r')
  {
    r' := Backfill(proto, c, r, n, slot);
    WalkEnds(t, r.lineage, n, 0);
    var walk := WalkUp(t.up, r.lineage, n, 0);
    if walk.Some? {
      var written := WritingTracks(t, r, n, walk.value, slot);
      if LinkedBut(t, r, {n}) {
        WritingLinks(t, r, n, walk.value, slot, {n});
        assert {n} - {n} == {};
      }
    }
  }

  lemma {:induction false} UpsertTracks(t: Truth, r: Repo, o: Order)
    requires Tracks(t, r) && t.at(o.ref).Some? && Terms(o) == t.at(o.ref).value && o.ref !in t.fate
    requires o.parent == None && o.root == None
    ensures Tracks(t, r.Upsert(o)) && r.Upsert(o).lineage == r.lineage
    ensures Linked(t, r) ==> LinkedBut(t, r.Upsert(o), {o.ref})
    ensures Linked(t, r) && o.ref in r.orders ==> Linked(t, r.Upsert(o))
  {
    UpsertKeeps(r, o);
    UpsertShowsLineage(r, o);
    UpsertRecords(t, r, o);
    forall n | n in r.lineage ensures !r.Upsert(o).IsOpen(r.lineage[n].parent) {
      assert RowTrue(t, n, r.lineage[n]) && FillFate(t, n);
    }
  }

  lemma {:induction false} LiveIsUnfated(proto: Protocol, w: World, ref: OutRef)
    requires Sound(proto, w) && LiveOrderAt(proto, w.chain, ref).Some?
    ensures ref !in w.fate && OrderAt(proto, w.chain, ref) == LiveOrderAt(proto, w.chain, ref)
    ensures LiveOrderAt(proto, w.chain, ref).value.ref == ref && Bare(LiveOrderAt(proto, w.chain, ref).value)
  {
  }

  /** Caching a live order, with its ancestry if it was never cached before. */
  lemma {:induction false} CacheTracks(t: Truth, faced: iset<OutRef>, proto: Protocol, c: Chain, r: Repo, o: Order, slot: int) returns (r': Repo)
    requires Tracks(t, r) && t.up == Parents(proto, c)
    requires t.at(o.ref).Some? && Terms(o) == t.at(o.ref).value && o.ref !in t.fate
    requires o.parent == None && o.root == None && o.ref in faced
    ensures r' == if o.ref in r.orders then r.Upsert(o) else Backfill(proto, c, r.Upsert(o), o.ref, slot)
    ensures Kept(t, faced, r, r')
  {
    UpsertTracks(t, r, o);
    r' := r.Upsert(o);
    if o.ref !in r.orders {
      r' := BackfillTracks(t, proto, c, r.Upsert(o), o.ref, slot);
    }
  }

  /** What step 1 does to the cache on one candidate. */
  lemma {:induction false} DiscoverCaches(proto: Protocol, s: Snapshot, confirmations: int, st: Sync, u: Utxo)
    requires Shown(s, u)
    ensures var r, r', ref := st.repo, Discover(proto, s, confirmations, st, u).repo, u.ref;
      || r' == r
      || (&& LiveOrderAt(proto, s.chain, ref).Some? && ref in Faced(proto, s, confirmations)
          && var o := LiveOrderAt(proto, s.chain, ref).value.(createdAtSlot := Some(s.tip.slot));
             r' == if ref in r.orders then r.Upsert(o) else Backfill(proto, s.chain, r.Upsert(o), ref, s.tip.slot))
  {
  }

  lemma {:induction false} DiscoverTracks(proto: Protocol, w: World, s: Snapshot, confirmations: int, st: Sync, u: Utxo)
    requires Sound(proto, w) && s.chain == w.chain && Tracks(TruthOf(proto, w), st.repo) && Shown(s, u)
    ensures Kept(TruthOf(proto, w), Faced(proto, s, confirmations), st.repo, Discover(proto, s, confirmations, st, u).repo)
  {
    var t, ref := TruthOf(proto, w), u.ref;
    KeptItself(t, Faced(proto, s, confirmations), st.repo);
    DiscoverCaches(proto, s, confirmations, st, u);
    if ref in Faced(proto, s, confirmations) {
      LiveIsUnfated(proto, w, ref);
      var o := LiveOrderAt(proto, w.chain, ref).value.(createdAtSlot := Some(s.tip.slot));
      var r' := CacheTracks(t, Faced(proto, s, confirmations), proto, w.chain, st.repo, o, s.tip.slot);
    }
  }

  lemma {:induction false} ListingTracks(proto: Protocol, w: World, s: Snapshot, confirmations: int, st: Sync, utxos: seq<Utxo>)
    requires Sound(proto, w) && s.chain == w.chain && Tracks(TruthOf(proto, w), st.repo) && AllShown(s, utxos)
    ensures Kept(TruthOf(proto, w), Faced(proto, s, confirmations), st.repo, DiscoverListing(proto, s, confirmations, st, utxos).repo)
  {
    var t := TruthOf(proto, w);
    if utxos == [] {
      KeptItself(t, Faced(proto, s, confirmations), st.repo);
    } else {
      var init, last := utxos[..|utxos| - 1], utxos[|utxos| - 1];
      ListingTracks(proto, w, s, confirmations, st, init);
      var before := DiscoverListing(proto, s, confirmations, st, init);
      assert Shown(s, last);
      DiscoverTracks(proto, w, s, confirmations, before, last);
      KeptTwice(t, Faced(proto, s, confirmations), st.repo, before.repo, DiscoverListing(proto, s, confirmations, st, utxos).repo);
    }
  }

  lemma {:induction false} DiscoveryTracks(proto: Protocol, w: World, s: Snapshot, confirmations: int, st: Sync, holders: seq<Address>)
    requires Sound(proto, w) && s.chain == w.chain && Consistent(proto, s) && Tracks(TruthOf(proto, w), st.repo)
    requires forall i | 0 <= i < |holders| :: holders[i] in s.holders
    ensures Kept(TruthOf(proto, w), Faced(proto, s, confirmations), st.repo, DiscoverAll(proto, s, confirmations, st, holders).repo)
  {
    var t := TruthOf(proto, w);
    if holders == [] {
      KeptItself(t, Faced(proto, s, confirmations), st.repo);
    } else {
      var init, last := holders[..|holders| - 1], holders[|holders| - 1];
      DiscoveryTracks(proto, w, s, confirmations, st, init);
      var before := DiscoverAll(proto, s, confirmations, st, init);
      ListingIsShown(proto, s, last);
      ListingTracks(proto, w, s, confirmations, before, ListingOf(s, last));
      KeptTwice(t, Faced(proto, s, confirmations), st.repo, before.repo, DiscoverAll(proto, s, confirmations, st, holders).repo);
    }
  }

  // --------------------------------------------------- the forward writer

  /** Marking a consumed order with its fate. */
  lemma {:induction false} MarkTracks(t: Truth, r: Repo, id: OutRef)
    requires Tracks(t, r) && id in t.fate
    ensures Tracks(t, r.MarkSpent(id, t.fate[id].status, t.fate[id].txHash))
    ensures r.MarkSpent(id, t.fate[id].status, t.fate[id].txHash).lineage == r.lineage
    ensures r.MarkSpent(id, t.fate[id].status, t.fate[id].txHash).orders.Keys == r.orders.Keys
    ensures !r.MarkSpent(id, t.fate[id].status, t.fate[id].txHash).IsOpen(id)
  {
    assert ChildFate(t, id);
    MarkSpentKeeps(r, id, t.fate[id].status, t.fate[id].txHash);
    MarkSpentShowsLineage(r, id, t.fate[id].status, t.fate[id].txHash);
    MarkRecords(t, r, id);
  }

  /**
   * The forward writer links a continuation whose row is not there yet: had the other
   * writer written it, it would have closed the parent.
   */
  lemma {:induction false} ForwardRow(t: Truth, r: Repo, id: OutRef, child: OutRef)
    requires Tracks(t, r) && r.IsOpen(id) && id in t.fate && t.fate[id].child == Some(child)
    ensures child !in r.lineage && t.up(child).Some? && t.up(child).value.ref == id
  {
    assert ChildFate(t, id);
    assert child in r.lineage ==> RowTrue(t, child, r.lineage[child]);
  }

  lemma {:induction false} ForwardRoot(t: Truth, r: Repo, id: OutRef, child: OutRef, root: OutRef)
    requires Tracks(t, r) && t.up(child).Some? && t.up(child).value.ref == id
    requires root == if id in r.lineage then r.lineage[id].root else id
    ensures RowTrue(t, child, Lineage(id, root))
    ensures Linked(t, r) && id in r.orders ==> root == Origin(t, child)
  {
    if id in r.lineage {
      assert RowTrue(t, id, r.lineage[id]);
    }
    if Linked(t, r) && id in r.orders {
      assert OrderLinked(t, r, id);
    }
  }

  lemma {:induction false} SetRowTracks(t: Truth, r: Repo, id: OutRef, child: OutRef, root: OutRef)
    requires Tracks(t, r) && child !in r.lineage && id in r.orders && !r.IsOpen(id) && RowTrue(t, child, Lineage(id, root))
    ensures Tracks(t, r.SetLineage(child, id, root)) && Extends(r.lineage, r.SetLineage(child, id, root).lineage)
    ensures Linked(t, r) && root == Origin(t, child) ==> Linked(t, r.SetLineage(child, id, root))
  {
    SetLineageKeeps(r, child, id, root);
    SetLineageShowsLineage(r, child, id, root);
    LinkRecords(t, r, child, id, root);
    SetRowParents(r, id, child, root);
    OneRowMore(t, r.lineage, child, Lineage(id, root));
  }

  lemma {:induction false} SetRowParents(r: Repo, id: OutRef, child: OutRef, root: OutRef)
    requires r.Valid() && ParentsClosed(r) && ParentsCached(r) && id in r.orders && !r.IsOpen(id)
    ensures ParentsClosed(r.SetLineage(child, id, root)) && ParentsCached(r.SetLineage(child, id, root))
  {
    SetLineageKeeps(r, child, id, root);
  }

  lemma {:induction false} OneRowMore(t: Truth, lineage: map<OutRef, Lineage>, child: OutRef, row: Lineage)
    requires Descends(t) && RowsTrue(t, lineage) && child !in lineage && RowTrue(t, child, row)
    ensures RowsTrue(t, lineage[child := row]) && Extends(lineage, lineage[child := row])
    ensures RootsAreOrigins(t, lineage) && row.root == Origin(t, child) ==> RootsAreOrigins(t, lineage[child := row])
  {
  }

  /** Retiring an open order that is not live any more. */
  lemma {:induction false} RetireTracks(t: Truth, faced: iset<OutRef>, proto: Protocol, s: Snapshot, st: Sync, id: OutRef)
    requires Tracks(t, st.repo) && st.repo.IsOpen(id) && id !in st.seen
    requires forall ref | LiveValid(proto, s, ref) :: ref in st.seen
    requires id in t.fate && t.fate[id] == ClassifySpend(proto, s.chain, id)
    ensures Kept(t, faced, st.repo, Retire(proto, s, st, id).repo)
  {
    var spend, root := RetireMarks(proto, s, st, id);
    assert st.repo.orders[id].ref == id;
    MarkTracks(t, st.repo, id);
    var marked := st.repo.MarkSpent(id, spend.status, spend.txHash);
    if spend.status == PartiallyFilled && spend.child.Some? {
      ForwardRow(t, st.repo, id, spend.child.value);
      ForwardRoot(t, marked, id, spend.child.value, root);
      SetRowTracks(t, marked, id, spend.child.value, root);
    }
  }

  /** A cached order that is not live any more has a fate, and it is what the indexer reads. */
  lemma {:induction false} VanishedHasFate(proto: Protocol, w: World, id: OutRef)
    requires Sound(proto, w) && OrderAt(proto, w.chain, id).Some? && LiveOrderAt(proto, w.chain, id).None?
    ensures id in w.fate && w.fate[id] == ClassifySpend(proto, w.chain, id)
  {
  }

  ghost predicate AllSeen(proto: Protocol, s: Snapshot, seen: set<OutRef>) {
    forall ref | LiveValid(proto, s, ref) :: ref in seen
  }

  lemma {:induction false} RetireOneTracks(proto: Protocol, w: World, faced: iset<OutRef>, s: Snapshot, st: Sync, id: OutRef)
    requires Sound(proto, w) && s.chain == w.chain && Tracks(TruthOf(proto, w), st.repo)
    requires AllSeen(proto, s, st.seen) && st.repo.IsOpen(id)
    ensures Kept(TruthOf(proto, w), faced, st.repo, Retire(proto, s, st, id).repo)
  {
    var t := TruthOf(proto, w);
    if id in st.seen {
      KeptItself(t, faced, st.repo);
    } else {
      assert RecordTrue(t, id, st.repo.orders[id]);
      assert LiveValid(proto, s, id) ==> id in st.seen;
      VanishedHasFate(proto, w, id);
      RetireTracks(t, faced, proto, s, st, id);
    }
  }

  lemma {:induction false} StillOpen(proto: Protocol, s: Snapshot, found: Sync, init: seq<OutRef>, id: OutRef)
    requires found.repo.Valid() && AllSeen(proto, s, found.seen)
    requires found.repo.IsOpen(id) && id !in init
    ensures var st := RetireAll(proto, s, found, init); st.repo.IsOpen(id) && st.seen == found.seen
  {
    RetireAllCloses(proto, s, found, init);
  }

  /** Open orders, each listed once. */
  ghost predicate Retirable(r: Repo, ids: seq<OutRef>) {
    && (forall i | 0 <= i < |ids| :: r.IsOpen(ids[i]))
    && (forall i, j | 0 <= i < j < |ids| :: ids[i] != ids[j])
  }

  lemma {:induction false} RetirableInit(r: Repo, ids: seq<OutRef>)
    requires Retirable(r, ids) && ids != []
    ensures Retirable(r, ids[..|ids| - 1])
    ensures r.IsOpen(ids[|ids| - 1]) && ids[|ids| - 1] !in ids[..|ids| - 1]
  {
  }

  lemma {:induction false} RetireAllTracks(proto: Protocol, w: World, faced: iset<OutRef>, s: Snapshot, found: Sync, ids: seq<OutRef>)
    requires Sound(proto, w) && s.chain == w.chain && Tracks(TruthOf(proto, w), found.repo)
    requires AllSeen(proto, s, found.seen) && Retirable(found.repo, ids)
    ensures Kept(TruthOf(proto, w), faced, found.repo, RetireAll(proto, s, found, ids).repo)
  {
    var t := TruthOf(proto, w);
    if ids == [] {
      KeptItself(t, faced, found.repo);
    } else {
      RetirableInit(found.repo, ids);
      var init, last := ids[..|ids| - 1], ids[|ids| - 1];
      RetireAllTracks(proto, w, faced, s, found, init);
      var before := RetireAll(proto, s, found, init);
      StillOpen(proto, s, found, init, last);
      RetireOneTracks(proto, w, faced, s, before, last);
      KeptTwice(t, faced, found.repo, before.repo, RetireAll(proto, s, found, ids).repo);
    }
  }

  lemma {:induction false} CursorTracks(t: Truth, faced: iset<OutRef>, r: Repo, r': Repo, slot: int)
    requires Kept(t, faced, r, r') && Coherent(t)
    ensures Kept(t, faced, r, r'.(cursor := slot))
  {
  }

  /** A whole pass. */
  lemma {:induction false} SyncTracks(proto: Protocol, w: World, s: Snapshot, confirmations: int, r: Repo)
    requires Sound(proto, w) && s.chain == w.chain && Consistent(proto, s) && Tracks(TruthOf(proto, w), r)
    ensures Kept(TruthOf(proto, w), Faced(proto, s, confirmations), r, SyncPass(proto, s, confirmations, r).repo)
  {
    var t := TruthOf(proto, w);
    var found := DiscoverAll(proto, s, confirmations, Sync(r, {}, 0, 0), s.holders);
    DiscoveryTracks(proto, w, s, confirmations, Sync(r, {}, 0, 0), s.holders);
    SyncKeepsValid(proto, s, confirmations, r);
    RetireFound(proto, w, Faced(proto, s, confirmations), s, found);
    var ids := found.repo.OpenIds();
    KeptTwice(t, Faced(proto, s, confirmations), r, found.repo, RetireAll(proto, s, found, ids).repo);
    CursorTracks(t, Faced(proto, s, confirmations), r, RetireAll(proto, s, found, ids).repo, s.tip.slot);
  }

  lemma {:induction false} RetireFound(proto: Protocol, w: World, faced: iset<OutRef>, s: Snapshot, found: Sync)
    requires Sound(proto, w) && s.chain == w.chain && Tracks(TruthOf(proto, w), found.repo)
    requires AllSeen(proto, s, found.seen)
    ensures Kept(TruthOf(proto, w), faced, found.repo, RetireAll(proto, s, found, found.repo.OpenIds()).repo)
  {
    var ids := found.repo.OpenIds();
    forall i | 0 <= i < |ids| ensures found.repo.IsOpen(ids[i]) {
      OpenIdsAreOpen(found.repo, ids[i]);
    }
    FilterOnce(found.repo, found.repo.keys);
    RetireAllTracks(proto, w, faced, s, found, ids);
  }

  // --------------------------------------------------------------- repair

  lemma {:induction false} RepairOneTracks(proto: Protocol, w: World, s: Snapshot, st: Repair, id: OutRef)
    requires Sound(proto, w) && s.chain == w.chain && Tracks(TruthOf(proto, w), st.repo)
    ensures Kept(TruthOf(proto, w), iset{}, st.repo, RepairOne(proto, s, st, id).repo)
  {
    var t := TruthOf(proto, w);
    KeptItself(t, iset{}, st.repo);
    if id in st.repo.orders {
      assert RecordTrue(t, id, st.repo.orders[id]) && st.repo.orders[id].ref == id;
      BackfillKeeps(t, proto, w.chain, st.repo, id, s.tip.slot);
    }
  }

  /** A reconstruction for an order already cached: a complete cache has nothing to gain from it. */
  lemma {:induction false} BackfillKeeps(t: Truth, proto: Protocol, c: Chain, r: Repo, id: OutRef, slot: int)
    requires Tracks(t, r) && t.up == Parents(proto, c) && t.at(id).Some? && id in r.orders
    ensures Kept(t, iset{}, r, Backfill(proto, c, r, id, slot))
  {
    var r' := BackfillTracks(t, proto, c, r, id, slot);
    if Linked(t, r) {
      assert OrderLinked(t, r, id);
      if id in r.lineage {
        assert r' == r by { LinkedNeedsNothing(t, proto, c, r, id, slot); }
      } else {
        assert Unrecorded(t, r.lineage, id) == 0 && LinkedBut(t, r, {id});
      }
    }
  }

  lemma {:induction false} LinkedNeedsNothing(t: Truth, proto: Protocol, c: Chain, r: Repo, id: OutRef, slot: int)
    requires id in r.lineage
    ensures Backfill(proto, c, r, id, slot) == r
  {
  }

  lemma {:induction false} RepairTracks(proto: Protocol, w: World, s: Snapshot, st: Repair, ids: seq<OutRef>)
    requires Sound(proto, w) && s.chain == w.chain && Tracks(TruthOf(proto, w), st.repo)
    ensures Kept(TruthOf(proto, w), iset{}, st.repo, RepairAll(proto, s, st, ids).repo)
  {
    var t := TruthOf(proto, w);
    if ids == [] {
      KeptItself(t, iset{}, st.repo);
    } else {
      var init, last := ids[..|ids| - 1], ids[|ids| - 1];
      RepairTracks(proto, w, s, st, init);
      var before := RepairAll(proto, s, st, init);
      RepairOneTracks(proto, w, s, before, last);
      KeptTwice(t, iset{}, st.repo, before.repo, RepairAll(proto, s, st, ids).repo);
    }
  }

  // ------------------------------------------------------ a growing chain

  /** What was true of an order stays true of it. */
  ghost predicate Grown(t: Truth, t': Truth) {
    && (forall n: OutRef | t.at(n).Some? || t.up(n).Some? :: t'.up(n) == t.up(n))
    && (forall n: OutRef | t.at(n).Some? :: t'.at(n) == t.at(n))
    && (forall p | p in t.fate :: p in t'.fate && t'.fate[p] == t.fate[p])
  }

  lemma {:induction false} LaterIsGrown(proto: Protocol, w: World, w': World)
    requires Sound(proto, w) && Later(w, w')
    ensures Grown(TruthOf(proto, w), TruthOf(proto, w'))
  {
    var t, t' := TruthOf(proto, w), TruthOf(proto, w');
    forall n: OutRef | t.at(n).Some? || t.up(n).Some? ensures t'.up(n) == t.up(n) {
      ParentStays(proto, w.chain, w'.chain, n);
    }
    forall n: OutRef | t.at(n).Some? ensures t'.at(n) == t.at(n) {
      OrderStays(proto, w.chain, w'.chain, n);
    }
  }

  lemma {:induction false} AncestryStays(t: Truth, t': Truth, n: OutRef, a: OutRef)
    requires Coherent(t) && Coherent(t') && Grown(t, t') && (t.at(n).Some? || t.up(n).Some?)
    ensures Origin(t', n) == Origin(t, n)
    ensures Above(t, a, n) ==> Above(t', a, n)
    decreases t.rank(n)
  {
    if t.up(n).Some? {
      assert FillFate(t, n);
      AncestryStays(t, t', t.up(n).value.ref, a);
    }
  }

  lemma {:induction false} RowsStay(t: Truth, t': Truth, lineage: map<OutRef, Lineage>)
    requires Coherent(t) && Coherent(t') && Grown(t, t') && RowsTrue(t, lineage)
    ensures RowsTrue(t', lineage)
    ensures RootsAreOrigins(t, lineage) ==> RootsAreOrigins(t', lineage)
  {
    forall n | n in lineage ensures RowTrue(t', n, lineage[n]) && Origin(t', n) == Origin(t, n) {
      assert RowTrue(t, n, lineage[n]);
      AncestryStays(t, t', n, lineage[n].root);
    }
  }

  /** A cache that told the truth still does after the chain has grown. */
  lemma {:induction false} GrowthTracks(t: Truth, t': Truth, r: Repo)
    requires Coherent(t') && Grown(t, t') && Tracks(t, r)
    ensures Tracks(t', r) && (Linked(t, r) ==> Linked(t', r))
  {
    RowsStay(t, t', r.lineage);
    forall id | id in r.orders ensures RecordTrue(t', id, r.orders[id]) && t'.up(id) == t.up(id) {
      assert RecordTrue(t, id, r.orders[id]);
    }
    if Linked(t, r) {
      forall id | id in r.orders ensures OrderLinked(t', r, id) {
        assert OrderLinked(t, r, id);
      }
    }
  }
}
