/**
 * What one sync pass leaves open in the cache, for any prior cache contents, any
 * consistent snapshot and any order of the provider's listings.
 */
module SyncProofs {
  import opened Wrappers
  import opened Sequences
  import opened Beacons
  import opened Orders
  import opened Ledger
  import opened ChainModel
  import opened OrdersRepo
  import opened Indexer

  /** An unspent, valid protocol order. */
  predicate LiveValid(proto: Protocol, s: Snapshot, ref: OutRef) {
    LiveOrderAt(proto, s.chain, ref).Some?
  }

  predicate Confirmed(s: Snapshot, confirmations: int, ref: OutRef) {
    Confirmations(s, ref.txHash).Some? && Confirmations(s, ref.txHash).value >= confirmations
  }

  /** A transaction in the tip's block is confirmed once, and once more by every later block; one above the tip not at all. */
  lemma {:induction false} EachBlockConfirms(s: Snapshot, txHash: string, blocks: nat)
    requires txHash in s.chain.txs
    ensures var height := s.chain.txs[txHash].height;
      && Confirmations(s.(tip := Tip(s.tip.slot, height + blocks)), txHash) == Some(1 + blocks)
      && (blocks > 0 ==> Confirmations(s.(tip := Tip(s.tip.slot, height - blocks)), txHash) == Some(0))
  {
  }

  // ------------------------------------------------------------ backfill

  lemma {:induction false} ParentIsSpent(proto: Protocol, c: Chain, node: OutRef)
    requires c.SpendsRecorded() && ParentOrder(proto, c, node).Some?
    ensures ParentOrder(proto, c, node).value.ref in c.spentBy
  {
    var tx := c.txs[node.txHash];
    var partials := PartialInputs(proto, tx);
    var rank := IndexIn(BeaconOutputs(proto, tx.outputs), node.index).value;
    assert tx.inputs[partials[rank]] in c.spentBy;
  }

  ghost predicate ParentsSpent(c: Chain, links: seq<Link>) {
    forall i | 0 <= i < |links| :: links[i].parent.ref in c.spentBy
  }

  /** Every step up leads to a consumed output. */
  ghost predicate LeadsToSpent(c: Chain, up: OutRef -> Option<Order>) {
    forall node :: up(node).Some? ==> up(node).value.ref in c.spentBy
  }

  lemma {:induction false} ParentsLeadToSpent(proto: Protocol, c: Chain)
    requires c.SpendsRecorded()
    ensures LeadsToSpent(c, Parents(proto, c))
  {
    forall node | Parents(proto, c)(node).Some? ensures Parents(proto, c)(node).value.ref in c.spentBy {
      ParentIsSpent(proto, c, node);
    }
  }

  lemma {:induction false} WalkParentsSpent(c: Chain, up: OutRef -> Option<Order>, lineage: map<OutRef, Lineage>,
                                            node: OutRef, depth: nat, walk: Walk)
    requires LeadsToSpent(c, up) && depth <= MAX_DEPTH
    requires WalkUp(up, lineage, node, depth) == Some(walk)
    ensures ParentsSpent(c, walk.links)
    decreases MAX_DEPTH - depth
  {
    if node !in lineage && up(node).Some? {
      var parent := up(node).value;
      WalkParentsSpent(c, up, lineage, parent.ref, depth + 1, WalkUp(up, lineage, parent.ref, depth + 1).value);
    }
  }

  /** A written link caches its parent closed; nothing else is opened, closed or forgotten. */
  lemma {:induction false} LinkKeys(r: Repo, link: Link, root: OutRef, slot: int)
    requires r.Valid()
    ensures WriteLink(r, link, root, slot).Valid()
    ensures forall id :: WriteLink(r, link, root, slot).IsOpen(id) <==> r.IsOpen(id) && id != link.parent.ref
    ensures WriteLink(r, link, root, slot).orders.Keys == r.orders.Keys + {link.parent.ref}
  {
    var parent, spent := link.parent.(createdAtSlot := Some(slot)), Some(link.child.txHash);
    UpsertKeeps(r, parent);
    MarkSpentKeeps(r.Upsert(parent), link.parent.ref, PartiallyFilled, spent);
    SetLineageKeeps(r.Upsert(parent).MarkSpent(link.parent.ref, PartiallyFilled, spent),
      link.child, link.parent.ref, root);
  }

  lemma {:induction false} WriteLinksCloses(c: Chain, r: Repo, links: seq<Link>, root: OutRef, slot: int)
    requires r.Valid() && ParentsSpent(c, links)
    ensures WriteLinks(r, links, root, slot).Valid()
    ensures forall id | id !in c.spentBy :: WriteLinks(r, links, root, slot).IsOpen(id) <==> r.IsOpen(id)
    ensures forall id :: WriteLinks(r, links, root, slot).IsOpen(id) ==> r.IsOpen(id)
  {
    if links != [] {
      assert ParentsSpent(c, links[1..]);
      WriteLinksCloses(c, r, links[1..], root, slot);
      LinkKeys(WriteLinks(r, links[1..], root, slot), links[0], root, slot);
    }
  }

  /** Reconstructing ancestry opens nothing and closes only spent orders. */
  lemma {:induction false} BackfillCloses(proto: Protocol, c: Chain, r: Repo, node: OutRef, slot: int)
    requires c.SpendsRecorded() && r.Valid()
    ensures Backfill(proto, c, r, node, slot).Valid()
    ensures forall id | id !in c.spentBy :: Backfill(proto, c, r, node, slot).IsOpen(id) <==> r.IsOpen(id)
    ensures forall id :: Backfill(proto, c, r, node, slot).IsOpen(id) ==> r.IsOpen(id)
  {
    var walk := WalkUp(Parents(proto, c), r.lineage, node, 0);
    if walk.Some? {
      ParentsLeadToSpent(proto, c);
      WalkParentsSpent(c, Parents(proto, c), r.lineage, node, 0, walk.value);
      WriteLinksCloses(c, r, walk.value.links, walk.value.root, slot);
    }
  }

  // -------------------------------------------------------------- step 1

  /** Where step 1 stands after the references done have been looked at. */
  ghost predicate Found(proto: Protocol, s: Snapshot, confirmations: int, r: Repo, st: Sync, done: set<OutRef>) {
    && st.repo.Valid()
    && (forall id :: id in st.seen <==> id in done && LiveValid(proto, s, id))
    && (forall id :: st.repo.IsOpen(id) ==>
          r.IsOpen(id) || (id in done && LiveValid(proto, s, id) && Confirmed(s, confirmations, id)))
    && (forall id | LiveValid(proto, s, id) ::
          r.IsOpen(id) || (id in done && Confirmed(s, confirmations, id)) ==> st.repo.IsOpen(id))
  }

  lemma {:induction false} LiveIsUnspent(proto: Protocol, s: Snapshot, ref: OutRef)
    requires LiveValid(proto, s, ref)
    ensures ref !in s.chain.spentBy && LiveOrderAt(proto, s.chain, ref).value.ref == ref
    ensures HasOrderBeacon(proto, s.chain.UnspentAt(ref).value)
  {
    var out := s.chain.UnspentAt(ref).value;
    var names := LiveOrderAt(proto, s.chain, ref).value.names;
    assert names.Values()[0] == Literal(ORDER_BEACON_NAME_HEX);
    assert QuantityOf(out.amount, BeaconUnit(proto, names.Values()[0])) == 1;
    EntryWithQuantity(out.amount, BeaconUnit(proto, Literal(ORDER_BEACON_NAME_HEX)));
  }

  lemma {:induction false} EntryWithQuantity(amount: seq<Asset>, u: Unit)
    requires QuantityOf(amount, u) > 0
    ensures exists i | 0 <= i < |amount| :: amount[i].unit == u && amount[i].quantity > 0
  {
    if amount[0].unit != u {
      EntryWithQuantity(amount[1..], u);
      var i :| 0 <= i < |amount[1..]| && amount[1..][i].unit == u && amount[1..][i].quantity > 0;
      assert amount[i + 1].unit == u;
    }
  }

  /** Caching one confirmed candidate opens it and closes no live order. */
  lemma {:induction false} CacheOpens(proto: Protocol, s: Snapshot, r: Repo, order: Order)
    returns (repo: Repo)
    requires s.chain.SpendsRecorded() && r.Valid() && order.ref !in s.chain.spentBy
    ensures repo == (if order.ref in r.orders then r.Upsert(order)
                     else Backfill(proto, s.chain, r.Upsert(order), order.ref, s.tip.slot))
    ensures repo.Valid() && repo.IsOpen(order.ref)
    ensures forall id :: repo.IsOpen(id) ==> r.IsOpen(id) || id == order.ref
    ensures forall id | id !in s.chain.spentBy :: r.IsOpen(id) ==> repo.IsOpen(id)
  {
    repo := r.Upsert(order);
    UpsertKeeps(r, order);
    if order.ref !in r.orders {
      BackfillCloses(proto, s.chain, repo, order.ref, s.tip.slot);
      repo := Backfill(proto, s.chain, repo, order.ref, s.tip.slot);
    }
  }

  lemma {:induction false} LiveAreUnspent(proto: Protocol, s: Snapshot)
    ensures forall id | LiveValid(proto, s, id) :: id !in s.chain.spentBy
  {
    forall id | LiveValid(proto, s, id) ensures id !in s.chain.spentBy {
      LiveIsUnspent(proto, s, id);
    }
  }

  /** Caching ref moves the repository one step on; everything else is as it was. */
  lemma {:induction false} CachedIsFound(proto: Protocol, s: Snapshot, confirmations: int, r: Repo, st: Sync,
                                         done: set<OutRef>, ref: OutRef, repo: Repo, open: int)
    requires Found(proto, s, confirmations, r, st, done) && LiveValid(proto, s, ref) && Confirmed(s, confirmations, ref)
    requires repo.Valid() && repo.IsOpen(ref)
    requires forall id :: repo.IsOpen(id) ==> st.repo.IsOpen(id) || id == ref
    requires forall id | LiveValid(proto, s, id) :: st.repo.IsOpen(id) ==> repo.IsOpen(id)
    ensures Found(proto, s, confirmations, r, st.(repo := repo, seen := st.seen + {ref}, openCount := open), done + {ref})
  {
  }

  lemma {:induction false} SeenIsFound(proto: Protocol, s: Snapshot, confirmations: int, r: Repo, st: Sync,
                                       done: set<OutRef>, ref: OutRef, open: int)
    requires Found(proto, s, confirmations, r, st, done) && LiveValid(proto, s, ref)
    requires st.repo.IsOpen(ref) || !Confirmed(s, confirmations, ref)
    ensures Found(proto, s, confirmations, r, st.(seen := st.seen + {ref}, openCount := open), done + {ref})
  {
  }

  /** The listing shows the output as it stands on the chain. */
  ghost predicate Shown(s: Snapshot, u: Utxo) {
    s.chain.UnspentAt(u.ref) == Some(u.output)
  }

  ghost predicate AllShown(s: Snapshot, utxos: seq<Utxo>) {
    forall i | 0 <= i < |utxos| :: Shown(s, utxos[i])
  }

  lemma {:induction false} DiscoverFinds(proto: Protocol, s: Snapshot, confirmations: int, r: Repo, st: Sync,
                                         done: set<OutRef>, u: Utxo)
    requires s.chain.SpendsRecorded() && Found(proto, s, confirmations, r, st, done) && Shown(s, u)
    ensures Found(proto, s, confirmations, r, Discover(proto, s, confirmations, st, u), done + {u.ref})
  {
    var st', ref := Discover(proto, s, confirmations, st, u), u.ref;
    if LiveValid(proto, s, ref) {
      if !st.repo.IsOpen(ref) && Confirmed(s, confirmations, ref) {
        LiveIsUnspent(proto, s, ref);
        LiveAreUnspent(proto, s);
        var order := LiveOrderAt(proto, s.chain, ref).value.(createdAtSlot := Some(s.tip.slot));
        var repo := CacheOpens(proto, s, st.repo, order);
        CachedIsFound(proto, s, confirmations, r, st, done, ref, repo, st.openCount + 1);
      } else {
        SeenIsFound(proto, s, confirmations, r, st, done, ref, st'.openCount);
      }
    }
  }

  ghost function RefsOf(utxos: seq<Utxo>): set<OutRef> {
    set u | u in utxos :: u.ref
  }

  lemma {:induction false} RefsOfSnoc(init: seq<Utxo>, last: Utxo)
    ensures RefsOf(init + [last]) == RefsOf(init) + {last.ref}
  {
    assert forall u :: u in init + [last] <==> u in init || u == last;
  }

  lemma {:induction false} ListingFinds(proto: Protocol, s: Snapshot, confirmations: int, r: Repo, st: Sync,
                                        done: set<OutRef>, utxos: seq<Utxo>)
    requires s.chain.SpendsRecorded() && Found(proto, s, confirmations, r, st, done) && AllShown(s, utxos)
    ensures Found(proto, s, confirmations, r, DiscoverListing(proto, s, confirmations, st, utxos), done + RefsOf(utxos))
  {
    if utxos == [] {
      assert done + RefsOf(utxos) == done;
    } else {
      var init, last := utxos[..|utxos| - 1], utxos[|utxos| - 1];
      ListingFinds(proto, s, confirmations, r, st, done, init);
      assert Shown(s, last);
      DiscoverFinds(proto, s, confirmations, r, DiscoverListing(proto, s, confirmations, st, init),
        done + RefsOf(init), last);
      RefsOfSnoc(init, last);
      assert utxos == init + [last];
      assert done + RefsOf(init) + {last.ref} == done + RefsOf(utxos);
    }
  }

  ghost function ListedFor(s: Snapshot, holders: seq<Address>): set<OutRef> {
    set h, u | h in holders && u in ListingOf(s, h) :: u.ref
  }

  /** A consistent snapshot lists every output as it stands. */
  lemma {:induction false} ListingIsShown(proto: Protocol, s: Snapshot, h: Address)
    requires Consistent(proto, s) && h in s.holders
    ensures AllShown(s, ListingOf(s, h))
  {
    var utxos := ListingOf(s, h);
    forall i | 0 <= i < |utxos| ensures Shown(s, utxos[i]) {
      assert utxos[i] in utxos && Listed(s, utxos[i]);
    }
  }

  /** Whether going through the first so many holders has found what those list. */
  ghost function FindsFirst(proto: Protocol, s: Snapshot, confirmations: int, r: Repo, holders: seq<Address>): nat -> bool {
    (k: nat) => k <= |holders| ==>
      Found(proto, s, confirmations, r,
        DiscoverAll(proto, s, confirmations, Sync(r, {}, 0, 0), holders[..k]), ListedFor(s, holders[..k]))
  }

  lemma {:induction false} NextHolderFinds(proto: Protocol, s: Snapshot, confirmations: int, r: Repo, holders: seq<Address>, k: nat)
    requires Consistent(proto, s) && k < |holders| && holders[k] in s.holders
    ensures CarriesOver(FindsFirst(proto, s, confirmations, r, holders), k)
  {
    var init, more := holders[..k], holders[..k + 1];
    assert more[..|more| - 1] == init && more == init + [holders[k]];
    if FindsFirst(proto, s, confirmations, r, holders)(k) {
      OneHolderMore(proto, s, confirmations, r, DiscoverAll(proto, s, confirmations, Sync(r, {}, 0, 0), init), init, holders[k]);
    }
  }

  lemma {:induction false} AllFinds(proto: Protocol, s: Snapshot, confirmations: int, r: Repo, holders: seq<Address>)
    requires Consistent(proto, s) && r.Valid() && forall i | 0 <= i < |holders| :: holders[i] in s.holders
    ensures Found(proto, s, confirmations, r,
      DiscoverAll(proto, s, confirmations, Sync(r, {}, 0, 0), holders), ListedFor(s, holders))
  {
    var finds := FindsFirst(proto, s, confirmations, r, holders);
    forall k: nat | k < |holders| ensures CarriesOver(finds, k) {
      NextHolderFinds(proto, s, confirmations, r, holders, k);
    }
    Climb(finds, |holders|);
    assert holders[..|holders|] == holders;
  }

  lemma {:induction false} OneHolderMore(proto: Protocol, s: Snapshot, confirmations: int, r: Repo, st: Sync,
                                         init: seq<Address>, last: Address)
    requires Consistent(proto, s) && last in s.holders && Found(proto, s, confirmations, r, st, ListedFor(s, init))
    ensures Found(proto, s, confirmations, r,
      DiscoverListing(proto, s, confirmations, st, ListingOf(s, last)), ListedFor(s, init + [last]))
  {
    ListingIsShown(proto, s, last);
    ListingFinds(proto, s, confirmations, r, st, ListedFor(s, init), ListingOf(s, last));
    ListedSnoc(s, init, last);
  }

  lemma {:induction false} ListedSnoc(s: Snapshot, init: seq<Address>, last: Address)
    ensures ListedFor(s, init) + RefsOf(ListingOf(s, last)) == ListedFor(s, init + [last])
  {
    var a, b := ListedFor(s, init) + RefsOf(ListingOf(s, last)), ListedFor(s, init + [last]);
    forall ref | ref in a ensures ref in b {
      if ref in RefsOf(ListingOf(s, last)) {
        var u :| u in ListingOf(s, last) && u.ref == ref;
        assert last in init + [last];
      } else {
        var h, u :| h in init && u in ListingOf(s, h) && u.ref == ref;
        assert h in init + [last];
      }
    }
    forall ref | ref in b ensures ref in a {
      var h, u :| h in init + [last] && u in ListingOf(s, h) && u.ref == ref;
      assert h in init || h == last;
    }
  }

  lemma {:induction false} LiveIsListed(proto: Protocol, s: Snapshot, ref: OutRef)
    requires Consistent(proto, s) && LiveValid(proto, s, ref)
    ensures ref in ListedFor(s, s.holders)
  {
    LiveIsUnspent(proto, s, ref);
    var u := Utxo(ref, s.chain.UnspentAt(ref).value);
    assert Listed(s, u);
    var h :| h in s.holders && u in ListingOf(s, h);
  }

  // -------------------------------------------------------------- step 2

  /** Where step 2 stands: everything done and not seen is closed, nothing else moved. */
  ghost predicate Retired(found: Sync, st: Sync, done: set<OutRef>) {
    && st.repo.Valid() && st.seen == found.seen
    && forall id :: st.repo.IsOpen(id) <==> found.repo.IsOpen(id) && (id in found.seen || id !in done)
  }

  /** With every live order seen, there is never a continuation left to surface. */
  lemma {:induction false} NothingToSurface(proto: Protocol, s: Snapshot, st: Sync, child: OutRef)
    requires forall ref | LiveValid(proto, s, ref) :: ref in st.seen
    ensures Surface(proto, s, st, child) == st
  {
    assert LiveValid(proto, s, child) ==> child in st.seen;
  }

  /** Retiring a vanished order marks it with its spend, links a continuation, and surfaces nothing. */
  lemma {:induction false} RetireMarks(proto: Protocol, s: Snapshot, st: Sync, id: OutRef) returns (spend: Spend, root: OutRef)
    requires forall ref | LiveValid(proto, s, ref) :: ref in st.seen
    requires id !in st.seen && id in st.repo.orders
    ensures spend == ClassifySpend(proto, s.chain, st.repo.orders[id].ref) && spend.status != Open
    ensures root == if id in st.repo.lineage then st.repo.lineage[id].root else id
    ensures Retire(proto, s, st, id) ==
      (var marked := st.repo.MarkSpent(id, spend.status, spend.txHash);
       st.(repo := if spend.status == PartiallyFilled && spend.child.Some?
                   then marked.SetLineage(spend.child.value, id, root) else marked,
           spentCount := st.spentCount + 1))
  {
    spend := ClassifySpend(proto, s.chain, st.repo.orders[id].ref);
    root := if id in st.repo.lineage then st.repo.lineage[id].root else id;
    if spend.status == PartiallyFilled && spend.child.Some? {
      var marked := st.repo.MarkSpent(id, spend.status, spend.txHash);
      NothingToSurface(proto, s, st.(repo := marked.SetLineage(spend.child.value, id, root)), spend.child.value);
    }
  }

  lemma {:induction false} RetireCloses(proto: Protocol, s: Snapshot, found: Sync, st: Sync, done: set<OutRef>, id: OutRef)
    requires Retired(found, st, done)
    requires forall ref | LiveValid(proto, s, ref) :: ref in found.seen
    ensures Retired(found, Retire(proto, s, st, id), done + {id})
  {
    if id !in st.seen && id in st.repo.orders {
      var spend, root := RetireMarks(proto, s, st, id);
      MarkSpentKeeps(st.repo, id, spend.status, spend.txHash);
      if spend.status == PartiallyFilled && spend.child.Some? {
        SetLineageKeeps(st.repo.MarkSpent(id, spend.status, spend.txHash), spend.child.value, id, root);
      }
    }
  }

  /** Whether going through the first so many ids has retired those. */
  ghost function RetiresFirst(proto: Protocol, s: Snapshot, found: Sync, ids: seq<OutRef>): nat -> bool {
    (k: nat) => k <= |ids| ==> Retired(found, RetireAll(proto, s, found, ids[..k]), Elements(ids[..k]))
  }

  lemma {:induction false} NextRetires(proto: Protocol, s: Snapshot, found: Sync, ids: seq<OutRef>, k: nat)
    requires k < |ids| && forall ref | LiveValid(proto, s, ref) :: ref in found.seen
    ensures CarriesOver(RetiresFirst(proto, s, found, ids), k)
  {
    var init, more := ids[..k], ids[..k + 1];
    assert more[..|more| - 1] == init && more == init + [ids[k]];
    if RetiresFirst(proto, s, found, ids)(k) {
      RetireCloses(proto, s, found, RetireAll(proto, s, found, init), Elements(init), ids[k]);
      ElementsSnoc(init, ids[k]);
    }
  }

  lemma {:induction false} RetireAllCloses(proto: Protocol, s: Snapshot, found: Sync, ids: seq<OutRef>)
    requires found.repo.Valid()
    requires forall ref | LiveValid(proto, s, ref) :: ref in found.seen
    ensures Retired(found, RetireAll(proto, s, found, ids), Elements(ids))
  {
    var retires := RetiresFirst(proto, s, found, ids);
    forall k: nat | k < |ids| ensures CarriesOver(retires, k) {
      NextRetires(proto, s, found, ids, k);
    }
    Climb(retires, |ids|);
    assert ids[..|ids|] == ids;
  }

  // ------------------------------------------------------------- results

  lemma {:induction false} SyncKeepsValid(proto: Protocol, s: Snapshot, confirmations: int, r: Repo)
    requires Consistent(proto, s) && r.Valid()
    ensures var found := DiscoverAll(proto, s, confirmations, Sync(r, {}, 0, 0), s.holders);
      && Found(proto, s, confirmations, r, found, ListedFor(s, s.holders))
      && (forall ref :: ref in found.seen <==> LiveValid(proto, s, ref))
      && Retired(found, RetireAll(proto, s, found, found.repo.OpenIds()), Elements(found.repo.OpenIds()))
    ensures SyncPass(proto, s, confirmations, r).repo.Valid()
  {
    AllFinds(proto, s, confirmations, r, s.holders);
    var found := DiscoverAll(proto, s, confirmations, Sync(r, {}, 0, 0), s.holders);
    forall ref | LiveValid(proto, s, ref) ensures ref in found.seen {
      LiveIsListed(proto, s, ref);
    }
    RetireAllCloses(proto, s, found, found.repo.OpenIds());
  }

  /**
   * After a pass an order is cached open exactly when it is live and valid, and was
   * open before or has enough confirmations now.
   */
  lemma {:induction false} SyncOpensExactly(proto: Protocol, s: Snapshot, confirmations: int, r: Repo, id: OutRef)
    requires Consistent(proto, s) && r.Valid()
    ensures SyncPass(proto, s, confirmations, r).repo.IsOpen(id)
       <==> LiveValid(proto, s, id) && (r.IsOpen(id) || Confirmed(s, confirmations, id))
  {
    SyncKeepsValid(proto, s, confirmations, r);
    var found := DiscoverAll(proto, s, confirmations, Sync(r, {}, 0, 0), s.holders);
    OpenIdsAreOpen(found.repo, id);
    if LiveValid(proto, s, id) {
      LiveIsListed(proto, s, id);
    }
  }

  /**
   * A continuation found in the same pass as its parent's spend is not shown while
   * it is too fresh, whatever the cache held: the listing has already put it among
   * the orders seen, so the surfacing step skips it. It is shown exactly when it is
   * live and valid and already open or confirmed.
   */
  lemma {:induction false} FreshContinuationIsNotSurfaced(proto: Protocol, s: Snapshot, confirmations: int, r: Repo,
                                                          parent: OutRef, child: OutRef)
    requires Consistent(proto, s) && r.Valid() && r.IsOpen(parent) && !LiveValid(proto, s, parent)
    requires ClassifySpend(proto, s.chain, parent).child == Some(child)
    requires LiveValid(proto, s, child) && !r.IsOpen(child)
    ensures !SyncPass(proto, s, confirmations, r).repo.IsOpen(parent)
    ensures SyncPass(proto, s, confirmations, r).repo.IsOpen(child) <==> Confirmed(s, confirmations, child)
  {
    SyncOpensExactly(proto, s, confirmations, r, parent);
    SyncOpensExactly(proto, s, confirmations, r, child);
  }

  /** A live order not seen yet is cached open, showing the row recorded for it and the pass's slot. */
  lemma {:induction false} SurfaceOpens(proto: Protocol, s: Snapshot, st: Sync, child: OutRef)
    requires st.repo.Valid() && child !in st.seen && LiveValid(proto, s, child) && child in st.repo.lineage
    ensures var st' := Surface(proto, s, st, child);
      && (forall id :: st'.repo.IsOpen(id) <==> st.repo.IsOpen(id) || id == child)
      && st'.repo.lineage == st.repo.lineage && child in st'.repo.orders
      && st'.repo.orders[child].parent == Some(st.repo.lineage[child].parent)
      && st'.repo.orders[child].createdAtSlot == Some(s.tip.slot)
      && st'.seen == st.seen + {child} && st'.openCount == st.openCount + 1 && st'.spentCount == st.spentCount
  {
    LiveIsUnspent(proto, s, child);
    UpsertKeeps(st.repo, LiveOrderAt(proto, s.chain, child).value.(createdAtSlot := Some(s.tip.slot)));
  }

  /** The cache once a partially filled order is marked and its continuation linked. */
  function Marked(st: Sync, spend: Spend, parent: OutRef, child: OutRef): Sync {
    var root := if parent in st.repo.lineage then st.repo.lineage[parent].root else parent;
    st.(repo := st.repo.MarkSpent(parent, spend.status, spend.txHash).SetLineage(child, parent, root))
  }

  lemma {:induction false} ChildIsNamed(proto: Protocol, c: Chain, ref: OutRef)
    ensures var s := ClassifySpend(proto, c, ref);
      && (s.child.Some? ==> s.status == PartiallyFilled && s.txHash == Some(s.child.value.txHash))
      && (s.status != Unknown ==> s.txHash.Some?)
  {
  }

  lemma {:induction false} MarkedKeeps(st: Sync, spend: Spend, parent: OutRef, child: OutRef)
    requires st.repo.Valid() && spend.status == PartiallyFilled
    ensures var linked := Marked(st, spend, parent, child);
      && linked == st.(repo := linked.repo) && linked.repo.Valid()
      && child in linked.repo.lineage && linked.repo.lineage[child].parent == parent
      && (forall id :: linked.repo.IsOpen(id) <==> st.repo.IsOpen(id) && id != parent)
  {
    var root := if parent in st.repo.lineage then st.repo.lineage[parent].root else parent;
    MarkSpentKeeps(st.repo, parent, spend.status, spend.txHash);
    SetLineageKeeps(st.repo.MarkSpent(parent, spend.status, spend.txHash), child, parent, root);
  }

  lemma {:induction false} RetireLinks(proto: Protocol, s: Snapshot, st: Sync, parent: OutRef, spend: Spend, child: OutRef)
    requires st.repo.Valid() && parent in st.repo.orders && parent !in st.seen
    requires ClassifySpend(proto, s.chain, parent) == spend && spend.status == PartiallyFilled && spend.child == Some(child)
    ensures var surfaced := Surface(proto, s, Marked(st, spend, parent, child), child);
      Retire(proto, s, st, parent) == surfaced.(spentCount := surfaced.spentCount + 1)
  {
    assert st.repo.orders[parent].ref == parent;
  }

  /**
   * What the surfacing step is for: a live continuation the listings did not show is cached
   * open, linked to its parent, the moment its parent is retired, without waiting to be
   * confirmed; nothing else is opened, and only the parent is closed.
   */
  lemma {:induction false} UnlistedContinuationIsSurfaced(proto: Protocol, s: Snapshot, st: Sync, parent: OutRef, child: OutRef)
    requires st.repo.Valid() && parent in st.repo.orders && parent !in st.seen
    requires ClassifySpend(proto, s.chain, parent).child == Some(child) && child !in st.seen && LiveValid(proto, s, child)
    ensures var st' := Retire(proto, s, st, parent);
      && (forall id :: st'.repo.IsOpen(id) <==> id == child || (st.repo.IsOpen(id) && id != parent))
      && child in st'.repo.lineage && st'.repo.lineage[child].parent == parent && child in st'.repo.orders
      && st'.repo.orders[child].parent == Some(parent) && st'.repo.orders[child].createdAtSlot == Some(s.tip.slot)
      && st'.seen == st.seen + {child} && st'.openCount == st.openCount + 1 && st'.spentCount == st.spentCount + 1
  {
    var spend := ClassifySpend(proto, s.chain, parent);
    ChildIsNamed(proto, s.chain, parent);
    RetireLinks(proto, s, st, parent, spend, child);
    MarkedKeeps(st, spend, parent, child);
    SurfaceOpens(proto, s, Marked(st, spend, parent, child), child);
  }

  /** The cache agrees with the snapshot, so that a pass has nothing to do. */
  ghost predicate Settled(proto: Protocol, s: Snapshot, confirmations: int, r: Repo) {
    && r.Valid() && r.cursor == s.tip.slot
    && (forall id :: r.IsOpen(id) ==> LiveValid(proto, s, id))
    && (forall id :: LiveValid(proto, s, id) && Confirmed(s, confirmations, id) ==> r.IsOpen(id))
  }

  lemma {:induction false} SettledListing(proto: Protocol, s: Snapshot, confirmations: int, st: Sync, utxos: seq<Utxo>)
    requires Settled(proto, s, confirmations, st.repo) && AllShown(s, utxos)
    ensures DiscoverListing(proto, s, confirmations, st, utxos).repo == st.repo
  {
    if utxos != [] {
      SettledListing(proto, s, confirmations, st, utxos[..|utxos| - 1]);
      assert Shown(s, utxos[|utxos| - 1]);
    }
  }

  lemma {:induction false} SettledDiscovery(proto: Protocol, s: Snapshot, confirmations: int, r: Repo, holders: seq<Address>)
    requires Consistent(proto, s) && Settled(proto, s, confirmations, r)
    requires forall i | 0 <= i < |holders| :: holders[i] in s.holders
    ensures DiscoverAll(proto, s, confirmations, Sync(r, {}, 0, 0), holders).repo == r
  {
    if holders != [] {
      ListingIsShown(proto, s, holders[|holders| - 1]);
      SettledDiscovery(proto, s, confirmations, r, holders[..|holders| - 1]);
      SettledListing(proto, s, confirmations,
        DiscoverAll(proto, s, confirmations, Sync(r, {}, 0, 0), holders[..|holders| - 1]),
        ListingOf(s, holders[|holders| - 1]));
    }
  }

  lemma {:induction false} SeenAreKept(proto: Protocol, s: Snapshot, st: Sync, ids: seq<OutRef>)
    requires forall i | 0 <= i < |ids| :: ids[i] in st.seen
    ensures RetireAll(proto, s, st, ids) == st
  {
    if ids != [] {
      SeenAreKept(proto, s, st, ids[..|ids| - 1]);
    }
  }

  lemma {:induction false} SettledPassChangesNothing(proto: Protocol, s: Snapshot, confirmations: int, r: Repo)
    requires Consistent(proto, s) && Settled(proto, s, confirmations, r)
    ensures SyncPass(proto, s, confirmations, r).repo == r
  {
    var found := DiscoverAll(proto, s, confirmations, Sync(r, {}, 0, 0), s.holders);
    SettledDiscovery(proto, s, confirmations, r, s.holders);
    SyncKeepsValid(proto, s, confirmations, r);
    forall i | 0 <= i < |r.OpenIds()| ensures r.OpenIds()[i] in found.seen {
      OpenIdsAreOpen(r, r.OpenIds()[i]);
    }
    SeenAreKept(proto, s, found, r.OpenIds());
  }

  /** A second pass over the same snapshot changes nothing in the cache. */
  lemma {:induction false} SecondPassChangesNothing(proto: Protocol, s: Snapshot, confirmations: int, r: Repo)
    requires Consistent(proto, s) && r.Valid()
    ensures var once := SyncPass(proto, s, confirmations, r).repo;
      SyncPass(proto, s, confirmations, once).repo == once
  {
    var once := SyncPass(proto, s, confirmations, r).repo;
    SyncKeepsValid(proto, s, confirmations, r);
    forall id ensures once.IsOpen(id)
        <==> LiveValid(proto, s, id) && (r.IsOpen(id) || Confirmed(s, confirmations, id)) {
      SyncOpensExactly(proto, s, confirmations, r, id);
    }
    SettledPassChangesNothing(proto, s, confirmations, once);
  }
}
