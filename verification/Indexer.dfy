/**
 * The order indexer: verification of candidate outputs, one sync pass over a chain
 * snapshot, classification of spends, and reconstruction of fill lineage. The
 * functions give each step's effect on the cache; the class holds the loops.
 */
module Indexer {
  import opened Wrappers
  import opened Sorting
  import opened Sequences
  import opened Beacons
  import opened Orders
  import opened OrderDatum
  import opened Ledger
  import opened ChainModel
  import opened OrdersRepo

  // -------------------------------------------------------- verification

  function StakeKeyOf(a: Address): string {
    if a.stake.Some? && a.stake.value.KeyHash? then a.stake.value.hash else ""
  }

  /** What the indexer makes of an output that carries this datum. */
  function MapDatum(proto: Protocol, ref: OutRef, out: TxOut, d: Datum): Option<Order> {
    if d.beaconPolicyId != proto.beaconPolicyId then None
    else if StakeKeyOf(out.address) != d.ownerKeyHash then None
    else
      var names := NamesOf(d);
      if !HoldsBeacons(proto, out.amount, names) then None
      else
        var lovelace := QuantityOf(out.amount, Lovelace);
        if IsAda(d.offer) && lovelace < d.offerAmount then None
        else if !IsAda(d.offer) && QuantityOf(out.amount, UnitOf(d.offer)) < d.offerAmount then None
        else
          Some(Order(ref, Open, ToPairId(d.offer, d.ask), out.address, d.ownerKeyHash, PaymentAddress(d),
            d.offer, d.offerAmount, d.ask, d.askAmount,
            if IsAda(d.offer) then lovelace - d.offerAmount else lovelace,
            names, d.expiration, d.version, d.allowPartialFill, None, None, None, None))
  }

  /** A candidate output as a cached order, None if it is not a protocol order. */
  function ValidateAndMap(proto: Protocol, ref: OutRef, out: TxOut): Option<Order> {
    if out.address.payment != ScriptHash(proto.orderValidatorHash) then None
    else if out.datum.None? then None
    else
      var d :- DecodeOrderDatum(out.datum.value);
      MapDatum(proto, ref, out, d)
  }

  /** The valid order at a reference of the chain, spent or not. */
  function OrderAt(proto: Protocol, c: Chain, ref: OutRef): Option<Order> {
    var out :- c.OutputAt(ref);
    ValidateAndMap(proto, ref, out)
  }

  /** The valid unspent order at a reference. */
  function LiveOrderAt(proto: Protocol, c: Chain, ref: OutRef): Option<Order> {
    var out :- c.UnspentAt(ref);
    ValidateAndMap(proto, ref, out)
  }

  // -------------------------------------------------------- rank pairing

  function Less(a: nat, b: nat): bool {
    a < b
  }

  /** Input indices spent at the order validator under TakeOrderPartial, as listed. */
  function ListedPartials(proto: Protocol, redeemers: seq<SpendRedeemer>): seq<nat> {
    if redeemers == [] then []
    else
      var r := redeemers[|redeemers| - 1];
      ListedPartials(proto, redeemers[..|redeemers| - 1])
      + (if r.scriptHash == proto.orderValidatorHash && r.alternative == 2 then [r.txIndex] else [])
  }

  function PartialInputs(proto: Protocol, tx: LedgerTx): seq<nat> {
    Sort(Less, ListedPartials(proto, tx.redeemers))
  }

  /** Indices of the outputs that hold an order beacon. */
  function BeaconOutputs(proto: Protocol, outputs: seq<TxOut>): (r: seq<nat>)
    ensures forall i | 0 <= i < |r| :: r[i] < |outputs|
  {
    if outputs == [] then []
    else
      var last := |outputs| - 1;
      BeaconOutputs(proto, outputs[..last]) + (if HasOrderBeacon(proto, outputs[last]) then [last] else [])
  }

  /** findIndex / indexOf, None for -1. */
  function IndexIn<T(==)>(s: seq<T>, x: T): (i: Option<nat>)
    ensures i.Some? ==> i.value < |s| && s[i.value] == x
    ensures i.None? <==> x !in s
  {
    if s == [] then None
    else if s[0] == x then Some(0)
    else
      var rest := IndexIn(s[1..], x);
      if rest.Some? then Some(rest.value + 1) else None
  }

  /** The continuation a partial input is paired with: the same rank among beacon outputs. */
  function ChildOutput(proto: Protocol, tx: LedgerTx, input: nat): Option<nat> {
    var rank :- IndexIn(PartialInputs(proto, tx), input);
    var continuations := BeaconOutputs(proto, tx.outputs);
    if rank < |continuations| then Some(continuations[rank]) else None
  }

  /** The partial input a beacon output is paired with. */
  function ParentInput(proto: Protocol, tx: LedgerTx, output: nat): Option<OutRef> {
    var partials := PartialInputs(proto, tx);
    var rank :- IndexIn(BeaconOutputs(proto, tx.outputs), output);
    if rank < |partials| && partials[rank] < |tx.inputs| then Some(tx.inputs[partials[rank]]) else None
  }

  // ------------------------------------------------------ classification

  datatype Spend = Spend(status: OrderStatus, txHash: Option<string>, child: Option<OutRef>)

  function FindRedeemer(redeemers: seq<SpendRedeemer>, txIndex: nat): Option<SpendRedeemer> {
    if redeemers == [] then None
    else if redeemers[0].txIndex == txIndex then Some(redeemers[0])
    else FindRedeemer(redeemers[1..], txIndex)
  }

  function ClassifySpend(proto: Protocol, c: Chain, ref: OutRef): Spend {
    if c.OutputAt(ref).None? || ref !in c.spentBy then Spend(Unknown, None, None) else
    var spendTx := c.spentBy[ref];
    if spendTx !in c.txs then Spend(Unknown, Some(spendTx), None) else
    var tx := c.txs[spendTx];
    var inputIdx := IndexIn(tx.inputs, ref);
    if inputIdx.None? then Spend(Unknown, Some(spendTx), None) else
    var entry := FindRedeemer(tx.redeemers, inputIdx.value);
    if entry.None? then Spend(Unknown, Some(spendTx), None)
    else if entry.value.alternative == 0 then Spend(Cancelled, Some(spendTx), None)
    else if entry.value.alternative == 1 then Spend(Taken, Some(spendTx), None)
    else if entry.value.alternative != 2 then Spend(Unknown, Some(spendTx), None)
    else
      var child := ChildOutput(proto, tx, inputIdx.value);
      Spend(PartiallyFilled, Some(spendTx),
        if child.Some? then Some(OutRef(spendTx, child.value)) else None)
  }

  // ------------------------------------------------------------ ancestry

  /** child was created by the partial fill that consumed parent. */
  datatype Link = Link(child: OutRef, parent: Order)

  const MAX_DEPTH := 64

  /** One backward step: the order whose partial fill created node, None at a root. */
  function ParentOrder(proto: Protocol, c: Chain, node: OutRef): Option<Order> {
    if node.txHash !in c.txs then None else
    var tx := c.txs[node.txHash];
    if PartialInputs(proto, tx) == [] then None else
    var parent :- ParentInput(proto, tx, node.index);
    OrderAt(proto, c, parent)
  }

  function Parents(proto: Protocol, c: Chain): OutRef -> Option<Order> {
    (node: OutRef) => ParentOrder(proto, c, node)
  }

  /** The walk found its end: the links from the node up, and the root they lead to. */
  datatype Walk = Walk(links: seq<Link>, root: OutRef)

  /** Up to a recorded ancestor or a root; None when the depth runs out first. */
  function WalkUp(up: OutRef -> Option<Order>, lineage: map<OutRef, Lineage>, node: OutRef, depth: nat): Option<Walk>
    requires depth <= MAX_DEPTH
    decreases MAX_DEPTH - depth
  {
    if depth == MAX_DEPTH then None
    else if node in lineage then Some(Walk([], lineage[node].root))
    else
      var parent := up(node);
      if parent.None? then Some(Walk([], node))
      else
        Prepend([Link(node, parent.value)], WalkUp(up, lineage, parent.value.ref, depth + 1))
  }

  function WriteLink(r: Repo, link: Link, root: OutRef, slot: int): Repo {
    r.Upsert(link.parent.(createdAtSlot := Some(slot)))
     .MarkSpent(link.parent.ref, PartiallyFilled, Some(link.child.txHash))
     .SetLineage(link.child, link.parent.ref, root)
  }

  /** Links are written from the root end to the node. */
  function WriteLinks(r: Repo, links: seq<Link>, root: OutRef, slot: int): Repo {
    if links == [] then r
    else WriteLink(WriteLinks(r, links[1..], root, slot), links[0], root, slot)
  }

  function Backfill(proto: Protocol, c: Chain, r: Repo, node: OutRef, slot: int): Repo {
    var walk := WalkUp(Parents(proto, c), r.lineage, node, 0);
    if walk.None? then r else WriteLinks(r, walk.value.links, walk.value.root, slot)
  }

  // ---------------------------------------------------------------- sync

  datatype Sync = Sync(repo: Repo, seen: set<OutRef>, openCount: int, spentCount: int)

  /** Step 1 on one listed output: verify, then cache it once it has enough confirmations. */
  function Discover(proto: Protocol, s: Snapshot, confirmations: int, st: Sync, u: Utxo): Sync {
    var order, ref := ValidateAndMap(proto, u.ref, u.output), u.ref;
    if order.None? then st else
    var st := st.(seen := st.seen + {ref});
    if st.repo.IsOpen(ref) then st.(openCount := st.openCount + 1) else
    var n := Confirmations(s, ref.txHash);
    if n.None? || n.value < confirmations then st
    else
      var repo := st.repo.Upsert(order.value.(createdAtSlot := Some(s.tip.slot)));
      st.(repo := if ref in st.repo.orders then repo else Backfill(proto, s.chain, repo, ref, s.tip.slot),
          openCount := st.openCount + 1)
  }

  function DiscoverListing(proto: Protocol, s: Snapshot, confirmations: int, st: Sync, utxos: seq<Utxo>): Sync {
    if utxos == [] then st
    else
      Discover(proto, s, confirmations,
        DiscoverListing(proto, s, confirmations, st, utxos[..|utxos| - 1]), utxos[|utxos| - 1])
  }

  function DiscoverAll(proto: Protocol, s: Snapshot, confirmations: int, st: Sync, holders: seq<Address>): Sync {
    if holders == [] then st
    else
      DiscoverListing(proto, s, confirmations,
        DiscoverAll(proto, s, confirmations, st, holders[..|holders| - 1]),
        ListingOf(s, holders[|holders| - 1]))
  }

  /** Step 2's surfacing of a continuation the listing did not show. */
  function Surface(proto: Protocol, s: Snapshot, st: Sync, child: OutRef): Sync {
    if child in st.seen then st else
    var order := LiveOrderAt(proto, s.chain, child);
    if order.None? then st
    else st.(repo := st.repo.Upsert(order.value.(createdAtSlot := Some(s.tip.slot))),
             seen := st.seen + {child}, openCount := st.openCount + 1)
  }

  /** Step 2 on one cached-open order: if it vanished, record how it was spent. */
  function Retire(proto: Protocol, s: Snapshot, st: Sync, id: OutRef): Sync {
    if id in st.seen || id !in st.repo.orders then st else
    var spend := ClassifySpend(proto, s.chain, st.repo.orders[id].ref);
    var marked := st.(repo := st.repo.MarkSpent(id, spend.status, spend.txHash));
    var linked :=
      if spend.status == PartiallyFilled && spend.child.Some? then
        var root := if id in marked.repo.lineage then marked.repo.lineage[id].root else id;
        Surface(proto, s, marked.(repo := marked.repo.SetLineage(spend.child.value, id, root)), spend.child.value)
      else marked;
    linked.(spentCount := linked.spentCount + 1)
  }

  function RetireAll(proto: Protocol, s: Snapshot, st: Sync, ids: seq<OutRef>): Sync {
    if ids == [] then st
    else Retire(proto, s, RetireAll(proto, s, st, ids[..|ids| - 1]), ids[|ids| - 1])
  }

  /** One whole pass. */
  function SyncPass(proto: Protocol, s: Snapshot, confirmations: int, r: Repo): Sync {
    var found := DiscoverAll(proto, s, confirmations, Sync(r, {}, 0, 0), s.holders);
    var st := RetireAll(proto, s, found, found.repo.OpenIds());
    st.(repo := st.repo.(cursor := s.tip.slot))
  }

  // -------------------------------------------------------------- repair

  datatype Repair = Repair(repo: Repo, checked: int, repaired: int)

  function RepairOne(proto: Protocol, s: Snapshot, st: Repair, id: OutRef): Repair {
    if id !in st.repo.orders || !st.repo.orders[id].allowPartialFill || id in st.repo.lineage then st
    else
      var repo := Backfill(proto, s.chain, st.repo, st.repo.orders[id].ref, s.tip.slot);
      Repair(repo, st.checked + 1, st.repaired + (if id in repo.lineage then 1 else 0))
  }

  function RepairAll(proto: Protocol, s: Snapshot, st: Repair, ids: seq<OutRef>): Repair {
    if ids == [] then st
    else RepairOne(proto, s, RepairAll(proto, s, st, ids[..|ids| - 1]), ids[|ids| - 1])
  }

  // --------------------------------------------------- the source's loops

  /** Links collected so far, followed by the rest of the walk. */
  function Prepend(links: seq<Link>, rest: Option<Walk>): Option<Walk> {
    if rest.None? then None else Some(Walk(links + rest.value.links, rest.value.root))
  }

  lemma {:induction false} PrependStep(links: seq<Link>, link: Link, rest: Option<Walk>)
    ensures Prepend(links, Prepend([link], rest)) == Prepend(links + [link], rest)
  {
    if rest.Some? {
      assert links + ([link] + rest.value.links) == links + [link] + rest.value.links;
    }
  }

  lemma {:induction false} PrependNothing(rest: Option<Walk>)
    ensures Prepend([], rest) == rest
  {
    if rest.Some? {
      assert [] + rest.value.links == rest.value.links;
    }
  }

  lemma {:induction false} PrependLast(links: seq<Link>, root: OutRef)
    ensures Prepend(links, Some(Walk([], root))) == Some(Walk(links, root))
  {
    assert links + [] == links;
  }

  class OrderIndexer {
    const proto: Protocol
    const confirmations: int
    const repo: MemoryOrdersRepo

    constructor (proto: Protocol, confirmations: int, repo: MemoryOrdersRepo)
      ensures this.proto == proto && this.confirmations == confirmations && this.repo == repo
    {
      this.proto, this.confirmations, this.repo := proto, confirmations, repo;
    }

    /** The walk of backfillAncestry: collect links until a recorded ancestor or a root. */
    method CollectLinks(c: Chain, order: OutRef) returns (links: seq<Link>, root: Option<OutRef>)
      ensures root.None? ==> WalkUp(Parents(proto, c), repo.lineage, order, 0) == None
      ensures root.Some? ==> WalkUp(Parents(proto, c), repo.lineage, order, 0) == Some(Walk(links, root.value))
    {
      links, root := [], None;
      var node := order;
      PrependNothing(WalkUp(Parents(proto, c), repo.lineage, node, 0));
      var depth := 0;
      while depth < 64
        invariant 0 <= depth <= 64
        invariant WalkUp(Parents(proto, c), repo.lineage, order, 0)
               == Prepend(links, WalkUp(Parents(proto, c), repo.lineage, node, depth))
      {
        var existing := repo.GetLineage(node);
        if existing.Some? {
          root := Some(existing.value.root);
          PrependLast(links, existing.value.root);
          return;
        }
        var parent := ParentOrder(proto, c, node);
        if parent.None? {
          root := Some(node);
          PrependLast(links, node);
          return;
        }
        PrependStep(links, Link(node, parent.value), WalkUp(Parents(proto, c), repo.lineage, parent.value.ref, depth + 1));
        links := links + [Link(node, parent.value)];
        node := parent.value.ref;
        depth := depth + 1;
      }
    }

    method BackfillAncestry(c: Chain, order: OutRef, slot: int)
      modifies repo
      ensures repo.State() == Backfill(proto, c, old(repo.State()), order, slot)
    {
      var links, root := CollectLinks(c, order);
      if root.None? {
        return;
      }
      var i := |links|;
      assert links[i..] == [];
      while i > 0
        invariant 0 <= i <= |links|
        invariant repo.State() == WriteLinks(old(repo.State()), links[i..], root.value, slot)
      {
        i := i - 1;
        assert links[i..][1..] == links[i + 1..];
        var link := links[i];
        repo.UpsertOpenOrder(link.parent.(createdAtSlot := Some(slot)));
        repo.MarkSpent(link.parent.ref, PartiallyFilled, Some(link.child.txHash));
        repo.SetLineage(link.child, link.parent.ref, root.value);
      }
      assert links[0..] == links;
    }

    /** Step 1's body for one listed output. */
    method DiscoverOne(s: Snapshot, utxo: Utxo, seenOpen: set<OutRef>, openCount: int)
      returns (seenOpen': set<OutRef>, openCount': int)
      modifies repo
      ensures Sync(repo.State(), seenOpen', openCount', 0)
        == Discover(proto, s, confirmations, Sync(old(repo.State()), seenOpen, openCount, 0), utxo)
    {
      seenOpen', openCount' := seenOpen, openCount;
      var order, ref := ValidateAndMap(proto, utxo.ref, utxo.output), utxo.ref;
      if order.None? {
        return;
      }
      seenOpen' := seenOpen + {ref};
      var cached := repo.GetOrder(ref);
      if cached.Some? && cached.value.status == Open {
        openCount' := openCount + 1;
        return;
      }
      var n := Confirmations(s, ref.txHash);
      if n.None? || n.value < confirmations {
        return;
      }
      repo.UpsertOpenOrder(order.value.(createdAtSlot := Some(s.tip.slot)));
      openCount' := openCount + 1;
      if cached.None? {
        BackfillAncestry(s.chain, ref, s.tip.slot);
      }
    }

    /** Step 1: every output listed for every holder. */
    method DiscoverCandidates(s: Snapshot) returns (seenOpen: set<OutRef>, openCount: int)
      modifies repo
      ensures Sync(repo.State(), seenOpen, openCount, 0)
        == DiscoverAll(proto, s, confirmations, Sync(old(repo.State()), {}, 0, 0), s.holders)
    {
      seenOpen, openCount := {}, 0;
      ghost var start := Sync(repo.State(), {}, 0, 0);
      for i := 0 to |s.holders|
        invariant Sync(repo.State(), seenOpen, openCount, 0)
          == DiscoverAll(proto, s, confirmations, start, s.holders[..i])
      {
        PrefixStep(s.holders, i);
        var utxos := ListingOf(s, s.holders[i]);
        ghost var before := DiscoverAll(proto, s, confirmations, start, s.holders[..i]);
        for j := 0 to |utxos|
          invariant Sync(repo.State(), seenOpen, openCount, 0)
            == DiscoverListing(proto, s, confirmations, before, utxos[..j])
        {
          PrefixStep(utxos, j);
          seenOpen, openCount := DiscoverOne(s, utxos[j], seenOpen, openCount);
        }
        assert utxos[..|utxos|] == utxos;
      }
      assert s.holders[..|s.holders|] == s.holders;
    }

    /** Cache a continuation nobody has listed yet. */
    method SurfaceChild(s: Snapshot, child: OutRef, seenOpen: set<OutRef>, openCount: int, ghost spentCount: int)
      returns (seenOpen': set<OutRef>, openCount': int)
      modifies repo
      ensures Sync(repo.State(), seenOpen', openCount', spentCount)
        == Surface(proto, s, Sync(old(repo.State()), seenOpen, openCount, spentCount), child)
    {
      seenOpen', openCount' := seenOpen, openCount;
      if child !in seenOpen {
        var childOrder := LiveOrderAt(proto, s.chain, child);
        if childOrder.Some? {
          repo.UpsertOpenOrder(childOrder.value.(createdAtSlot := Some(s.tip.slot)));
          seenOpen' := seenOpen + {child};
          openCount' := openCount + 1;
        }
      }
    }

    /** Step 2's body for one cached-open order. */
    method RetireOne(s: Snapshot, orderId: OutRef, seenOpen: set<OutRef>, openCount: int, spentCount: int)
      returns (seenOpen': set<OutRef>, openCount': int, spentCount': int)
      modifies repo
      ensures Sync(repo.State(), seenOpen', openCount', spentCount')
        == Retire(proto, s, Sync(old(repo.State()), seenOpen, openCount, spentCount), orderId)
    {
      seenOpen', openCount', spentCount' := seenOpen, openCount, spentCount;
      if orderId in seenOpen {
        return;
      }
      var cached := repo.GetOrder(orderId);
      if cached.None? {
        return;
      }
      var spend := ClassifySpend(proto, s.chain, cached.value.ref);
      repo.MarkSpent(orderId, spend.status, spend.txHash);
      if spend.status == PartiallyFilled && spend.child.Some? {
        var parent := repo.GetLineage(orderId);
        repo.SetLineage(spend.child.value, orderId, if parent.Some? then parent.value.root else orderId);
        seenOpen', openCount' := SurfaceChild(s, spend.child.value, seenOpen, openCount, spentCount);
      }
      spentCount' := spentCount + 1;
    }

    method DoSync(s: Snapshot) returns (open: int, spent: int)
      modifies repo
      ensures var st := SyncPass(proto, s, confirmations, old(repo.State()));
        repo.State() == st.repo && open == st.openCount && spent == st.spentCount
    {
      var seenOpen, openCount := DiscoverCandidates(s);
      var spentCount := 0;
      var ids := repo.ListOpenOrderIds();
      ghost var found := Sync(repo.State(), seenOpen, openCount, 0);
      for i := 0 to |ids|
        invariant Sync(repo.State(), seenOpen, openCount, spentCount) == RetireAll(proto, s, found, ids[..i])
      {
        PrefixStep(ids, i);
        seenOpen, openCount, spentCount := RetireOne(s, ids[i], seenOpen, openCount, spentCount);
      }
      assert ids[..|ids|] == ids;
      repo.SetCursor(s.tip.slot);
      open, spent := openCount, spentCount;
    }

    method RepairLineage(s: Snapshot) returns (checked: int, repaired: int)
      modifies repo
      ensures Repair(repo.State(), checked, repaired)
        == RepairAll(proto, s, Repair(old(repo.State()), 0, 0), old(repo.State()).OpenIds())
    {
      checked, repaired := 0, 0;
      ghost var start := Repair(repo.State(), 0, 0);
      var ids := repo.ListOpenOrderIds();
      for i := 0 to |ids|
        invariant Repair(repo.State(), checked, repaired) == RepairAll(proto, s, start, ids[..i])
      {
        PrefixStep(ids, i);
        var order := repo.GetOrder(ids[i]);
        if order.None? || !order.value.allowPartialFill {
          continue;
        }
        var row := repo.GetLineage(ids[i]);
        if row.Some? {
          continue;
        }
        checked := checked + 1;
        BackfillAncestry(s.chain, order.value.ref, s.tip.slot);
        row := repo.GetLineage(ids[i]);
        if row.Some? {
          repaired := repaired + 1;
        }
      }
      assert ids[..|ids|] == ids;
    }
  }
}
