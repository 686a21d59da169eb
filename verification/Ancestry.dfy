/**
 * Fill ancestry in the abstract: what the chain says about orders (the truth), what
 * the cache records about them, and what one reconstruction of ancestry does to it.
 */
module Ancestry {
  import opened Wrappers
  import opened Orders
  import opened OrdersRepo
  import opened Indexer
  import opened SyncProofs

  /**
   * up is the order whose partial fill created a node, at the valid order placed at a
   * reference, fate what became of it, and rank the place of its transaction.
   */
  datatype Truth = Truth(
    up: OutRef -> Option<Order>,
    at: OutRef -> Option<Order>,
    fate: map<OutRef, Spend>,
    rank: OutRef -> nat)

  ghost predicate Descends(t: Truth) {
    forall n: OutRef {:trigger t.up(n)} | t.up(n).Some? :: t.rank(t.up(n).value.ref) < t.rank(n)
  }

  /** A node's parent is a valid order whose fate is to live on as that node. */
  ghost predicate FillFate(t: Truth, n: OutRef) {
    t.up(n).Some? ==>
      var p := t.up(n).value;
      t.at(p.ref) == Some(p) && p.ref in t.fate && t.fate[p.ref] == Spend(PartiallyFilled, Some(n.txHash), Some(n))
  }

  ghost predicate ChildFate(t: Truth, p: OutRef) {
    p in t.fate ==>
      && t.fate[p].status != Open && t.fate[p].txHash.Some?
      && (t.fate[p].child.Some? ==> t.up(t.fate[p].child.value).Some? && t.up(t.fate[p].child.value).value.ref == p)
  }

  /** A record as it is first cached. */
  predicate Bare(o: Order) {
    o.status == Open && o.parent == None && o.root == None && o.createdAtSlot == None && o.spentTxHash == None
  }

  ghost predicate PlainRecord(t: Truth, ref: OutRef) {
    t.at(ref).Some? ==> t.at(ref).value.ref == ref && Bare(t.at(ref).value)
  }

  ghost predicate Coherent(t: Truth) {
    && Descends(t)
    && (forall n: OutRef :: FillFate(t, n))
    && (forall p: OutRef :: ChildFate(t, p))
    && (forall ref: OutRef :: PlainRecord(t, ref))
  }

  /** a is a proper ancestor of n. */
  ghost predicate Above(t: Truth, a: OutRef, n: OutRef)
    requires Descends(t)
    decreases t.rank(n)
  {
    t.up(n).Some? && (t.up(n).value.ref == a || Above(t, a, t.up(n).value.ref))
  }

  /** The first order of the fill chain n belongs to. */
  ghost function Origin(t: Truth, n: OutRef): OutRef
    requires Descends(t)
    decreases t.rank(n)
  {
    if t.up(n).None? then n else Origin(t, t.up(n).value.ref)
  }

  /** How many ancestors a walk up from n meets before a recorded one. */
  ghost function Unrecorded(t: Truth, lineage: map<OutRef, Lineage>, n: OutRef): nat
    requires Descends(t)
    decreases t.rank(n)
  {
    if n in lineage || t.up(n).None? then 0 else 1 + Unrecorded(t, lineage, t.up(n).value.ref)
  }

  /** A walk is given up exactly when 64 or more unrecorded ancestors lie ahead. */
  lemma {:induction false} WalkEnds(t: Truth, lineage: map<OutRef, Lineage>, n: OutRef, depth: nat)
    requires Descends(t) && depth <= MAX_DEPTH
    ensures WalkUp(t.up, lineage, n, depth).Some? <==> depth + Unrecorded(t, lineage, n) < MAX_DEPTH
    decreases MAX_DEPTH - depth
  {
    if depth < MAX_DEPTH && n !in lineage && t.up(n).Some? {
      WalkEnds(t, lineage, t.up(n).value.ref, depth + 1);
    }
  }

  lemma {:induction false} RecordingHelps(t: Truth, before: map<OutRef, Lineage>, after: map<OutRef, Lineage>, n: OutRef)
    requires Descends(t) && Extends(before, after)
    ensures Unrecorded(t, after, n) <= Unrecorded(t, before, n)
    decreases t.rank(n)
  {
    if n !in before && t.up(n).Some? {
      RecordingHelps(t, before, after, t.up(n).value.ref);
    }
  }

  // ----------------------------------------------------- what is recorded

  /** Rows once written stay as they are. */
  ghost predicate Extends(before: map<OutRef, Lineage>, after: map<OutRef, Lineage>) {
    forall k | k in before :: k in after && after[k] == before[k]
  }

  /** A row names the node's true parent, and a true ancestor as its root. */
  ghost predicate RowTrue(t: Truth, n: OutRef, row: Lineage)
    requires Descends(t)
  {
    t.up(n).Some? && t.up(n).value.ref == row.parent && Above(t, row.root, n)
  }

  ghost predicate RowsTrue(t: Truth, lineage: map<OutRef, Lineage>)
    requires Descends(t)
  {
    forall n | n in lineage :: RowTrue(t, n, lineage[n])
  }

  /** An order as cached, without what the cache itself adds to it. */
  function Terms(o: Order): Order {
    o.(status := Open, parent := None, root := None, createdAtSlot := None, spentTxHash := None)
  }

  /** A cached order has the terms the chain shows, and is open or marked with its true fate. */
  ghost predicate RecordTrue(t: Truth, id: OutRef, o: Order) {
    && t.at(id).Some? && Terms(o) == t.at(id).value
    && (o.status == Open || (id in t.fate && o.status == t.fate[id].status && o.spentTxHash == t.fate[id].txHash))
  }

  ghost predicate RecordsTrue(t: Truth, orders: map<OutRef, Order>) {
    forall id | id in orders :: RecordTrue(t, id, orders[id])
  }

  ghost predicate ParentsClosed(r: Repo) {
    forall n | n in r.lineage :: !r.IsOpen(r.lineage[n].parent)
  }

  ghost predicate ParentsCached(r: Repo) {
    forall n | n in r.lineage :: r.lineage[n].parent in r.orders
  }

  /** The cache tells nothing but the truth. */
  ghost predicate Tracks(t: Truth, r: Repo) {
    && Coherent(t) && r.Valid() && r.LineageShown()
    && RowsTrue(t, r.lineage) && RecordsTrue(t, r.orders) && ParentsClosed(r) && ParentsCached(r)
  }

  ghost predicate OrderLinked(t: Truth, r: Repo, id: OutRef) {
    t.up(id).Some? ==> id in r.lineage
  }

  ghost predicate RootsAreOrigins(t: Truth, lineage: map<OutRef, Lineage>)
    requires Descends(t)
  {
    forall n | n in lineage :: lineage[n].root == Origin(t, n)
  }

  /** The cache tells the whole truth: every cached continuation but these has its row, with its true origin. */
  ghost predicate LinkedBut(t: Truth, r: Repo, but: set<OutRef>)
    requires Descends(t)
  {
    && (forall id | id in r.orders && id !in but :: OrderLinked(t, r, id))
    && RootsAreOrigins(t, r.lineage)
  }

  // ------------------------------------------------------- writing a link

  lemma {:induction false} UpsertRecords(t: Truth, r: Repo, o: Order)
    requires RecordsTrue(t, r.orders) && t.at(o.ref).Some? && Terms(o) == t.at(o.ref).value
    ensures RecordsTrue(t, r.Upsert(o).orders) && r.Upsert(o).lineage == r.lineage
  {
    var stored := r.Upsert(o).orders[o.ref];
    assert Terms(stored) == Terms(o) && stored.status == Open;
  }

  lemma {:induction false} MarkRecords(t: Truth, r: Repo, id: OutRef)
    requires Coherent(t) && RecordsTrue(t, r.orders) && id in t.fate
    ensures RecordsTrue(t, r.MarkSpent(id, t.fate[id].status, t.fate[id].txHash).orders)
    ensures r.MarkSpent(id, t.fate[id].status, t.fate[id].txHash).lineage == r.lineage
  {
    assert ChildFate(t, id);
    if id in r.orders {
      var marked := r.MarkSpent(id, t.fate[id].status, t.fate[id].txHash).orders[id];
      assert Terms(marked) == Terms(r.orders[id]);
    }
  }

  lemma {:induction false} LinkRecords(t: Truth, r: Repo, child: OutRef, parent: OutRef, root: OutRef)
    requires RecordsTrue(t, r.orders)
    ensures RecordsTrue(t, r.SetLineage(child, parent, root).orders)
    ensures r.SetLineage(child, parent, root).lineage == r.lineage[child := Lineage(parent, root)]
  {
    if child in r.orders {
      var linked := r.SetLineage(child, parent, root).orders[child];
      assert Terms(linked) == Terms(r.orders[child]);
    }
  }

  // ------------------------------------------------- rows of a finished walk

  /** The lineage map after the links are written from the root end. */
  function RowsAfter(lineage: map<OutRef, Lineage>, links: seq<Link>, root: OutRef): map<OutRef, Lineage> {
    if links == [] then lineage
    else RowsAfter(lineage, links[1..], root)[links[0].child := Lineage(links[0].parent.ref, root)]
  }

  lemma {:induction false} RowsWritten(r: Repo, links: seq<Link>, root: OutRef, slot: int)
    ensures WriteLinks(r, links, root, slot).lineage == RowsAfter(r.lineage, links, root)
  {
    if links != [] {
      RowsWritten(r, links[1..], root, slot);
    }
  }

  lemma {:induction false} RowsComeFrom(lineage: map<OutRef, Lineage>, links: seq<Link>, root: OutRef, n: OutRef)
    requires n in RowsAfter(lineage, links, root)
    ensures (n in lineage && RowsAfter(lineage, links, root)[n] == lineage[n])
         || exists i :: 0 <= i < |links| && RowsAfter(lineage, links, root)[n].parent == links[i].parent.ref
  {
    if links != [] {
      if n == links[0].child {
        assert RowsAfter(lineage, links, root)[n].parent == links[0].parent.ref;
      } else {
        RowsComeFrom(lineage, links[1..], root, n);
        assert forall i | 0 <= i < |links[1..]| :: links[1..][i] == links[i + 1];
      }
    }
  }

  /** What a finished walk from n says about the root it found. */
  lemma {:induction false} WalkRoot(t: Truth, lineage: map<OutRef, Lineage>, n: OutRef, depth: nat, walk: Walk)
    requires Descends(t) && RowsTrue(t, lineage) && depth <= MAX_DEPTH
    requires WalkUp(t.up, lineage, n, depth) == Some(walk)
    ensures walk.root == n || Above(t, walk.root, n)
    ensures RootsAreOrigins(t, lineage) ==> walk.root == Origin(t, n)
    decreases MAX_DEPTH - depth
  {
    if n !in lineage && t.up(n).Some? {
      var parent := t.up(n).value.ref;
      WalkRoot(t, lineage, parent, depth + 1, WalkUp(t.up, lineage, parent, depth + 1).value);
    }
  }

  lemma {:induction false} WalkStep(t: Truth, lineage: map<OutRef, Lineage>, n: OutRef, depth: nat, walk: Walk)
    returns (rest: Walk)
    requires depth < MAX_DEPTH && WalkUp(t.up, lineage, n, depth) == Some(walk)
    requires n !in lineage && t.up(n).Some?
    ensures WalkUp(t.up, lineage, t.up(n).value.ref, depth + 1) == Some(rest)
    ensures walk.links != [] && walk.links[0] == Link(n, t.up(n).value)
    ensures walk.links[1..] == rest.links && walk.root == rest.root
  {
    rest := WalkUp(t.up, lineage, t.up(n).value.ref, depth + 1).value;
  }

  /** Rows are only added, and only for n and its ancestors. */
  ghost predicate OnlyUpFrom(t: Truth, before: map<OutRef, Lineage>, after: map<OutRef, Lineage>, n: OutRef) {
    Extends(before, after) && forall k | k in after && k !in before :: t.rank(k) <= t.rank(n)
  }

  lemma {:induction false} AddRow(t: Truth, before: map<OutRef, Lineage>, lineage: map<OutRef, Lineage>, n: OutRef, row: Lineage)
    requires Descends(t) && RowsTrue(t, lineage) && RowTrue(t, n, row)
    requires OnlyUpFrom(t, before, lineage, row.parent) && n !in before
    ensures n !in lineage && RowsTrue(t, lineage[n := row]) && OnlyUpFrom(t, before, lineage[n := row], n)
    ensures RootsAreOrigins(t, lineage) && row.root == Origin(t, n) ==> RootsAreOrigins(t, lineage[n := row])
  {
  }

  /** The rows of a walk are those of the walk one step up, and one more. */
  lemma {:induction false} RowsStep(lineage: map<OutRef, Lineage>, n: OutRef, parent: Order, walk: Walk, rest: Walk)
    requires walk.links != [] && walk.links[0] == Link(n, parent) && walk.links[1..] == rest.links && walk.root == rest.root
    ensures RowsAfter(lineage, walk.links, walk.root)
         == RowsAfter(lineage, rest.links, rest.root)[n := Lineage(parent.ref, rest.root)]
  {
  }

  /** What a finished walk from n leaves in the rows. */
  ghost predicate Gained(t: Truth, lineage: map<OutRef, Lineage>, n: OutRef, rows: map<OutRef, Lineage>)
    requires Descends(t)
  {
    && RowsTrue(t, rows) && OnlyUpFrom(t, lineage, rows, n) && (t.up(n).Some? ==> n in rows)
    && (RootsAreOrigins(t, lineage) ==> RootsAreOrigins(t, rows))
  }

  /** Writing a finished walk adds only true rows, one for n if it has a parent at all. */
  lemma {:induction false} WalkRows(t: Truth, lineage: map<OutRef, Lineage>, n: OutRef, depth: nat, walk: Walk)
    requires Descends(t) && RowsTrue(t, lineage) && depth <= MAX_DEPTH
    requires WalkUp(t.up, lineage, n, depth) == Some(walk)
    ensures Gained(t, lineage, n, RowsAfter(lineage, walk.links, walk.root))
    decreases MAX_DEPTH - depth
  {
    if n !in lineage && t.up(n).Some? {
      var rest := WalkStep(t, lineage, n, depth, walk);
      WalkRows(t, lineage, t.up(n).value.ref, depth + 1, rest);
      RowsOneUp(t, lineage, n, depth, walk, rest);
    }
  }

  lemma {:induction false} RowsOneUp(t: Truth, lineage: map<OutRef, Lineage>, n: OutRef, depth: nat, walk: Walk, rest: Walk)
    requires Descends(t) && RowsTrue(t, lineage) && n !in lineage && t.up(n).Some? && depth < MAX_DEPTH
    requires walk.links != [] && walk.links[0] == Link(n, t.up(n).value) && walk.links[1..] == rest.links && walk.root == rest.root
    requires WalkUp(t.up, lineage, t.up(n).value.ref, depth + 1) == Some(rest)
    requires Gained(t, lineage, t.up(n).value.ref, RowsAfter(lineage, rest.links, rest.root))
    ensures Gained(t, lineage, n, RowsAfter(lineage, walk.links, walk.root))
  {
    var parent := t.up(n).value.ref;
    WalkRoot(t, lineage, parent, depth + 1, rest);
    AddRow(t, lineage, RowsAfter(lineage, rest.links, rest.root), n, Lineage(parent, rest.root));
    RowsStep(lineage, n, t.up(n).value, walk, rest);
  }

  ghost predicate LinksTrue(t: Truth, links: seq<Link>) {
    forall i | 0 <= i < |links| :: t.up(links[i].child) == Some(links[i].parent)
  }

  /** Every order a finished walk will cache has its row or is a root. */
  lemma {:induction false} WalkLinks(t: Truth, lineage: map<OutRef, Lineage>, n: OutRef, depth: nat, walk: Walk)
    requires Descends(t) && RowsTrue(t, lineage) && depth <= MAX_DEPTH
    requires WalkUp(t.up, lineage, n, depth) == Some(walk)
    ensures LinksTrue(t, walk.links) && ParentsRowed(t, walk.links, RowsAfter(lineage, walk.links, walk.root))
    decreases MAX_DEPTH - depth
  {
    if n !in lineage && t.up(n).Some? {
      var rest := WalkStep(t, lineage, n, depth, walk);
      var parent := t.up(n).value.ref;
      WalkLinks(t, lineage, parent, depth + 1, rest);
      WalkRows(t, lineage, parent, depth + 1, rest);
      RowsStep(lineage, n, t.up(n).value, walk, rest);
      LinksCons(t, walk.links, RowsAfter(lineage, walk.links, walk.root));
    }
  }

  /** Every parent that has a parent itself has its row. */
  ghost predicate ParentsRowed(t: Truth, links: seq<Link>, rows: map<OutRef, Lineage>) {
    forall i | 0 <= i < |links| && t.up(links[i].parent.ref).Some? :: links[i].parent.ref in rows
  }

  lemma {:induction false} LinksCons(t: Truth, links: seq<Link>, rows: map<OutRef, Lineage>)
    requires links != [] && LinksTrue(t, links[1..]) && ParentsRowed(t, links[1..], rows)
    requires t.up(links[0].child) == Some(links[0].parent)
    requires t.up(links[0].parent.ref).Some? ==> links[0].parent.ref in rows
    ensures LinksTrue(t, links) && ParentsRowed(t, links, rows)
  {
    assert links == [links[0]] + links[1..];
  }

  // ------------------------------------------------------- writing the links

  lemma {:induction false} LinkShowsLineage(r: Repo, link: Link, root: OutRef, slot: int)
    requires r.LineageShown() && Bare(link.parent)
    ensures WriteLink(r, link, root, slot).LineageShown()
  {
    var parent, spent := link.parent.(createdAtSlot := Some(slot)), Some(link.child.txHash);
    UpsertShowsLineage(r, parent);
    MarkSpentShowsLineage(r.Upsert(parent), link.parent.ref, PartiallyFilled, spent);
    SetLineageShowsLineage(r.Upsert(parent).MarkSpent(link.parent.ref, PartiallyFilled, spent),
      link.child, link.parent.ref, root);
  }

  lemma {:induction false} LinkKeepsRecords(t: Truth, r: Repo, link: Link, root: OutRef, slot: int)
    requires Coherent(t) && RecordsTrue(t, r.orders) && t.up(link.child) == Some(link.parent)
    ensures RecordsTrue(t, WriteLink(r, link, root, slot).orders)
  {
    assert FillFate(t, link.child) && PlainRecord(t, link.parent.ref);
    var parent, spent := link.parent.(createdAtSlot := Some(slot)), Some(link.child.txHash);
    assert Terms(parent) == link.parent;
    UpsertRecords(t, r, parent);
    MarkRecords(t, r.Upsert(parent), link.parent.ref);
    LinkRecords(t, r.Upsert(parent).MarkSpent(link.parent.ref, PartiallyFilled, spent),
      link.child, link.parent.ref, root);
  }

  lemma {:induction false} LinksKeepRecords(t: Truth, r: Repo, links: seq<Link>, root: OutRef, slot: int)
    requires Coherent(t) && RecordsTrue(t, r.orders) && LinksTrue(t, links)
    ensures RecordsTrue(t, WriteLinks(r, links, root, slot).orders)
  {
    if links != [] {
      assert LinksTrue(t, links[1..]);
      LinksKeepRecords(t, r, links[1..], root, slot);
      LinkKeepsRecords(t, WriteLinks(r, links[1..], root, slot), links[0], root, slot);
    }
  }

  lemma {:induction false} LinksShowLineage(t: Truth, r: Repo, links: seq<Link>, root: OutRef, slot: int)
    requires Coherent(t) && LinksTrue(t, links) && r.LineageShown()
    ensures WriteLinks(r, links, root, slot).LineageShown()
  {
    if links != [] {
      assert LinksTrue(t, links[1..]);
      LinksShowLineage(t, r, links[1..], root, slot);
      assert FillFate(t, links[0].child) && PlainRecord(t, links[0].parent.ref);
      LinkShowsLineage(WriteLinks(r, links[1..], root, slot), links[0], root, slot);
    }
  }

  ghost function ParentRefs(links: seq<Link>): set<OutRef> {
    set i | 0 <= i < |links| :: links[i].parent.ref
  }

  lemma {:induction false} ParentRefsCons(links: seq<Link>)
    requires links != []
    ensures ParentRefs(links) == ParentRefs(links[1..]) + {links[0].parent.ref}
  {
    forall ref ensures ref in ParentRefs(links) <==> ref in ParentRefs(links[1..]) + {links[0].parent.ref} {
      if ref in ParentRefs(links) && ref != links[0].parent.ref {
        var i :| 0 <= i < |links| && links[i].parent.ref == ref;
        assert links[1..][i - 1].parent.ref == ref;
      }
    }
  }

  lemma {:induction false} LinksValid(r: Repo, links: seq<Link>, root: OutRef, slot: int)
    requires r.Valid()
    ensures WriteLinks(r, links, root, slot).Valid()
  {
    if links != [] {
      LinksValid(r, links[1..], root, slot);
      LinkKeys(WriteLinks(r, links[1..], root, slot), links[0], root, slot);
    }
  }

  /** The written parents are cached and closed; nothing else is opened, closed or forgotten. */
  lemma {:induction false} LinksKeys(r: Repo, links: seq<Link>, root: OutRef, slot: int, id: OutRef)
    requires r.Valid()
    ensures WriteLinks(r, links, root, slot).IsOpen(id) <==> r.IsOpen(id) && id !in ParentRefs(links)
    ensures id in WriteLinks(r, links, root, slot).orders <==> id in r.orders || id in ParentRefs(links)
  {
    if links != [] {
      LinksValid(r, links[1..], root, slot);
      LinksKeys(r, links[1..], root, slot, id);
      LinkKeys(WriteLinks(r, links[1..], root, slot), links[0], root, slot);
      ParentRefsCons(links);
    }
  }

  // ------------------------------------------------------------- backfill

  lemma {:induction false} LinksCloseParents(r: Repo, r': Repo, links: seq<Link>, root: OutRef)
    requires ParentsClosed(r) && r'.lineage == RowsAfter(r.lineage, links, root)
    requires forall id :: r'.IsOpen(id) <==> r.IsOpen(id) && id !in ParentRefs(links)
    ensures ParentsClosed(r')
  {
    forall n | n in r'.lineage ensures !r'.IsOpen(r'.lineage[n].parent) {
      RowsComeFrom(r.lineage, links, root, n);
    }
  }

  lemma {:induction false} LinksCacheParents(r: Repo, r': Repo, links: seq<Link>, root: OutRef)
    requires ParentsCached(r) && r'.lineage == RowsAfter(r.lineage, links, root)
    requires forall id :: id in r'.orders <==> id in r.orders || id in ParentRefs(links)
    ensures ParentsCached(r')
  {
    forall n | n in r'.lineage ensures r'.lineage[n].parent in r'.orders {
      RowsComeFrom(r.lineage, links, root, n);
    }
  }

  /**
   * Reconstructing the ancestry of n keeps the cache true, whatever was recorded;
   * rows already there are not touched.
   */
  lemma {:induction false} WritingTracks(t: Truth, r: Repo, n: OutRef, walk: Walk, slot: int) returns (r': Repo)
    requires Tracks(t, r) && WalkUp(t.up, r.lineage, n, 0) == Some(walk)
    ensures r' == WriteLinks(r, walk.links, walk.root, slot)
    ensures Tracks(t, r') && Extends(r.lineage, r'.lineage) && OrderLinked(t, r', n)
    ensures forall id :: r'.IsOpen(id) ==> r.IsOpen(id)
  {
    r' := WriteLinks(r, walk.links, walk.root, slot);
    RowsWritten(r, walk.links, walk.root, slot);
    WalkRows(t, r.lineage, n, 0, walk);
    WalkLinks(t, r.lineage, n, 0, walk);
    LinksKeepRecords(t, r, walk.links, walk.root, slot);
    LinksShowLineage(t, r, walk.links, walk.root, slot);
    LinksValid(r, walk.links, walk.root, slot);
    forall id ensures r'.IsOpen(id) <==> r.IsOpen(id) && id !in ParentRefs(walk.links)
              ensures id in r'.orders <==> id in r.orders || id in ParentRefs(walk.links) {
      LinksKeys(r, walk.links, walk.root, slot, id);
    }
    LinksCloseParents(r, r', walk.links, walk.root);
    LinksCacheParents(r, r', walk.links, walk.root);
  }

  /** And leaves every order on the way linked to its true origin. */
  lemma {:induction false} WritingLinks(t: Truth, r: Repo, n: OutRef, walk: Walk, slot: int, but: set<OutRef>)
    requires Tracks(t, r) && LinkedBut(t, r, but) && WalkUp(t.up, r.lineage, n, 0) == Some(walk)
    ensures LinkedBut(t, WriteLinks(r, walk.links, walk.root, slot), but - {n})
  {
    var r' := WriteLinks(r, walk.links, walk.root, slot);
    RowsWritten(r, walk.links, walk.root, slot);
    WalkRows(t, r.lineage, n, 0, walk);
    WalkLinks(t, r.lineage, n, 0, walk);
    forall id | id in r'.orders && id !in but - {n} ensures OrderLinked(t, r', id) {
      LinksKeys(r, walk.links, walk.root, slot, id);
    }
  }
}
