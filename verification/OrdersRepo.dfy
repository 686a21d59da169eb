/**
 * The in-memory order cache. Repo is its contents as a value; keys keeps the
 * insertion order a JavaScript Map iterates in.
 */
module OrdersRepo {
  import opened Wrappers
  import opened Orders

  datatype Lineage = Lineage(parent: OutRef, root: OutRef)

  datatype Repo = Repo(
    keys: seq<OutRef>,
    orders: map<OutRef, Order>,
    lineage: map<OutRef, Lineage>,
    cursor: int)
  {
    function WithOrder(o: Order): Repo {
      Repo(if o.ref in orders then keys else keys + [o.ref], orders[o.ref := o], lineage, cursor)
    }

    /** The order marked open, with any lineage already recorded for it. */
    function Upsert(o: Order): Repo {
      var open := o.(status := Open);
      WithOrder(
        if o.ref in lineage
        then open.(parent := Some(lineage[o.ref].parent), root := Some(lineage[o.ref].root))
        else open)
    }

    function MarkSpent(id: OutRef, status: OrderStatus, spentTxHash: Option<string>): Repo {
      if id !in orders then this
      else
        var o := orders[id].(status := status);
        var spent := if spentTxHash.Some? then o.(spentTxHash := spentTxHash) else o;
        Repo(keys, orders[id := spent], lineage, cursor)
    }

    function SetLineage(child: OutRef, parent: OutRef, root: OutRef): Repo {
      Repo(keys,
        if child in orders
        then orders[child := orders[child].(parent := Some(parent), root := Some(root))] else orders,
        lineage[child := Lineage(parent, root)], cursor)
    }

    predicate IsOpen(id: OutRef) {
      id in orders && orders[id].status == Open
    }

    /** Ids of the open orders, in insertion order. */
    function OpenIds(): seq<OutRef> {
      Filter(keys)
    }

    function Filter(ids: seq<OutRef>): seq<OutRef> {
      if ids == [] then []
      else
        var last := ids[|ids| - 1];
        Filter(ids[..|ids| - 1]) + (if IsOpen(last) then [last] else [])
    }

    /** Every order is stored under its own id, and keys lists the map's keys once each. */
    ghost predicate Valid() {
      && (forall k | k in orders :: orders[k].ref == k)
      && (forall k :: k in orders <==> k in keys)
      && (forall i, j | 0 <= i < j < |keys| :: keys[i] != keys[j])
    }

    /** Stored orders show exactly the lineage recorded for them. */
    ghost predicate LineageShown() {
      forall k | k in orders ::
        && orders[k].parent == (if k in lineage then Some(lineage[k].parent) else None)
        && orders[k].root == (if k in lineage then Some(lineage[k].root) else None)
    }
  }

  const EMPTY_REPO := Repo([], map[], map[], 0)

  class MemoryOrdersRepo {
    var keys: seq<OutRef>
    var orders: map<OutRef, Order>
    var lineage: map<OutRef, Lineage>
    var cursor: int

    function State(): Repo
      reads this
    {
      Repo(keys, orders, lineage, cursor)
    }

    constructor ()
      ensures State() == EMPTY_REPO
    {
      keys, orders, lineage, cursor := [], map[], map[], 0;
    }

    method UpsertOpenOrder(order: Order)
      modifies this`keys, this`orders
      ensures State() == old(State()).Upsert(order)
    {
      var stored := order.(status := Open);
      if order.ref in lineage {
        var l := lineage[order.ref];
        stored := stored.(parent := Some(l.parent), root := Some(l.root));
      }
      if order.ref !in orders {
        keys := keys + [order.ref];
      }
      orders := orders[order.ref := stored];
    }

    method MarkSpent(orderId: OutRef, status: OrderStatus, spentTxHash: Option<string>)
      modifies this`orders
      ensures State() == old(State()).MarkSpent(orderId, status, spentTxHash)
    {
      if orderId in orders {
        var o := orders[orderId].(status := status);
        if spentTxHash.Some? {
          o := o.(spentTxHash := spentTxHash);
        }
        orders := orders[orderId := o];
      }
    }

    method SetLineage(child: OutRef, parent: OutRef, root: OutRef)
      modifies this`orders, this`lineage
      ensures State() == old(State()).SetLineage(child, parent, root)
    {
      lineage := lineage[child := Lineage(parent, root)];
      if child in orders {
        orders := orders[child := orders[child].(parent := Some(parent), root := Some(root))];
      }
    }

    method GetLineage(orderId: OutRef) returns (l: Option<Lineage>)
      ensures l == if orderId in lineage then Some(lineage[orderId]) else None
    {
      l := if orderId in lineage then Some(lineage[orderId]) else None;
    }

    method GetOrder(orderId: OutRef) returns (o: Option<Order>)
      ensures o == if orderId in orders then Some(orders[orderId]) else None
    {
      o := if orderId in orders then Some(orders[orderId]) else None;
    }

    method ListOpenOrderIds() returns (ids: seq<OutRef>)
      ensures ids == State().OpenIds()
    {
      ids := [];
      for i := 0 to |keys|
        invariant ids == State().Filter(keys[..i])
      {
        assert keys[..i + 1][..i] == keys[..i];
        var k := keys[i];
        if k in orders && orders[k].status == Open {
          ids := ids + [k];
        }
      }
      assert keys[..|keys|] == keys;
    }

    method SetCursor(slot: int)
      modifies this`cursor
      ensures State() == old(State()).(cursor := slot)
    {
      cursor := slot;
    }
  }

  // ------------------------------------------------------------- proofs

  lemma {:induction false} FilterIsOpen(r: Repo, ids: seq<OutRef>, id: OutRef)
    ensures id in r.Filter(ids) <==> id in ids && r.IsOpen(id)
  {
    if ids != [] {
      FilterIsOpen(r, ids[..|ids| - 1], id);
      assert ids == ids[..|ids| - 1] + [ids[|ids| - 1]];
    }
  }

  lemma {:induction false} FilterOnce(r: Repo, ids: seq<OutRef>)
    requires forall i, j | 0 <= i < j < |ids| :: ids[i] != ids[j]
    ensures forall i, j | 0 <= i < j < |r.Filter(ids)| :: r.Filter(ids)[i] != r.Filter(ids)[j]
  {
    if ids != [] {
      var init, last := ids[..|ids| - 1], ids[|ids| - 1];
      FilterOnce(r, init);
      forall i | 0 <= i < |r.Filter(init)| ensures r.Filter(init)[i] != last {
        FilterIsOpen(r, init, r.Filter(init)[i]);
      }
    }
  }

  /** listOpenOrderIds lists exactly the open orders. */
  lemma {:induction false} OpenIdsAreOpen(r: Repo, id: OutRef)
    requires r.Valid()
    ensures id in r.OpenIds() <==> r.IsOpen(id)
  {
    FilterIsOpen(r, r.keys, id);
  }

  /** And in insertion order. */
  lemma {:induction false} OpenIdsInOrder(r: Repo, ids: seq<OutRef>, i: nat, j: nat) returns (a: nat, b: nat)
    requires i < j < |r.Filter(ids)|
    ensures a < b < |ids| && r.Filter(ids)[i] == ids[a] && r.Filter(ids)[j] == ids[b]
  {
    var n := |ids| - 1;
    if j < |r.Filter(ids[..n])| {
      a, b := OpenIdsInOrder(r, ids[..n], i, j);
    } else {
      b := n;
      a := FilteredAt(r, ids[..n], i);
    }
  }

  lemma {:induction false} FilteredAt(r: Repo, ids: seq<OutRef>, i: nat) returns (a: nat)
    requires i < |r.Filter(ids)|
    ensures a < |ids| && r.Filter(ids)[i] == ids[a]
  {
    var n := |ids| - 1;
    if i < |r.Filter(ids[..n])| {
      a := FilteredAt(r, ids[..n], i);
    } else {
      a := n;
    }
  }

  lemma {:induction false} UpsertValid(r: Repo, o: Order)
    requires r.Valid()
    ensures r.Upsert(o).Valid()
  {
    var open := o.(status := Open);
    WithOrderValid(r,
      if o.ref in r.lineage
      then open.(parent := Some(r.lineage[o.ref].parent), root := Some(r.lineage[o.ref].root))
      else open);
  }

  lemma {:induction false} WithOrderValid(r: Repo, o: Order)
    requires r.Valid()
    ensures r.WithOrder(o).Valid()
  {
    if o.ref !in r.orders {
      KeysSnoc(r.keys, o.ref);
    }
  }

  lemma {:induction false} UpsertOpens(r: Repo, o: Order)
    ensures forall id :: r.Upsert(o).IsOpen(id) <==> r.IsOpen(id) || id == o.ref
    ensures r.Upsert(o).orders.Keys == r.orders.Keys + {o.ref}
  {
    assert r.Upsert(o).orders[o.ref].status == Open;
  }

  /** The three writers keep the repository valid; which orders are open after each. */
  lemma {:induction false} UpsertKeeps(r: Repo, o: Order)
    requires r.Valid()
    ensures r.Upsert(o).Valid()
    ensures forall id :: r.Upsert(o).IsOpen(id) <==> r.IsOpen(id) || id == o.ref
    ensures r.Upsert(o).orders.Keys == r.orders.Keys + {o.ref}
  {
    UpsertValid(r, o);
    UpsertOpens(r, o);
  }

  lemma {:induction false} KeysSnoc(keys: seq<OutRef>, k: OutRef)
    ensures forall x :: x in keys + [k] <==> x in keys || x == k
  {
  }

  lemma {:induction false} MarkSpentKeeps(r: Repo, id: OutRef, status: OrderStatus, spentTxHash: Option<string>)
    requires r.Valid() && status != Open
    ensures r.MarkSpent(id, status, spentTxHash).Valid()
    ensures forall k :: r.MarkSpent(id, status, spentTxHash).IsOpen(k) <==> r.IsOpen(k) && k != id
    ensures r.MarkSpent(id, status, spentTxHash).orders.Keys == r.orders.Keys
  {
  }

  lemma {:induction false} SetLineageKeeps(r: Repo, child: OutRef, parent: OutRef, root: OutRef)
    requires r.Valid()
    ensures r.SetLineage(child, parent, root).Valid()
    ensures forall k :: r.SetLineage(child, parent, root).IsOpen(k) <==> r.IsOpen(k)
    ensures r.SetLineage(child, parent, root).orders.Keys == r.orders.Keys
  {
  }

  /** No record but id's is touched. */
  ghost predicate OnlyTouches(r: Repo, r': Repo, id: OutRef) {
    forall k | k in r.orders && k != id :: k in r'.orders && r'.orders[k] == r.orders[k]
  }

  /**
   * Each writer changes one record and in it only what it is for: caching stores the order
   * as given, marking changes its status and, if one is given, the spending transaction,
   * linking its parent and root; rows and cursor change by linking only.
   */
  lemma {:induction false} WritersTouchOne(r: Repo, o: Order, id: OutRef, status: OrderStatus, tx: Option<string>, parent: OutRef, root: OutRef)
    ensures var up := r.Upsert(o);
      && OnlyTouches(r, up, o.ref) && up.lineage == r.lineage && up.cursor == r.cursor && r.keys <= up.keys
      && o.ref in up.orders && var stored := up.orders[o.ref];
         stored.(parent := o.parent, root := o.root) == o.(status := Open)
    ensures var marked := r.MarkSpent(id, status, tx);
      && OnlyTouches(r, marked, id) && marked.lineage == r.lineage && marked.cursor == r.cursor && marked.keys == r.keys
      && (id in r.orders ==>
            && id in marked.orders
            && marked.orders[id] == r.orders[id].(status := status, spentTxHash := if tx.None? then r.orders[id].spentTxHash else tx))
    ensures var linked := r.SetLineage(id, parent, root);
      && OnlyTouches(r, linked, id) && linked.cursor == r.cursor && linked.keys == r.keys
      && linked.lineage == r.lineage[id := Lineage(parent, root)]
      && (id in r.orders ==>
            && id in linked.orders
            && linked.orders[id].(parent := None, root := None) == r.orders[id].(parent := None, root := None))
  {
  }

  /** They also keep every stored order showing exactly the lineage row recorded for it. */
  lemma {:induction false} UpsertShowsLineage(r: Repo, o: Order)
    requires r.LineageShown() && o.parent == None && o.root == None
    ensures r.Upsert(o).LineageShown()
  {
  }

  lemma {:induction false} MarkSpentShowsLineage(r: Repo, id: OutRef, status: OrderStatus, spentTxHash: Option<string>)
    requires r.LineageShown()
    ensures r.MarkSpent(id, status, spentTxHash).LineageShown()
  {
  }

  lemma {:induction false} SetLineageShowsLineage(r: Repo, child: OutRef, parent: OutRef, root: OutRef)
    requires r.LineageShown()
    ensures r.SetLineage(child, parent, root).LineageShown()
  {
  }
}
