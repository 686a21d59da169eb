/**
 * What a repair achieves: every open order it comes to with fewer than 64 unrecorded
 * ancestors ends with its true row, orders that allow no partial fill have nothing to
 * gain, and the two counters count what was looked at and what was recovered.
 */
module Repairs {
  import opened Wrappers
  import opened Sequences
  import opened Orders
  import opened Ledger
  import opened ChainModel
  import opened OrdersRepo
  import opened Indexer
  import opened SyncProofs
  import opened Ancestry
  import opened Runs
  import opened Lineages
  import opened FillChains
  import opened Evolution

  /** The repair when turn k comes: the ids before it have had theirs. */
  function Before(proto: Protocol, s: Snapshot, r: Repo, ids: seq<OutRef>, k: nat): Repair
    requires k <= |ids|
  {
    RepairAll(proto, s, Repair(r, 0, 0), ids[..k])
  }

  function Repaired(proto: Protocol, s: Snapshot, r: Repo): Repair {
    RepairAll(proto, s, Repair(r, 0, 0), r.OpenIds())
  }

  lemma {:induction false} AfterLast(proto: Protocol, s: Snapshot, r: Repo, ids: seq<OutRef>)
    ensures Before(proto, s, r, ids, |ids|) == RepairAll(proto, s, Repair(r, 0, 0), ids)
  {
    assert ids[..|ids|] == ids;
  }

  lemma {:induction false} NextTurn(proto: Protocol, s: Snapshot, r: Repo, ids: seq<OutRef>, k: nat)
    requires k < |ids|
    ensures Before(proto, s, r, ids, k + 1) == RepairOne(proto, s, Before(proto, s, r, ids, k), ids[k])
  {
    PrefixStep(ids, k);
  }

  lemma {:induction false} RepairAppends(proto: Protocol, s: Snapshot, st: Repair, a: seq<OutRef>, b: seq<OutRef>)
    ensures RepairAll(proto, s, st, a + b) == RepairAll(proto, s, RepairAll(proto, s, st, a), b)
  {
    if b == [] {
      assert a + b == a;
    } else {
      var n := |b| - 1;
      RepairAppends(proto, s, st, a, b[..n]);
      assert (a + b)[..|a + b| - 1] == a + b[..n];
    }
  }

  lemma {:induction false} RestOfTurns(proto: Protocol, s: Snapshot, r: Repo, ids: seq<OutRef>, k: nat)
    requires k <= |ids|
    ensures RepairAll(proto, s, Repair(r, 0, 0), ids) == RepairAll(proto, s, Before(proto, s, r, ids, k), ids[k..])
  {
    RepairAppends(proto, s, Repair(r, 0, 0), ids[..k], ids[k..]);
    assert ids[..k] + ids[k..] == ids;
  }

  lemma {:induction false} TurnTracks(proto: Protocol, w: World, s: Snapshot, r: Repo, ids: seq<OutRef>, k: nat)
    requires Sound(proto, w) && s.chain == w.chain && Tracks(TruthOf(proto, w), r) && k <= |ids|
    ensures var before := Before(proto, s, r, ids, k).repo;
      Tracks(TruthOf(proto, w), before) && Extends(r.lineage, before.lineage)
  {
    RepairTracks(proto, w, s, Repair(r, 0, 0), ids[..k]);
  }

  /** Rows written by one turn are kept by all later ones. */
  lemma {:induction false} LaterTurnsKeepRows(proto: Protocol, w: World, s: Snapshot, r: Repo, ids: seq<OutRef>, k: nat)
    requires Sound(proto, w) && s.chain == w.chain && Tracks(TruthOf(proto, w), r) && k <= |ids|
    ensures Extends(Before(proto, s, r, ids, k).repo.lineage, RepairAll(proto, s, Repair(r, 0, 0), ids).repo.lineage)
  {
    TurnTracks(proto, w, s, r, ids, k);
    RestOfTurns(proto, s, r, ids, k);
    RepairTracks(proto, w, s, Before(proto, s, r, ids, k), ids[k..]);
  }

  // --------------------------------------------------- orders stay as cached

  lemma {:induction false} BackfillForgetsNothing(proto: Protocol, c: Chain, r: Repo, n: OutRef, slot: int, id: OutRef)
    requires r.Valid() && id in r.orders
    ensures id in Backfill(proto, c, r, n, slot).orders
  {
    var walk := WalkUp(Parents(proto, c), r.lineage, n, 0);
    if walk.Some? {
      LinksKeys(r, walk.value.links, walk.value.root, slot, id);
    }
  }

  lemma {:induction false} OneForgetsNothing(proto: Protocol, s: Snapshot, st: Repair, last: OutRef, id: OutRef)
    requires s.chain.SpendsRecorded() && st.repo.Valid() && id in st.repo.orders
    ensures RepairOne(proto, s, st, last).repo.Valid() && id in RepairOne(proto, s, st, last).repo.orders
  {
    if last in st.repo.orders {
      BackfillCloses(proto, s.chain, st.repo, st.repo.orders[last].ref, s.tip.slot);
      BackfillForgetsNothing(proto, s.chain, st.repo, st.repo.orders[last].ref, s.tip.slot, id);
    }
  }

  lemma {:induction false} RepairForgetsNothing(proto: Protocol, s: Snapshot, st: Repair, ids: seq<OutRef>, id: OutRef)
    requires s.chain.SpendsRecorded() && st.repo.Valid() && id in st.repo.orders
    ensures RepairAll(proto, s, st, ids).repo.Valid() && id in RepairAll(proto, s, st, ids).repo.orders
  {
    if ids != [] {
      var init, last := ids[..|ids| - 1], ids[|ids| - 1];
      RepairForgetsNothing(proto, s, st, init, id);
      OneForgetsNothing(proto, s, RepairAll(proto, s, st, init), last, id);
    }
  }

  lemma {:induction false} SameFlag(t: Truth, r: Repo, r': Repo, id: OutRef)
    requires Tracks(t, r) && Tracks(t, r') && id in r.orders && id in r'.orders
    ensures r'.orders[id].ref == id && r'.orders[id].allowPartialFill == r.orders[id].allowPartialFill
  {
    assert RecordTrue(t, id, r.orders[id]) && RecordTrue(t, id, r'.orders[id]);
    assert Terms(r.orders[id]).allowPartialFill == r.orders[id].allowPartialFill;
    assert Terms(r'.orders[id]).allowPartialFill == r'.orders[id].allowPartialFill;
  }

  /** The record a turn reads: the order's own, with the flag it was first cached with. */
  lemma {:induction false} RecordAtTurn(proto: Protocol, w: World, s: Snapshot, r: Repo, ids: seq<OutRef>, k: nat, id: OutRef)
    requires Sound(proto, w) && s.chain == w.chain && Tracks(TruthOf(proto, w), r) && k <= |ids| && id in r.orders
    ensures var before := Before(proto, s, r, ids, k).repo;
      && id in before.orders && before.orders[id].ref == id
      && before.orders[id].allowPartialFill == r.orders[id].allowPartialFill
  {
    TurnTracks(proto, w, s, r, ids, k);
    RepairForgetsNothing(proto, s, Repair(r, 0, 0), ids[..k], id);
    SameFlag(TruthOf(proto, w), r, Before(proto, s, r, ids, k).repo, id);
  }

  // ------------------------------------------------------- who has a parent

  /** Skipping orders that allow no partial fill loses nothing: none of them has a parent. */
  lemma {:induction false} OnlyPartialsHaveParents(proto: Protocol, w: World, r: Repo, id: OutRef)
    requires Sound(proto, w) && TermsKept(proto, w) && Tracks(TruthOf(proto, w), r) && id in r.orders
    ensures TruthOf(proto, w).up(id).Some? ==> r.orders[id].allowPartialFill
  {
    var t := TruthOf(proto, w);
    TermsAreChained(proto, w);
    assert RecordTrue(t, id, r.orders[id]);
    assert Terms(r.orders[id]).allowPartialFill == r.orders[id].allowPartialFill;
    if t.up(id).Some? {
      assert KeepsTerms(t.up(id).value, t.at(id).value);
    }
  }

  // ---------------------------------------------------------- rows restored

  /** What one turn does to an order cached under its own id. */
  lemma {:induction false} OneRepairs(proto: Protocol, s: Snapshot, st: Repair, id: OutRef)
    requires id in st.repo.orders && st.repo.orders[id].ref == id
    ensures var looks := st.repo.orders[id].allowPartialFill && id !in st.repo.lineage;
      var after := if looks then Backfill(proto, s.chain, st.repo, id, s.tip.slot) else st.repo;
      RepairOne(proto, s, st, id) == Repair(after, st.checked + (if looks then 1 else 0),
                                            st.repaired + (if looks && id in after.lineage then 1 else 0))
  {
  }

  lemma {:induction false} TurnWritesRow(proto: Protocol, w: World, s: Snapshot, r: Repo, ids: seq<OutRef>, k: nat)
    requires Sound(proto, w) && TermsKept(proto, w) && s.chain == w.chain && Tracks(TruthOf(proto, w), r)
    requires k < |ids| && ids[k] in r.orders && TruthOf(proto, w).up(ids[k]).Some?
    requires Unrecorded(TruthOf(proto, w), Before(proto, s, r, ids, k).repo.lineage, ids[k]) < 64
    ensures ids[k] in Before(proto, s, r, ids, k + 1).repo.lineage
  {
    OnlyPartialsHaveParents(proto, w, r, ids[k]);
    RecordAtTurn(proto, w, s, r, ids, k, ids[k]);
    NextTurn(proto, s, r, ids, k);
    OneRepairs(proto, s, Before(proto, s, r, ids, k), ids[k]);
    TurnTracks(proto, w, s, r, ids, k);
    ReconstructionLimit(proto, w, Before(proto, s, r, ids, k).repo, ids[k], s.tip.slot);
  }

  /** The order has a row that names its true parent. */
  ghost predicate HasTrueRow(t: Truth, r: Repo, id: OutRef) {
    id in r.lineage && t.up(id).Some? && r.lineage[id].parent == t.up(id).value.ref
  }

  lemma {:induction false} RowIsTrue(t: Truth, r: Repo, id: OutRef)
    requires Tracks(t, r) && id in r.lineage
    ensures HasTrueRow(t, r, id)
  {
    assert RowTrue(t, id, r.lineage[id]);
  }

  lemma {:induction false} RowStays(proto: Protocol, w: World, s: Snapshot, r: Repo, ids: seq<OutRef>, k: nat, id: OutRef)
    requires Sound(proto, w) && s.chain == w.chain && Tracks(TruthOf(proto, w), r)
    requires k <= |ids| && id in Before(proto, s, r, ids, k).repo.lineage
    ensures HasTrueRow(TruthOf(proto, w), RepairAll(proto, s, Repair(r, 0, 0), ids).repo, id)
  {
    LaterTurnsKeepRows(proto, w, s, r, ids, k);
    RepairTracks(proto, w, s, Repair(r, 0, 0), ids);
    RowIsTrue(TruthOf(proto, w), RepairAll(proto, s, Repair(r, 0, 0), ids).repo, id);
  }

  /**
   * After a repair every order that was open, has a parent on the chain, and had fewer
   * than 64 unrecorded ancestors when its turn came (so also if it had before the repair)
   * has a row, and the row names its true parent.
   */
  lemma {:induction false} RepairRestoresRows(proto: Protocol, w: World, s: Snapshot, r: Repo, k: nat)
    requires Sound(proto, w) && TermsKept(proto, w) && s.chain == w.chain && Tracks(TruthOf(proto, w), r)
    requires k < |r.OpenIds()|
    ensures var t, id := TruthOf(proto, w), r.OpenIds()[k];
      var before := Before(proto, s, r, r.OpenIds(), k).repo.lineage;
      && r.IsOpen(id) && Unrecorded(t, before, id) <= Unrecorded(t, r.lineage, id)
      && (t.up(id).Some? && Unrecorded(t, before, id) < 64 ==> HasTrueRow(t, Repaired(proto, s, r).repo, id))
  {
    var t, ids, id := TruthOf(proto, w), r.OpenIds(), r.OpenIds()[k];
    OpenIdsAreOpen(r, id);
    TurnTracks(proto, w, s, r, ids, k);
    RecordingHelps(t, r.lineage, Before(proto, s, r, ids, k).repo.lineage, id);
    if t.up(id).Some? && Unrecorded(t, Before(proto, s, r, ids, k).repo.lineage, id) < 64 {
      TurnWritesRow(proto, w, s, r, ids, k);
      RowStays(proto, w, s, r, ids, k + 1, id);
    }
  }

  // -------------------------------------------------------------- the counts

  /** The repair when each turn comes. */
  ghost function Turns(proto: Protocol, s: Snapshot, r: Repo, ids: seq<OutRef>): nat -> Repair {
    (k: nat) => if k <= |ids| then Before(proto, s, r, ids, k) else Repair(r, 0, 0)
  }

  /** Which turns find an order that allows partial fills and has no row. */
  ghost function NoRow(r: Repo, ids: seq<OutRef>, turns: nat -> Repair): nat -> bool {
    (i: nat) => i < |ids| && ids[i] in r.orders && r.orders[ids[i]].allowPartialFill && ids[i] !in turns(i).repo.lineage
  }

  /** And which of them leave it with one. */
  ghost function GainsRow(r: Repo, ids: seq<OutRef>, turns: nat -> Repair): nat -> bool {
    (i: nat) => NoRow(r, ids, turns)(i) && ids[i] in turns(i + 1).repo.lineage
  }

  /** The counters after the first k turns. */
  ghost predicate CountsTurns(r: Repo, ids: seq<OutRef>, turns: nat -> Repair, st: Repair, k: nat) {
    st.checked == |Below(NoRow(r, ids, turns), k)| && st.repaired == |Below(GainsRow(r, ids, turns), k)|
  }

  /** What one turn adds to them. */
  ghost predicate TurnAdds(r: Repo, id: OutRef, before: Repair, after: Repair)
    requires id in r.orders
  {
    var looks := r.orders[id].allowPartialFill && id !in before.repo.lineage;
    && after.checked == before.checked + (if looks then 1 else 0)
    && after.repaired == before.repaired + (if looks && id in after.repo.lineage then 1 else 0)
  }

  lemma {:induction false} OneAdds(proto: Protocol, s: Snapshot, r: Repo, before: Repair, after: Repair, id: OutRef)
    requires id in r.orders && id in before.repo.orders && before.repo.orders[id].ref == id
    requires before.repo.orders[id].allowPartialFill == r.orders[id].allowPartialFill
    requires after == RepairOne(proto, s, before, id)
    ensures TurnAdds(r, id, before, after)
  {
    OneRepairs(proto, s, before, id);
  }

  lemma {:induction false} EachTurnAdds(proto: Protocol, w: World, s: Snapshot, r: Repo, ids: seq<OutRef>, k: nat)
    requires Sound(proto, w) && s.chain == w.chain && Tracks(TruthOf(proto, w), r) && k < |ids| && ids[k] in r.orders
    ensures TurnAdds(r, ids[k], Before(proto, s, r, ids, k), Before(proto, s, r, ids, k + 1))
  {
    RecordAtTurn(proto, w, s, r, ids, k, ids[k]);
    NextTurn(proto, s, r, ids, k);
    OneAdds(proto, s, r, Before(proto, s, r, ids, k), Before(proto, s, r, ids, k + 1), ids[k]);
  }

  ghost function CountsAt(r: Repo, ids: seq<OutRef>, turns: nat -> Repair): nat -> bool {
    (k: nat) => CountsTurns(r, ids, turns, turns(k), k)
  }

  lemma {:induction false} NextTurnCounts(r: Repo, ids: seq<OutRef>, turns: nat -> Repair, k: nat)
    requires k < |ids| && ids[k] in r.orders && TurnAdds(r, ids[k], turns(k), turns(k + 1))
    ensures CarriesOver(CountsAt(r, ids, turns), k)
  {
    OneMoreBelow(NoRow(r, ids, turns), k);
    OneMoreBelow(GainsRow(r, ids, turns), k);
  }

  lemma {:induction false} TurnsAreCounted(r: Repo, ids: seq<OutRef>, turns: nat -> Repair)
    requires turns(0) == Repair(r, 0, 0)
    requires forall i | 0 <= i < |ids| :: ids[i] in r.orders && TurnAdds(r, ids[i], turns(i), turns(i + 1))
    ensures CountsTurns(r, ids, turns, turns(|ids|), |ids|)
  {
    assert Below(NoRow(r, ids, turns), 0) == {} && Below(GainsRow(r, ids, turns), 0) == {};
    forall k: nat | k < |ids| ensures CarriesOver(CountsAt(r, ids, turns), k) {
      NextTurnCounts(r, ids, turns, k);
    }
    Climb(CountsAt(r, ids, turns), |ids|);
  }

  /** What a repair reports: the turns that found an open partial-fill order without a row, and those that left it with one. */
  lemma {:induction false} RepairCountsTurns(proto: Protocol, w: World, s: Snapshot, r: Repo)
    requires Sound(proto, w) && s.chain == w.chain && Tracks(TruthOf(proto, w), r)
    ensures var ids := r.OpenIds();
      CountsTurns(r, ids, Turns(proto, s, r, ids), Repaired(proto, s, r), |ids|)
  {
    var ids := r.OpenIds();
    var turns := Turns(proto, s, r, ids);
    forall i | 0 <= i < |ids| ensures ids[i] in r.orders && TurnAdds(r, ids[i], turns(i), turns(i + 1)) {
      OpenIdsAreOpen(r, ids[i]);
      EachTurnAdds(proto, w, s, r, ids, i);
    }
    TurnsAreCounted(r, ids, turns);
    AfterLast(proto, s, r, ids);
  }
}
