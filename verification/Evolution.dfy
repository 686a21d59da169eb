/**
 * The whole system as a state machine, the chain and the cache side by side, and what
 * holds in every state of every run from an unused chain and the empty cache.
 */
module Evolution {
  import opened Wrappers
  import opened Sequences
  import opened Orders
  import opened Ledger
  import opened TxBuilder
  import opened TxBuilderProofs
  import opened ChainModel
  import opened OrdersRepo
  import opened Indexer
  import opened SyncProofs
  import opened Ancestry
  import opened Runs
  import opened Lineages

  datatype State = State(world: World, cache: Repo)

  ghost predicate Initial(proto: Protocol, s: State) {
    IsGenesis(proto, s.world) && s.cache == EMPTY_REPO
  }

  datatype Event =
    | Posted(action: Action, now: int, posting: Posting)
    | Synced(snapshot: Snapshot, confirmations: int)
    | Repaired(snapshot: Snapshot)

  /** A chain transaction, or the indexer at work on a snapshot of the current chain. */
  ghost predicate Next(proto: Protocol, s: State, e: Event, s': State) {
    match e
    case Posted(action, now, posting) =>
      ChainStep(proto, s.world, action, now, posting, s'.world) && s'.cache == s.cache
    case Synced(snapshot, confirmations) =>
      && snapshot.chain == s.world.chain && Consistent(proto, snapshot)
      && s' == s.(cache := SyncPass(proto, snapshot, confirmations, s.cache).repo)
    case Repaired(snapshot) =>
      && snapshot.chain == s.world.chain
      && s' == s.(cache := RepairAll(proto, snapshot, Repair(s.cache, 0, 0), s.cache.OpenIds()).repo)
  }

  ghost predicate StepAt(proto: Protocol, states: seq<State>, events: seq<Event>, i: nat) {
    i < |events| && |states| == |events| + 1 && Next(proto, states[i], events[i], states[i + 1])
  }

  ghost predicate Run(proto: Protocol, states: seq<State>, events: seq<Event>) {
    && |states| == |events| + 1 && Initial(proto, states[0])
    && forall i: nat | i < |events| :: StepAt(proto, states, events, i)
  }

  /** No reconstruction the event starts faces 64 or more unrecorded ancestors. */
  ghost predicate ShallowNow(proto: Protocol, s: State, e: Event)
    requires Sound(proto, s.world)
  {
    TruthIsCoherent(proto, s.world);
    Shallow(TruthOf(proto, s.world), FacedBy(proto, e), s.cache.lineage)
  }

  /** The orders an event may start a reconstruction from; a repair of a complete cache meets none that matters. */
  ghost function FacedBy(proto: Protocol, e: Event): iset<OutRef> {
    match e
    case Synced(snapshot, confirmations) => Faced(proto, snapshot, confirmations)
    case _ => iset{}
  }

  ghost predicate LinkedNow(proto: Protocol, s: State)
    requires Sound(proto, s.world)
  {
    TruthIsCoherent(proto, s.world);
    Linked(TruthOf(proto, s.world), s.cache)
  }

  ghost predicate Truthful(proto: Protocol, s: State) {
    && Sound(proto, s.world) && TermsKept(proto, s.world)
    && Tracks(TruthOf(proto, s.world), s.cache)
  }

  lemma {:induction false} InitiallyTruthful(proto: Protocol, s: State)
    requires Initial(proto, s)
    ensures Truthful(proto, s) && LinkedNow(proto, s)
  {
    GenesisIsSound(proto, s.world);
    TruthIsCoherent(proto, s.world);
  }

  lemma {:induction false} PostingKeeps(proto: Protocol, s: State, e: Event, s': State)
    requires ConfigOk(proto) && e.Posted? && Next(proto, s, e, s') && Truthful(proto, s)
    ensures Truthful(proto, s') && (LinkedNow(proto, s) ==> LinkedNow(proto, s'))
  {
    StepKeepsSound(proto, s.world, e.action, e.now, e.posting, s'.world);
    StepKeepsTerms(proto, s.world, e.action, e.now, e.posting, s'.world);
    TruthIsCoherent(proto, s'.world);
    LaterIsGrown(proto, s.world, s'.world);
    GrowthTracks(TruthOf(proto, s.world), TruthOf(proto, s'.world), s.cache);
  }

  lemma {:induction false} IndexingKeeps(proto: Protocol, s: State, e: Event, s': State)
    requires !e.Posted? && Next(proto, s, e, s') && Truthful(proto, s)
    ensures s'.world == s.world && Kept(TruthOf(proto, s.world), FacedBy(proto, e), s.cache, s'.cache)
  {
    match e
    case Synced(snapshot, confirmations) => SyncTracks(proto, s.world, snapshot, confirmations, s.cache);
    case Repaired(snapshot) =>
      RepairTracks(proto, s.world, snapshot, Repair(s.cache, 0, 0), s.cache.OpenIds());
  }

  /** One event keeps everything, and no lineage row is ever rewritten. */
  lemma {:induction false} EventKeeps(proto: Protocol, s: State, e: Event, s': State)
    requires ConfigOk(proto) && Next(proto, s, e, s') && Truthful(proto, s)
    ensures Truthful(proto, s') && Extends(s.cache.lineage, s'.cache.lineage)
    ensures LinkedNow(proto, s) && ShallowNow(proto, s, e) ==> LinkedNow(proto, s')
  {
    if e.Posted? {
      PostingKeeps(proto, s, e, s');
    } else {
      IndexingKeeps(proto, s, e, s');
    }
  }

  /**
   * In every state of every run the chain reads back as the builder meant it, and
   * the cache tells nothing but the truth about terms, fates, parents and ancestors.
   */
  lemma {:induction false} EveryStateTruthful(proto: Protocol, states: seq<State>, events: seq<Event>, i: nat)
    requires ConfigOk(proto) && Run(proto, states, events) && i < |states|
    ensures Truthful(proto, states[i])
  {
    if i == 0 {
      InitiallyTruthful(proto, states[0]);
    } else {
      EveryStateTruthful(proto, states, events, i - 1);
      assert StepAt(proto, states, events, i - 1);
      EventKeeps(proto, states[i - 1], events[i - 1], states[i]);
    }
  }

  lemma {:induction false} StepExtendsRows(proto: Protocol, states: seq<State>, events: seq<Event>, i: nat)
    requires ConfigOk(proto) && Run(proto, states, events) && i < |events|
    ensures Extends(states[i].cache.lineage, states[i + 1].cache.lineage)
  {
    EveryStateTruthful(proto, states, events, i);
    assert StepAt(proto, states, events, i);
    EventKeeps(proto, states[i], events[i], states[i + 1]);
  }

  lemma {:induction false} ExtendsTwice(a: map<OutRef, Lineage>, b: map<OutRef, Lineage>, c: map<OutRef, Lineage>)
    requires Extends(a, b) && Extends(b, c)
    ensures Extends(a, c)
  {
  }

  /** A lineage row, whichever writer wrote it, is never changed again. */
  lemma {:induction false} RowsAreFinal(proto: Protocol, states: seq<State>, events: seq<Event>, i: nat, j: nat)
    requires ConfigOk(proto) && Run(proto, states, events) && i <= j < |states|
    ensures Extends(states[i].cache.lineage, states[j].cache.lineage)
    decreases j - i
  {
    if i < j {
      RowsAreFinal(proto, states, events, i, j - 1);
      StepExtendsRows(proto, states, events, j - 1);
      ExtendsTwice(states[i].cache.lineage, states[j - 1].cache.lineage, states[j].cache.lineage);
    }
  }

  /** The rows are edges of disjoint paths without cycles: true, one child per parent, always forward. */
  lemma {:induction false} RowsFormPaths(proto: Protocol, states: seq<State>, events: seq<Event>, i: nat, a: OutRef, b: OutRef)
    requires ConfigOk(proto) && Run(proto, states, events) && i < |states|
    requires a in states[i].cache.lineage && b in states[i].cache.lineage
    ensures var w, lineage := states[i].world, states[i].cache.lineage;
      && IsFill(w, lineage[a].parent, a)
      && (lineage[a].parent == lineage[b].parent ==> a == b)
      && Rank(w.chain, lineage[a].parent) < Rank(w.chain, a)
  {
    EveryStateTruthful(proto, states, events, i);
    var t := TruthOf(proto, states[i].world);
    var lineage := states[i].cache.lineage;
    assert RowTrue(t, a, lineage[a]) && RowTrue(t, b, lineage[b]);
    assert FillFate(t, a) && FillFate(t, b);
  }

  /** No pass of the run faced a reconstruction it had to give up. */
  ghost predicate ShallowRun(proto: Protocol, states: seq<State>, events: seq<Event>)
    requires Run(proto, states, events)
  {
    forall k: nat | k < |events| :: Sound(proto, states[k].world) ==> ShallowNow(proto, states[k], events[k])
  }

  ghost predicate SoundAndLinked(proto: Protocol, s: State) {
    Sound(proto, s.world) && LinkedNow(proto, s)
  }

  /** Whether the state at an index is sound and its cache shows every recorded link. */
  ghost function LinkedAt(proto: Protocol, states: seq<State>): nat -> bool {
    (i: nat) => i < |states| ==> SoundAndLinked(proto, states[i])
  }

  lemma {:induction false} LinkedCarriesOver(proto: Protocol, states: seq<State>, events: seq<Event>, i: nat)
    requires ConfigOk(proto) && Run(proto, states, events) && ShallowRun(proto, states, events) && i < |events|
    ensures CarriesOver(LinkedAt(proto, states), i)
  {
    if SoundAndLinked(proto, states[i]) {
      EveryStateTruthful(proto, states, events, i);
      assert StepAt(proto, states, events, i);
      EventKeeps(proto, states[i], events[i], states[i + 1]);
    }
  }

  lemma {:induction false} EveryStateLinked(proto: Protocol, states: seq<State>, events: seq<Event>, i: nat)
    requires ConfigOk(proto) && Run(proto, states, events) && ShallowRun(proto, states, events) && i < |states|
    ensures SoundAndLinked(proto, states[i])
  {
    InitiallyTruthful(proto, states[0]);
    forall k: nat | k < i ensures CarriesOver(LinkedAt(proto, states), k) {
      LinkedCarriesOver(proto, states, events, k);
    }
    Climb(LinkedAt(proto, states), i);
  }

  /** What a cached order should say about where it came from. */
  ghost predicate ShowsAncestry(t: Truth, id: OutRef, o: Order)
    requires Descends(t)
  {
    if t.up(id).Some? then o.parent == Some(t.up(id).value.ref) && o.root == Some(Origin(t, id))
    else o.parent == None && o.root == None
  }

  lemma {:induction false} LinkedShowsAncestry(t: Truth, r: Repo, id: OutRef)
    requires Tracks(t, r) && Linked(t, r) && id in r.orders
    ensures ShowsAncestry(t, id, r.orders[id])
  {
    assert OrderLinked(t, r, id);
    if id in r.lineage {
      assert RowTrue(t, id, r.lineage[id]);
    }
  }

  /**
   * While no pass faces 64 or more unrecorded ancestors, every cached continuation
   * shows its true parent and its true origin, and every other order shows none.
   */
  lemma {:induction false} AncestryIsShown(proto: Protocol, states: seq<State>, events: seq<Event>, i: nat, id: OutRef)
    requires ConfigOk(proto) && Run(proto, states, events) && ShallowRun(proto, states, events)
    requires i < |states| && id in states[i].cache.orders
    ensures Coherent(TruthOf(proto, states[i].world))
    ensures ShowsAncestry(TruthOf(proto, states[i].world), id, states[i].cache.orders[id])
  {
    EveryStateTruthful(proto, states, events, i);
    EveryStateLinked(proto, states, events, i);
    LinkedShowsAncestry(TruthOf(proto, states[i].world), states[i].cache, id);
  }

  /**
   * Right after a pass every cached order is open exactly when it is live, and
   * otherwise carries the fate the builder meant for it and the transaction of it.
   */
  lemma {:induction false} SyncShowsFates(proto: Protocol, states: seq<State>, events: seq<Event>, i: nat, id: OutRef)
    requires ConfigOk(proto) && Run(proto, states, events) && i < |events| && events[i].Synced?
    requires id in states[i + 1].cache.orders
    ensures var w, o := states[i + 1].world, states[i + 1].cache.orders[id];
      && Some(Terms(o)) == OrderAt(proto, w.chain, id)
      && (o.status == Open ==> LiveOrderAt(proto, w.chain, id).Some? && id !in w.fate)
      && (o.status != Open ==> id in w.fate && o.status == w.fate[id].status && o.spentTxHash == w.fate[id].txHash)
  {
    EveryStateTruthful(proto, states, events, i);
    EveryStateTruthful(proto, states, events, i + 1);
    var w, r := states[i + 1].world, states[i + 1].cache;
    assert StepAt(proto, states, events, i);
    assert RecordTrue(TruthOf(proto, w), id, r.orders[id]);
    if r.orders[id].status == Open {
      SyncOpensExactly(proto, events[i].snapshot, events[i].confirmations, states[i].cache, id);
      LiveIsUnfated(proto, w, id);
    }
  }

  /** The limit is exact: an ancestry is reconstructed if and only if fewer than 64 links are missing. */
  lemma {:induction false} ReconstructionLimit(proto: Protocol, w: World, r: Repo, n: OutRef, slot: int)
    requires Sound(proto, w) && Tracks(TruthOf(proto, w), r)
    ensures var t := TruthOf(proto, w);
      Unrecorded(t, r.lineage, n) >= 64 ==> Backfill(proto, w.chain, r, n, slot) == r
    ensures var t := TruthOf(proto, w);
      Unrecorded(t, r.lineage, n) < 64 && t.up(n).Some? ==> n in Backfill(proto, w.chain, r, n, slot).lineage
  {
    var t := TruthOf(proto, w);
    WalkEnds(t, r.lineage, n, 0);
    var walk := WalkUp(t.up, r.lineage, n, 0);
    if walk.Some? {
      var r' := WritingTracks(t, r, n, walk.value, slot);
      assert OrderLinked(t, r', n);
    }
  }
}
