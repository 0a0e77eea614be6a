/** The cached FAISS states of one store and their background publication
    (searchkernel/indices/faiss_local.py). Every method below is one step that runs under the store's locks, so a
    call sequence in any order is an interleaving of queries, refreshes, flushes and writer threads. Indexes are
    shared, mutable objects: a refreshed state and every snapshot queued before it name the same index. */
module FaissCache {
  import opened Base
  import opened VectorFilter
  import opened FaissRefresh

  datatype Namespace = Namespace(model: string, dim: nat)

  const PERSIST_INTERVAL_SECONDS := 300
  const PERSIST_PENDING_VECTORS := 25_000

  /** When one artifact was last asked for, and how many vectors it is missing. */
  datatype Debounce = Debounce(lastWrite: int, pendingVectors: nat)

  /** A published generation: the metadata of one state beside the index bytes it names. */
  datatype Manifest = Manifest(
    epoch: nat,
    ids: seq<int>,
    keys: seq<string>,
    active: set<int>,
    revisions: Option<map<int, string>>,
    bytes: seq<Entry>)
  {
    ghost predicate Faithful() {
      revisions.Some? ==> Describes(revisions.value, bytes)
    }
  }

  /** Where one writer thread stands between two critical sections. */
  datatype Phase =
    | Scheduled
    | Looping
    | Writing(key: Namespace, state: FaissState, mutations: nat)
    | Serialized(key: Namespace, state: FaissState, bytes: seq<Entry>)
    | Finishing(key: Namespace, state: FaissState, written: bool)
    | Exiting
    | Finished
  {
    /** The thread will look at the queue again. */
    predicate Draining() { !Exiting? && !Finished? }
  }

  /** What one refresh sees of the outside: two reads of the store, three readings of its vector epoch, the clock,
      whether the published files can be read, and whether a writer thread can be started. */
  datatype Outside = Outside(
    epoch: nat,
    rows: seq<StoredVector>,
    embeddings: map<string, string>,
    epochAfterUpdate: nat,
    epochAfterBuild: nat,
    now: int,
    readable: bool,
    canSchedule: bool)
  {
    ghost predicate Lawful() {
      DistinctKeys(rows) && (epochAfterUpdate == epoch ==> Unmoved(rows, embeddings))
    }
  }

  function Count(mutations: map<Namespace, nat>, key: Namespace): nat {
    if key in mutations then mutations[key] else 0
  }

  /** The state serves this namespace, and its metadata describes its index as the index is now. */
  ghost predicate SoundState(owner: map<ResidentIndex, Namespace>, decode: Decode, key: Namespace, s: FaissState)
    reads s.index
  {
    s.index in owner && owner[s.index] == key && s.Consistent() && s.Carried(decode)
  }

  ghost predicate SoundStates(
    owner: map<ResidentIndex, Namespace>, decode: Decode, states: map<Namespace, FaissState>, touched: set<Namespace>)
    reads owner.Keys
  {
    forall k :: k in states ==> states[k].index in owner && (k in touched || SoundState(owner, decode, k, states[k]))
  }

  /** A writer's snapshot is sound as long as no refresh has touched its index since it was popped. */
  ghost predicate SoundPhase(owner: map<ResidentIndex, Namespace>, mutations: map<Namespace, nat>, p: Phase)
    reads if p.Writing? then {p.state.index} else {}
  {
    match p
    case Writing(key, s, m) =>
      && s.index in owner && owner[s.index] == key
      && m <= Count(mutations, key) && (m == Count(mutations, key) ==> s.Consistent())
    case Serialized(_, s, bytes) => s.revisions.Some? ==> Describes(s.revisions.value, bytes)
    case _ => true
  }

  ghost predicate SoundDrains(owner: map<ResidentIndex, Namespace>, mutations: map<Namespace, nat>, drains: seq<Phase>)
    reads owner.Keys
  {
    forall p <- drains :: (p.Writing? ==> p.state.index in owner) && SoundPhase(owner, mutations, p)
  }

  ghost predicate SomeDraining(drains: seq<Phase>) {
    exists p <- drains :: p.Draining()
  }

  lemma Requeue(
      owner: map<ResidentIndex, Namespace>, decode: Decode, queue: map<Namespace, FaissState>,
      key: Namespace, state: FaissState)
    requires SoundStates(owner, decode, queue, {key}) && SoundState(owner, decode, key, state)
    ensures SoundStates(owner, decode, queue[key := state], {})
    ensures SoundStates(owner, decode, queue - {key}, {})
  {
  }

  lemma OneMoreDrain(owner: map<ResidentIndex, Namespace>, mutations: map<Namespace, nat>, drains: seq<Phase>)
    requires SoundDrains(owner, mutations, drains)
    ensures SoundDrains(owner, mutations, drains + [Scheduled]) && SomeDraining(drains + [Scheduled])
  {
    assert Scheduled in drains + [Scheduled];
  }

  lemma DrainStep(
      owner: map<ResidentIndex, Namespace>, mutations: map<Namespace, nat>, drains: seq<Phase>, d: nat, next: Phase)
    requires SoundDrains(owner, mutations, drains) && d < |drains|
    requires (next.Writing? ==> next.state.index in owner) && SoundPhase(owner, mutations, next)
    ensures SoundDrains(owner, mutations, drains[d := next])
    ensures next.Draining() ==> SomeDraining(drains[d := next])
    ensures !drains[d].Draining() && SomeDraining(drains) ==> SomeDraining(drains[d := next])
  {
    var after := drains[d := next];
    assert after[d] == next;
    if !drains[d].Draining() && SomeDraining(drains) {
      var p :| p in drains && p.Draining();
      var i :| 0 <= i < |drains| && drains[i] == p;
      assert after[i] == p;
    }
  }

  lemma CarriedByStore(s: FaissState, rows: seq<StoredVector>, stableId: StableId, decode: Decode)
    requires DistinctKeys(rows) && MatchesStore(s, rows, stableId, decode)
    ensures s.Carried(decode)
  {
    FingerprintsCarry(rows, decode);
  }

  /** A store at one moment. */
  datatype Moment = Moment(
    states: map<Namespace, FaissState>,
    owner: map<ResidentIndex, Namespace>,
    contents: map<ResidentIndex, seq<Entry>>,
    mutations: map<Namespace, nat>,
    pendingWrites: map<Namespace, FaissState>,
    inflightWrite: map<Namespace, FaissState>,
    persistedStates: map<Namespace, FaissState>,
    writerActive: bool,
    drains: seq<Phase>,
    published: map<Namespace, Manifest>)
  {
    predicate Known(key: Namespace, state: FaissState) {
      || state.fromDisk
      || (key in persistedStates && persistedStates[key] == state)
      || (key in inflightWrite && inflightWrite[key] == state)
      || (key in pendingWrites && pendingWrites[key] == state)
    }
  }

  class FaissStore {
    const exact: bool
    const stableId: StableId
    const decode: Decode
    var states: map<Namespace, FaissState>
    var persistence: map<Namespace, Debounce>
    var indexMutations: map<Namespace, nat>
    var pendingWrites: map<Namespace, FaissState>
    var inflightWrite: map<Namespace, FaissState>
    var persistedStates: map<Namespace, FaissState>
    var writerActive: bool
    var drains: seq<Phase>
    var published: map<Namespace, Manifest>
    /** Every index this store has made or loaded, with the namespace it serves. */
    ghost var owner: map<ResidentIndex, Namespace>

    ghost predicate Sound(key: Namespace, s: FaissState)
      reads this`owner, s.index
    {
      SoundState(owner, decode, key, s)
    }

    function Mutations(key: Namespace): nat
      reads this`indexMutations
    {
      Count(indexMutations, key)
    }

    /** The store's invariant, except that states cached under `staleStates` and snapshots queued under
        `staleWrites` may not describe their index any more. */
    ghost predicate ValidBut(staleStates: set<Namespace>, staleWrites: set<Namespace>)
      reads this, owner.Keys
    {
      && Injective(stableId)
      && SoundStates(owner, decode, states, staleStates)
      && SoundStates(owner, decode, pendingWrites, staleWrites)
      && SoundDrains(owner, indexMutations, drains)
      && (forall k :: k in published ==> published[k].Faithful())
      && (writerActive || pendingWrites != map[] ==> SomeDraining(drains))
    }

    /** Everything the store holds, with the contents of its indexes. */
    ghost function Now(): Moment
      reads this, owner.Keys
    {
      Moment(states, owner, IndexContents(), indexMutations, pendingWrites, inflightWrite, persistedStates,
             writerActive, drains, published)
    }

    ghost function IndexContents(): map<ResidentIndex, seq<Entry>>
      reads this`owner, owner.Keys
    {
      map x | x in owner :: x.entries
    }

    /** What the step of a query for one namespace leaves alone: the other namespaces' states and the contents of
        their indexes. */
    twostate predicate KeepsOthers(key: Namespace)
      reads this, owner.Keys
    {
      && (forall k :: k != key ==>
            (k in states <==> k in old(states)) && (k in states ==> states[k] == old(states)[k]))
      && (forall x :: x in old(owner) ==>
            x in owner && owner[x] == old(owner)[x] && (owner[x] != key ==> x.entries == old(x.entries)))
      && old(drains) <= drains
    }

    ghost predicate Valid()
      reads this, owner.Keys
    {
      ValidBut({}, {})
    }

    constructor (exact: bool, stableId: StableId, decode: Decode)
      requires Injective(stableId)
      ensures Valid()
      ensures Now() == Moment(map[], map[], map[], map[], map[], map[], map[], false, [], map[])
    {
      this.exact, this.stableId, this.decode := exact, stableId, decode;
      states, persistence, indexMutations, pendingWrites, inflightWrite, persistedStates, published
        := map[], map[], map[], map[], map[], map[], map[];
      writerActive, drains, owner := false, [], map[];
    }

    /** The state came off disk, or is already persisted, in flight or queued. */
    predicate Known(key: Namespace, state: FaissState)
      reads this`persistedStates, this`inflightWrite, this`pendingWrites
    {
      || state.fromDisk
      || (key in persistedStates && persistedStates[key] == state)
      || (key in inflightWrite && inflightWrite[key] == state)
      || (key in pendingWrites && pendingWrites[key] == state)
    }

    /** `_request_write`: queue `state`, replacing any superseded snapshot, and start a writer if none is active. */
    method RequestWrite(key: Namespace, state: FaissState, canSchedule: bool) returns (accepted: bool)
      requires ValidBut({}, {key}) && Sound(key, state)
      requires Valid() || !Known(key, state)
      modifies this`pendingWrites, this`persistedStates, this`writerActive, this`drains
      ensures Valid()
      ensures accepted <==> old(Known(key, state)) || old(writerActive) || canSchedule
      ensures old(Known(key, state)) ==> pendingWrites == old(pendingWrites)
      ensures !old(Known(key, state)) ==>
        pendingWrites == if accepted then old(pendingWrites)[key := state] else old(pendingWrites) - {key}
      ensures accepted ==> Known(key, state)
      ensures persistedStates == old(persistedStates) || persistedStates == old(persistedStates)[key := state]
      ensures old(drains) <= drains
    {
      if Known(key, state) {
        if state.fromDisk {
          persistedStates := persistedStates[key := state];
        }
        return true;
      }
      Requeue(owner, decode, pendingWrites, key, state);
      if !writerActive && !canSchedule {
        assert pendingWrites[key := state] - {key} == pendingWrites - {key};
        pendingWrites := pendingWrites - {key};
        return false;
      }
      pendingWrites := pendingWrites[key := state];
      if !writerActive {
        writerActive := true;
        OneMoreDrain(owner, indexMutations, drains);
        drains := drains + [Scheduled];
      }
      return true;
    }

    /** `_write_state`: queue the state and restart its debounce window. */
    method WriteState(key: Namespace, state: FaissState, now: int, canSchedule: bool) returns (accepted: bool)
      requires Valid() && state.index in owner && Sound(key, state)
      modifies this`pendingWrites, this`persistedStates, this`writerActive, this`drains, this`persistence
      ensures Valid() && persistence == old(persistence)[key := Debounce(now, 0)] && old(drains) <= drains
      ensures accepted <==> old(Known(key, state)) || old(writerActive) || canSchedule
    {
      persistence := persistence[key := Debounce(now, 0)];
      accepted := RequestWrite(key, state, canSchedule);
    }

    /** `_persist_debounced`: persist only once the window or the change budget is spent. */
    method PersistDebounced(key: Namespace, state: FaissState, changed: nat, now: int, canSchedule: bool)
      returns (written: bool)
      requires Valid() && state.index in owner && Sound(key, state)
      modifies this`pendingWrites, this`persistedStates, this`writerActive, this`drains, this`persistence
      ensures Valid() && old(drains) <= drains
      ensures
        var before := if key in old(persistence) then old(persistence)[key] else Debounce(now, 0);
        if now - before.lastWrite < PERSIST_INTERVAL_SECONDS && before.pendingVectors + changed < PERSIST_PENDING_VECTORS
        then !written && pendingWrites == old(pendingWrites)
             && persistence == old(persistence)[key := Debounce(before.lastWrite, before.pendingVectors + changed)]
        else persistence == old(persistence)[key := Debounce(now, 0)]
    {
      var debounce := if key in persistence then persistence[key] else Debounce(now, 0);
      debounce := debounce.(pendingVectors := debounce.pendingVectors + changed);
      persistence := persistence[key := debounce];
      if now - debounce.lastWrite < PERSIST_INTERVAL_SECONDS && debounce.pendingVectors < PERSIST_PENDING_VECTORS {
        return false;
      }
      written := WriteState(key, state, now, canSchedule);
    }

    /** `_load_split_state`: a published generation read back into an index of its own. */
    method Load(key: Namespace) returns (state: FaissState)
      requires Valid() && key in published
      modifies this`owner
      ensures fresh(state) && fresh(state.index) && owner == old(owner)[state.index := key]
      ensures Valid() && Sound(key, state) && state.fromDisk
      ensures state.epoch == published[key].epoch && state.revisions == published[key].revisions
    {
      var m := published[key];
      var index := new ResidentIndex(m.bytes);
      state := new FaissState(index, m.epoch, m.ids, m.keys, map[], map[], m.active, m.revisions, true);
      owner := owner[index := key];
    }

    /** The counted, in-place diff of `_get_state`: every state of another namespace stays sound, and every snapshot
        a writer has popped stays sound or becomes recognisably stale. */
    method Diff(key: Namespace, base: FaissState, o: Outside) returns (r: Refresh)
      requires Valid() && o.Lawful() && Sound(key, base)
      modifies this`indexMutations, base.index
      ensures ValidBut({key}, {key})
      ensures r.NeedsRebuild? ==> Valid()
      ensures r.Updated? ==> Sound(key, r.state) && r.state.epoch == o.epoch && !r.state.fromDisk && fresh(r.state)
      ensures r.Updated? ==> MatchesStore(r.state, o.rows, stableId, decode) && r.state.index == base.index
      ensures r.Raised? ==> o.epochAfterUpdate != o.epoch
    {
      indexMutations := indexMutations[key := Mutations(key) + 1];
      r := UpdateState(base, o.rows, o.embeddings, o.epoch, o.epochAfterUpdate, exact, stableId, decode);
      forall k | k in states && k != key ensures SoundState(owner, decode, k, states[k]) {
        assert old(SoundState(owner, decode, k, states[k]));
        assert owner[states[k].index] != key;
      }
      forall k | k in pendingWrites && k != key ensures SoundState(owner, decode, k, pendingWrites[k]) {
        assert old(SoundState(owner, decode, k, pendingWrites[k]));
        assert owner[pendingWrites[k].index] != key;
      }
      forall p | p in drains ensures SoundPhase(owner, indexMutations, p) {
        assert old(SoundPhase(owner, indexMutations, p));
      }
      if r.Updated? {
        CarriedByStore(r.state, o.rows, stableId, decode);
      }
    }

    /** The refresh of `_get_state`: diff `base` forward in place. A snapshot that was awaiting publication is
        replaced by the state that now describes its index; a failed diff leaves no state and no snapshot. */
    method RefreshState(key: Namespace, base: FaissState, o: Outside) returns (r: Refresh)
      requires Valid() && o.Lawful() && Sound(key, base)
      modifies this`states, this`indexMutations, this`pendingWrites, this`persistedStates, this`writerActive,
               this`drains, this`persistence, base.index
      ensures Valid()
      ensures r.Updated? ==>
        Sound(key, r.state) && r.state.epoch == o.epoch && key in states && states[key] == r.state
      ensures r.Updated? ==> MatchesStore(r.state, o.rows, stableId, decode)
      ensures r.Raised? ==> key !in states && key !in pendingWrites && o.epochAfterUpdate != o.epoch
      ensures KeepsOthers(key) && owner == old(owner)
    {
      r := Diff(key, base, o);
      match r {
        case Raised =>
          states, pendingWrites := states - {key}, pendingWrites - {key};
        case NeedsRebuild =>
        case Updated(updated) =>
          assert !Known(key, updated);
          Install(key, updated, ChangedVectors(base, updated), o);
      }
    }

    /** A refreshed state replaces the cached one, and any queued snapshot of the index it rewrote. */
    method Install(key: Namespace, updated: FaissState, changed: nat, o: Outside)
      requires ValidBut({key}, {key}) && Sound(key, updated) && !Known(key, updated)
      modifies this`states, this`pendingWrites, this`persistedStates, this`writerActive, this`drains, this`persistence
      ensures Valid() && states == old(states)[key := updated] && old(drains) <= drains
    {
      Requeue(owner, decode, states, key, updated);
      states := states[key := updated];
      if key in pendingWrites || key in inflightWrite {
        var _ := RequestWrite(key, updated, o.canSchedule);
      }
      var _ := PersistDebounced(key, updated, changed, o.now, o.canSchedule);
    }

    /** The rebuild of `_get_state`, written immediately. */
    method RebuildState(key: Namespace, o: Outside) returns (r: Result<FaissState, string>)
      requires Valid() && o.Lawful()
      modifies this`states, this`owner, this`pendingWrites, this`persistedStates, this`writerActive,
               this`drains, this`persistence
      ensures Valid()
      ensures r.Ok? ==> Sound(key, r.value) && r.value.epoch == o.epoch && key in states && states[key] == r.value
      ensures r.Ok? ==> MatchesStore(r.value, o.rows, stableId, decode)
      ensures r.Err? <==> o.epochAfterBuild != o.epoch
      ensures KeepsOthers(key)
      ensures owner == old(owner) || (r.Ok? && fresh(r.value.index) && owner == old(owner)[r.value.index := key])
    {
      var built := BuildState(o.rows, o.epoch, stableId, decode);
      if o.epochAfterBuild != o.epoch {
        return Err("vector index changed while FAISS state was built");
      }
      CarriedByStore(built, o.rows, stableId, decode);
      owner := owner[built.index := key];
      states := states[key := built];
      var _ := WriteState(key, built, o.now, o.canSchedule);
      return Ok(built);
    }

    /** A published generation written at the current epoch becomes the cached state. */
    method AdoptPublished(key: Namespace, o: Outside) returns (loaded: FaissState)
      requires Valid() && key in published
      modifies this`owner, this`states, this`persistence
      ensures Valid() && Sound(key, loaded) && states == old(states)[key := loaded]
      ensures fresh(loaded.index) && owner == old(owner)[loaded.index := key] && loaded.epoch == published[key].epoch
      ensures KeepsOthers(key)
    {
      loaded := Load(key);
      Requeue(owner, decode, states, key, loaded);
      states := states[key := loaded];
      persistence := persistence[key := Debounce(o.now, 0)];
    }

    /** The state a diff starts from: the cached one, else whatever generation is published. */
    method DiffBase(key: Namespace, o: Outside) returns (base: Option<FaissState>)
      requires Valid()
      modifies this`owner
      ensures Valid() && (base.Some? ==> Sound(key, base.value)) && KeepsOthers(key)
      ensures owner == old(owner) || (base.Some? && fresh(base.value.index) && owner == old(owner)[base.value.index := key])
    {
      if key in states {
        return Some(states[key]);
      }
      if key in published && o.readable {
        var loaded := Load(key);
        return Some(loaded);
      }
      return None;
    }

    /** `_get_state`: serve the current state, or load, diff or rebuild one for the vector epoch. */
    method GetState(key: Namespace, o: Outside) returns (r: Result<FaissState, string>)
      requires Valid() && o.Lawful()
      modifies this`states, this`owner, this`persistence, this`indexMutations, this`pendingWrites,
               this`persistedStates, this`writerActive, this`drains, owner.Keys
      ensures Valid()
      ensures forall x :: x in owner ==> x in old(owner) || fresh(x)
      ensures r.Ok? ==> Sound(key, r.value) && r.value.epoch == o.epoch && key in states && states[key] == r.value
      ensures r.Err? ==> o.epochAfterUpdate != o.epoch || o.epochAfterBuild != o.epoch
      ensures old(key in states && states[key].epoch == o.epoch) ==> r == Ok(old(states)[key])
      ensures old(key in published && o.readable && published[key].epoch == o.epoch) ==> r.Ok?
      ensures KeepsOthers(key)
    {
      if key in states && states[key].epoch == o.epoch {
        return Ok(states[key]);
      }
      if key in published && o.readable && published[key].epoch == o.epoch {
        var loaded := AdoptPublished(key, o);
        return Ok(loaded);
      }
      r := DiffOrRebuild(key, o);
    }

    method DiffOrRebuild(key: Namespace, o: Outside) returns (r: Result<FaissState, string>)
      requires Valid() && o.Lawful()
      modifies this`states, this`owner, this`persistence, this`indexMutations, this`pendingWrites,
               this`persistedStates, this`writerActive, this`drains, owner.Keys
      ensures Valid()
      ensures forall x :: x in owner ==> x in old(owner) || fresh(x)
      ensures r.Ok? ==> Sound(key, r.value) && r.value.epoch == o.epoch && key in states && states[key] == r.value
      ensures r.Ok? ==> MatchesStore(r.value, o.rows, stableId, decode)
      ensures r.Err? ==> o.epochAfterUpdate != o.epoch || o.epochAfterBuild != o.epoch
      ensures KeepsOthers(key)
    {
      var base := DiffBase(key, o);
      r := DiffOrRebuildFrom(key, base, o);
    }

    method DiffOrRebuildFrom(key: Namespace, base: Option<FaissState>, o: Outside) returns (r: Result<FaissState, string>)
      requires Valid() && o.Lawful() && (base.Some? ==> Sound(key, base.value))
      modifies this`states, this`owner, this`persistence, this`indexMutations, this`pendingWrites,
               this`persistedStates, this`writerActive, this`drains, owner.Keys
      ensures Valid()
      ensures forall x :: x in owner ==> x in old(owner) || fresh(x)
      ensures r.Ok? ==> Sound(key, r.value) && r.value.epoch == o.epoch && key in states && states[key] == r.value
      ensures r.Ok? ==> MatchesStore(r.value, o.rows, stableId, decode)
      ensures r.Err? ==> o.epochAfterUpdate != o.epoch || o.epochAfterBuild != o.epoch
      ensures KeepsOthers(key)
    {
      if base.Some? && base.value.revisions.Some? {
        var refresh := RefreshState(key, base.value, o);
        match refresh {
          case Updated(updated) => return Ok(updated);
          case Raised => return Err("vector index changed while FAISS state was updated");
          case NeedsRebuild =>
        }
      }
      r := RebuildState(key, o);
    }

    /** `flush_persistence`, its request half: every cached state is handed to the writer. */
    method RequestAll(canSchedule: bool)
      requires Valid()
      modifies this`pendingWrites, this`persistedStates, this`writerActive, this`drains
      ensures Valid() && old(drains) <= drains
      ensures canSchedule ==> forall k :: k in states ==> Known(k, states[k])
    {
      var rest := states.Keys;
      while rest != {}
        invariant Valid() && rest <= states.Keys && old(drains) <= drains
        invariant canSchedule ==> forall k :: k in states && k !in rest ==> Known(k, states[k])
        decreases rest
      {
        var key :| key in rest;
        var _ := RequestWrite(key, states[key], canSchedule);
        rest := rest - {key};
      }
    }

    // ----- The writer thread -----

    /** `_drain_writes`, first critical section: leave when nothing is queued, else pop a snapshot and remember how
        often its index had been changed. */
    method PopWrite(d: nat, key: Namespace)
      requires Valid() && d < |drains| && (drains[d].Scheduled? || drains[d].Looping?)
      requires pendingWrites != map[] ==> key in pendingWrites
      modifies this`pendingWrites, this`inflightWrite, this`writerActive, this`drains
      ensures Valid()
      ensures Now() == Popped(old(Now()), d, key)
    {
      if pendingWrites == map[] {
        writerActive := false;
        DrainStep(owner, indexMutations, drains, d, Exiting);
        drains := drains[d := Exiting];
        assert IndexContents() == old(IndexContents());
        return;
      }
      TakeSnapshot(d, key);
    }

    method TakeSnapshot(d: nat, key: Namespace)
      requires Valid() && d < |drains| && (drains[d].Scheduled? || drains[d].Looping?) && key in pendingWrites
      modifies this`pendingWrites, this`inflightWrite, this`drains
      ensures Valid() && Now() == Popped(old(Now()), d, key)
    {
      var state := pendingWrites[key];
      var next := Writing(key, state, Mutations(key));
      DrainStep(owner, indexMutations, drains, d, next);
      pendingWrites := pendingWrites - {key};
      inflightWrite := inflightWrite[key := state];
      drains := drains[d := next];
      assert IndexContents() == old(IndexContents());
    }

    /** `_persist_state`, under the index lock: a snapshot whose index moved on is dropped, any other is serialised. */
    method SerializeIndex(d: nat, fails: bool)
      requires Valid() && d < |drains| && drains[d].Writing?
      modifies this`drains
      ensures Valid()
      ensures Now() == AfterSerializing(old(Now()), d, fails)
    {
      var p := drains[d];
      var next := if fails || Mutations(p.key) != p.mutations
                  then Finishing(p.key, p.state, false)
                  else Serialized(p.key, p.state, p.state.index.entries);
      assert SoundPhase(owner, indexMutations, p);
      DrainStep(owner, indexMutations, drains, d, next);
      drains := drains[d := next];
    }

    /** `_persist_state`, after serialising and holding no lock: the manifest names the serialised bytes. */
    method PublishManifest(d: nat, fails: bool)
      requires Valid() && d < |drains| && drains[d].Serialized?
      modifies this`published, this`drains
      ensures Valid()
      ensures Now() == AfterPublishing(old(Now()), d, fails)
    {
      var p := drains[d];
      assert SoundPhase(owner, indexMutations, p);
      var next := Finishing(p.key, p.state, !fails);
      DrainStep(owner, indexMutations, drains, d, next);
      if !fails {
        published := published[p.key := Manifest(
          p.state.epoch, p.state.ids, p.state.keys, p.state.active, p.state.revisions, p.bytes)];
      }
      drains := drains[d := next];
    }

    /** `_drain_writes`, second critical section: the snapshot is no longer in flight. */
    method FinishWrite(d: nat)
      requires Valid() && d < |drains| && drains[d].Finishing?
      modifies this`inflightWrite, this`persistedStates, this`drains
      ensures Valid() && Now() == AfterFinishing(old(Now()), d)
    {
      var p := drains[d];
      if p.key in inflightWrite && inflightWrite[p.key] == p.state {
        inflightWrite := inflightWrite - {p.key};
      }
      if p.written {
        persistedStates := persistedStates[p.key := p.state];
      }
      DrainStep(owner, indexMutations, drains, d, Looping);
      drains := drains[d := Looping];
      assert IndexContents() == old(IndexContents());
    }

    /** `_drain_writes`, the `finally` clause: it takes the lock again, so requests may have come in between. */
    method ExitDrain(d: nat)
      requires Valid() && d < |drains| && drains[d].Exiting?
      modifies this`writerActive, this`inflightWrite, this`drains
      ensures Valid() && Now() == AfterExiting(old(Now()), d)
    {
      if writerActive {
        writerActive := false;
        inflightWrite := map[];
      }
      DrainStep(owner, indexMutations, drains, d, Finished);
      drains := drains[d := Finished];
    }
  }

  /** One atomic step of a query thread or of writer thread `d`. */
  datatype Step =
    | Query(key: Namespace, outside: Outside)
    | Flush(canSchedule: bool)
    | Writer(d: nat, choice: Namespace, fails: bool)

  /** A query is served the state of its epoch, or fails because the vector epoch moved under it; either way it leaves
      the published generations, the other namespaces' states and the contents of their indexes alone. */
  ghost predicate Queried(before: Moment, key: Namespace, o: Outside, after: Moment) {
    && ((key in after.states && after.states[key].epoch == o.epoch)
        || o.epochAfterUpdate != o.epoch || o.epochAfterBuild != o.epoch)
    && (forall k :: k != key ==>
          (k in after.states <==> k in before.states) && (k in after.states ==> after.states[k] == before.states[k]))
    && (forall x :: x in before.owner && x in before.contents ==>
          && x in after.owner && after.owner[x] == before.owner[x] && x in after.contents
          && (after.owner[x] != key ==> after.contents[x] == before.contents[x]))
    && before.drains <= after.drains && after.published == before.published
  }

  /** After a flush that can start a writer, every cached state is on its way to disk or already there. */
  ghost predicate Flushed(before: Moment, canSchedule: bool, after: Moment) {
    && after.states == before.states && after.owner == before.owner && after.contents == before.contents
    && before.drains <= after.drains && after.published == before.published
    && (canSchedule ==> forall k :: k in after.states ==> after.Known(k, after.states[k]))
  }

  /** The critical section writer thread `d` goes through; `choice` is the queued snapshot it would take. */
  function AfterWriter(m: Moment, d: nat, choice: Namespace, fails: bool): Moment {
    if d >= |m.drains| then m
    else
      match m.drains[d]
      case Scheduled => Popped(m, d, choice)
      case Looping => Popped(m, d, choice)
      case Writing(_, _, _) => AfterSerializing(m, d, fails)
      case Serialized(_, _, _) => AfterPublishing(m, d, fails)
      case Finishing(_, _, _) => AfterFinishing(m, d)
      case Exiting => AfterExiting(m, d)
      case Finished => m
  }

  function AfterSerializing(m: Moment, d: nat, fails: bool): Moment
    requires d < |m.drains| && m.drains[d].Writing?
  {
    var p := m.drains[d];
    var dropped := fails || Count(m.mutations, p.key) != p.mutations || p.state.index !in m.contents;
    m.(drains := m.drains[d := if dropped then Finishing(p.key, p.state, false)
                               else Serialized(p.key, p.state, m.contents[p.state.index])])
  }

  function AfterPublishing(m: Moment, d: nat, fails: bool): Moment
    requires d < |m.drains| && m.drains[d].Serialized?
  {
    var p := m.drains[d];
    var s := p.state;
    m.(
      published := if fails then m.published
                   else m.published[p.key := Manifest(s.epoch, s.ids, s.keys, s.active, s.revisions, p.bytes)],
      drains := m.drains[d := Finishing(p.key, s, !fails)])
  }

  function AfterFinishing(m: Moment, d: nat): Moment
    requires d < |m.drains| && m.drains[d].Finishing?
  {
    var p := m.drains[d];
    m.(
      inflightWrite := if p.key in m.inflightWrite && m.inflightWrite[p.key] == p.state then m.inflightWrite - {p.key}
                       else m.inflightWrite,
      persistedStates := if p.written then m.persistedStates[p.key := p.state] else m.persistedStates,
      drains := m.drains[d := Looping])
  }

  function AfterExiting(m: Moment, d: nat): Moment
    requires d < |m.drains|
  {
    m.(
      inflightWrite := if m.writerActive then map[] else m.inflightWrite,
      writerActive := false,
      drains := m.drains[d := Finished])
  }

  function Popped(m: Moment, d: nat, choice: Namespace): Moment
    requires d < |m.drains|
  {
    if m.pendingWrites == map[] then m.(writerActive := false, drains := m.drains[d := Exiting])
    else if choice !in m.pendingWrites then m
    else
      var s := m.pendingWrites[choice];
      m.(
        pendingWrites := m.pendingWrites - {choice},
        inflightWrite := m.inflightWrite[choice := s],
        drains := m.drains[d := Writing(choice, s, Count(m.mutations, choice))])
  }

  ghost predicate Stepped(before: Moment, step: Step, after: Moment) {
    match step
    case Query(key, o) => Queried(before, key, o, after)
    case Flush(canSchedule) => Flushed(before, canSchedule, after)
    case Writer(d, choice, fails) => after == AfterWriter(before, d, choice, fails)
  }

  /** Every cached state describes the index it names, every manifest the bytes it names, and a non-empty queue has a
      writer that will still look at it. */
  ghost predicate Coherent(m: Moment) {
    && (forall k :: k in m.states ==>
          var s := m.states[k];
          && s.index in m.owner && m.owner[s.index] == k && s.index in m.contents
          && (s.revisions.Some? ==> Describes(s.revisions.value, m.contents[s.index])))
    && (forall k :: k in m.published ==> m.published[k].Faithful())
    && (m.pendingWrites != map[] ==> SomeDraining(m.drains))
  }

  /** The moments before and after every step. */
  ghost predicate History(history: seq<Moment>, steps: seq<Step>) {
    && |history| == |steps| + 1
    && history[0] == Moment(map[], map[], map[], map[], map[], map[], map[], false, [], map[])
    && forall i :: 0 <= i < |steps| ==> Stepped(history[i], steps[i], history[i + 1])
  }

  lemma HistoryGrows(history: seq<Moment>, steps: seq<Step>, i: nat, next: Moment)
    requires i < |steps| && History(history, steps[..i]) && Stepped(history[i], steps[i], next)
    ensures History(history + [next], steps[..i + 1])
  {
    var longer := history + [next];
    forall j | 0 <= j < i + 1 ensures Stepped(longer[j], steps[..i + 1][j], longer[j + 1]) {
      if j < i {
        assert Stepped(history[j], steps[..i][j], history[j + 1]);
      }
    }
  }

  /** Any interleaving of query and writer steps on a fresh store, however long, is coherent at every moment. A step
      that is not enabled is skipped. */
  method Interleave(exact: bool, stableId: StableId, decode: Decode, steps: seq<Step>)
      returns (store: FaissStore, ghost history: seq<Moment>)
    requires Injective(stableId)
    requires forall s <- steps :: s.Query? ==> s.outside.Lawful()
    ensures fresh(store) && store.Valid()
    ensures History(history, steps) && history[|steps|] == store.Now()
    ensures forall i :: 0 <= i < |history| ==> Coherent(history[i])
  {
    store := new FaissStore(exact, stableId, decode);
    history := [store.Now()];
    for i := 0 to |steps|
      invariant fresh(store) && store.Valid() && forall x :: x in store.owner ==> fresh(x)
      invariant History(history, steps[..i]) && history[i] == store.Now()
      invariant forall j :: 0 <= j < |history| ==> Coherent(history[j])
    {
      assert steps[i] in steps;
      TakeStep(store, steps[i]);
      HistoryGrows(history, steps, i, store.Now());
      history := history + [store.Now()];
    }
    assert steps[..|steps|] == steps;
  }

  method TakeStep(store: FaissStore, step: Step)
    requires store.Valid() && (step.Query? ==> step.outside.Lawful())
    modifies store, store.owner.Keys
    ensures store.Valid() && forall x :: x in store.owner ==> x in old(store.owner) || fresh(x)
    ensures Stepped(old(store.Now()), step, store.Now()) && Coherent(store.Now())
  {
    match step {
      case Query(key, outside) =>
        var _ := store.GetState(key, outside);
      case Flush(canSchedule) => store.RequestAll(canSchedule);
      case Writer(d, choice, fails) => WriterStep(store, d, choice, fails);
    }
  }

  /** Whatever critical section writer thread `d` is about to enter. */
  method WriterStep(store: FaissStore, d: nat, choice: Namespace, fails: bool)
    requires store.Valid()
    modifies store`pendingWrites, store`inflightWrite, store`persistedStates, store`writerActive, store`drains,
             store`published
    ensures store.Valid()
    ensures store.Now() == AfterWriter(old(store.Now()), d, choice, fails)
  {
    if d < |store.drains| {
      match store.drains[d] {
        case Scheduled =>
          if store.pendingWrites == map[] || choice in store.pendingWrites {
            store.PopWrite(d, choice);
          }
        case Looping =>
          if store.pendingWrites == map[] || choice in store.pendingWrites {
            store.PopWrite(d, choice);
          }
        case Writing(_, _, _) => store.SerializeIndex(d, fails);
        case Serialized(_, _, _) => store.PublishManifest(d, fails);
        case Finishing(_, _, _) => store.FinishWrite(d);
        case Exiting => store.ExitDrain(d);
        case Finished =>
      }
    }
  }

  /** `_changed_vector_count`. */
  function ChangedVectors(base: FaissState, updated: FaissState): nat {
    var before := if base.revisions.Some? then base.revisions.value else map[];
    var after := if updated.revisions.Some? then updated.revisions.value else map[];
    |set id | id in after && (id !in before || before[id] != after[id])|
  }
}
