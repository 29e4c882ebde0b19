/** The reconcile routine in the daemon's own form: it changes the manifest and the broker
    step by step, and every execution of it is a run of the step machine. */
module ReconcileDaemon {
  import opened Wrappers
  import opened Config
  import opened Manifest
  import opened Reconcile
  import ReconcileSafety

  class Daemon {
    const size: DiscoveryState -> nat
    var disk: File
    var possible: set<File>
    var broker: map<string, string>
    var ours: set<string>
    var lock: Option<RunId>

    // The run of the step machine that the routine is following.
    ghost var origin: World
    ghost var actor: RunId
    ghost var run: Run
    ghost var fates: seq<Outcome>

    constructor (size: DiscoveryState -> nat, w: World)
      ensures State() == w && this.size == size
    {
      this.size := size;
      disk, possible, broker, ours, lock := w.disk, w.possible, w.broker, w.ours, w.lock;
    }

    ghost function State(): World
      reads this
    {
      World(disk, possible, broker, ours, lock)
    }

    ghost predicate At(w: World)
      reads this
    {
      Drive(size, actor, origin, Fresh(run.cfg), fates) == (w, run)
    }

    /** The run has just failed: releasing the lock completes its last step. */
    ghost predicate Failing(before: World, o: Outcome)
      reads this
    {
      At(before) && Step(size, actor, before, run, o) == Return(State(), actor, run, false)
    }

    ghost method Record(before: World, o: Outcome)
      requires At(before) && State() == Step(size, actor, before, run, o).0
      modifies this`run, this`fates
      ensures At(State()) && fates == old(fates) + [o]
      ensures run == Step(size, actor, before, old(run), o).1 && run.cfg == old(run.cfg)
    {
      DriveOneMore(size, actor, origin, Fresh(run.cfg), fates, o);
      fates := fates + [o];
      run := Step(size, actor, before, run, o).1;
    }

    method PublishRetained(topic: string, payload: string) returns (o: Outcome)
      modifies this`broker, this`ours
      ensures State() == Publish(old(State()), topic, payload, o)
      ensures broker == if o == FailedEarly then old(broker)
                        else if |payload| == 0 then old(broker) - {topic} else old(broker)[topic := payload]
    {
      o := *;
      if !o.FailedEarly? {
        broker := Retain(broker, topic, payload);
        ours := if |payload| == 0 then ours - {topic} else ours + {topic};
      }
    }

    method WriteDiscoveryState(state: DiscoveryState) returns (ok: bool, ghost o: Outcome)
      modifies this`disk, this`possible
      ensures State() == Write(size, old(State()), state, o)
      ensures ok <==> o.Done? && size(state) <= MAX_STATE_SIZE
      ensures o == FailedEarly || size(state) > 65536 ==> disk == old(disk) && possible == old(possible)
      ensures o != FailedEarly && size(state) <= 65536 ==> disk == Stored(state)
      ensures o == Done && size(state) <= 65536 ==> possible == {Stored(state)}
      ensures o == FailedLate && size(state) <= 65536 ==> possible == old(possible) + {Stored(state)}
    {
      if size(state) > MAX_STATE_SIZE {
        return false, Done;
      }
      var fate: Outcome := *;
      if !fate.FailedEarly? {
        disk := Stored(state);
        possible := (if fate.Done? then {} else possible) + {Stored(state)};
      }
      return fate.Done?, fate;
    }

    method Unlock(id: RunId)
      modifies this`lock
      ensures State() == old(State()).(lock := if old(lock) == Some(id) then None else old(lock))
    {
      if lock == Some(id) {
        lock := None;
      }
    }

    /** The three ways to change what is on the broker: leave an old device, reconcile, or
        publish without a state path. */
    ghost predicate Planned(stale: seq<string>, publications: seq<Publication>)
      reads this
    {
      || (run.pc == Purging(0) && stale == run.loaded.topics && publications == [])
      || (run.pc == Clearing(0) && stale == run.Stale() && publications == DesiredPublications(run.cfg))
      || (run.pc == Publishing(0) && stale == [] && publications == DesiredPublications(run.cfg))
    }

    /** Deletes each topic in turn, stopping at the first failure. */
    method RemoveTopics(stale: seq<string>) returns (ok: bool, ghost before: World, ghost o: Outcome)
      requires At(State())
      requires || (run.pc == Purging(0) && stale == run.loaded.topics)
               || (run.pc == Clearing(0) && stale == run.Stale())
               || (run.pc == Publishing(0) && stale == [])
      modifies this`broker, this`ours, this`run, this`fates
      ensures run.cfg == old(run.cfg) && run.loaded == old(run.loaded)
      ensures ok ==> At(State())
      ensures ok ==> run.pc == match old(run.pc)
                               case Purging(_) => Purging(|stale|)
                               case Clearing(_) => Clearing(|stale|)
                               case pc => pc
      ensures !ok ==> Failing(before, o)
    {
      ghost var start := run.pc;
      before, o := State(), Done;
      for k := 0 to |stale|
        invariant At(State()) && run.cfg == old(run.cfg) && run.loaded == old(run.loaded)
        invariant run.pc == match start
                            case Purging(_) => Purging(k)
                            case Clearing(_) => Clearing(k)
                            case pc => pc
      {
        before := State();
        var fate := PublishRetained(stale[k], "");
        o := fate;
        if fate != Done {
          return false, before, o;
        }
        Record(before, o);
      }
      return true, before, o;
    }

    /** Publishes each document in turn, stopping at the first failure. */
    method PublishAll(publications: seq<Publication>) returns (ok: bool, ghost before: World, ghost o: Outcome)
      requires At(State())
      requires publications == if run.pc == Publishing(0) then DesiredPublications(run.cfg) else []
      modifies this`broker, this`ours, this`run, this`fates
      ensures run.cfg == old(run.cfg) && run.loaded == old(run.loaded)
      ensures ok ==> At(State())
      ensures ok ==> run.pc == if old(run.pc) == Publishing(0) then Publishing(|publications|) else old(run.pc)
      ensures !ok ==> Failing(before, o)
    {
      before, o := State(), Done;
      for k := 0 to |publications|
        invariant At(State()) && run.cfg == old(run.cfg) && run.loaded == old(run.loaded)
        invariant run.pc == if old(run.pc) == Publishing(0) then Publishing(k) else old(run.pc)
      {
        before := State();
        var fate := PublishRetained(publications[k].topic, publications[k].payload);
        o := fate;
        if fate != Done {
          return false, before, o;
        }
        Record(before, o);
      }
      return true, before, o;
    }

    /** Deletions first, then publications. */
    method PublishDiscoveryChanges(stale: seq<string>, publications: seq<Publication>)
      returns (ok: bool, ghost before: World, ghost o: Outcome)
      requires At(State()) && Planned(stale, publications)
      modifies this`broker, this`ours, this`run, this`fates
      ensures run.cfg == old(run.cfg) && run.loaded == old(run.loaded)
      ensures ok ==> At(State())
      ensures ok ==> run.pc == if old(run.pc).Purging? then Purging(|stale|) else Publishing(|publications|)
      ensures !ok ==> Failing(before, o)
    {
      ok, before, o := RemoveTopics(stale);
      if !ok {
        return;
      }
      if run.pc.Clearing? {
        Record(State(), Done);
      }
      ok, before, o := PublishAll(publications);
    }

    /** A state is refused only when it is unreadable or oversized, or reading it failed. */
    method LoadDiscoveryState() returns (state: Option<DiscoveryState>, ghost o: Outcome)
      ensures state.Some? <==> o.Done? && Loadable(size, disk)
      ensures state.Some? ==> state.value == Content(disk)
    {
      var readable: bool := *;
      if !readable {
        return None, FailedEarly;
      }
      if disk.Unreadable? || (disk.Stored? && size(disk.state) > MAX_STATE_SIZE) {
        return None, Done;
      }
      return Some(if disk.Missing? then NO_STATE else disk.state), Done;
    }

    /** Writes a manifest and, when that fails or completes the run, releases the lock. */
    method WriteAndRecord(id: RunId, state: DiscoveryState, last: bool) returns (ok: bool)
      requires At(State()) && actor == id
      requires Manuscript(run) == Some(state) && (last <==> Following(run).Returned?)
      modifies this
      ensures Followed(old(origin), id, old(run.cfg), old(run.loaded))
      ensures run.pc == if ok then Following(old(run)) else Returned(false)
    {
      ghost var o: Outcome;
      ghost var before := State();
      ok, o := WriteDiscoveryState(state);
      if !ok || last {
        Unlock(id);
      }
      Record(before, o);
    }

    /** The deferred unlock of a run that fails. */
    method Abandon(id: RunId, ghost before: World, ghost o: Outcome)
      requires actor == id && Failing(before, o)
      modifies this`lock, this`run, this`fates
      ensures Followed(old(origin), id, old(run.cfg), old(run.loaded)) && run.pc == Returned(false)
      ensures fates == old(fates) + [o]
    {
      Unlock(id);
      Record(before, o);
    }

    ghost predicate Followed(from: World, id: RunId, cfg: Settings, loaded: DiscoveryState)
      reads this
    {
      At(State()) && origin == from && actor == id && run.cfg == cfg && run.loaded == loaded
    }

    /** Without a state path: publish, with no lock and no manifest. */
    method ReconcileUntracked(id: RunId, publications: seq<Publication>) returns (ok: bool)
      requires At(State()) && actor == id && run.pc == Opening && run.cfg.stateFile == ""
      requires publications == DesiredPublications(run.cfg)
      modifies this
      ensures Followed(old(origin), id, old(run.cfg), old(run.loaded)) && run.pc == Returned(ok)
    {
      Record(State(), Done);
      ghost var before: World;
      ghost var o: Outcome;
      ok, before, o := PublishDiscoveryChanges([], publications);
      if !ok {
        Abandon(id, before, o);
        return false;
      }
      before := State();
      Unlock(id);
      Record(before, Done);
    }

    /** Every effect since then succeeded. */
    ghost predicate Undisturbed(before: seq<Outcome>)
      reads this
    {
      before <= fates && forall i :: |before| <= i < |fates| ==> fates[i] == Done
    }

    /** Takes the lock, then reads and checks the manifest. Unless an effect fails, it refuses only
        a lock held by another, and a manifest that it may not act on. */
    method LockAndLoad(id: RunId, cfg: Settings) returns (previous: Option<DiscoveryState>)
      requires At(State()) && actor == id && run == Fresh(cfg) && cfg.stateFile != ""
      modifies this
      ensures At(State()) && origin == old(origin) && actor == id && run.cfg == cfg
      ensures previous.Some? <==>
                Undisturbed(old(fates)) && old(lock) == None && Usable(size, cfg, old(disk))
      ensures previous == None ==> run.pc == Returned(false)
      ensures previous.Some? ==> run.loaded == previous.value == Content(old(disk))
      ensures previous.Some? ==> run.pc == if Moved(cfg, previous.value) then Purging(0) else Announcing
    {
      var available: bool := *;
      if !available || lock != None {
        Abandon(id, State(), if available then Done else FailedEarly);
        return None;
      }
      ghost var before := State();
      lock := Some(id);
      Record(before, Done);
      ghost var o: Outcome;
      previous, o := LoadDiscoveryState();
      if previous == None {
        Abandon(id, State(), o);
        return None;
      }
      var valid := ValidateDiscoveryState(previous.value);
      if !valid || (previous.value.ownerID != "" && previous.value.ownerID != cfg.clientID) {
        Abandon(id, State(), Done);
        return None;
      }
      Record(State(), Done);
    }

    /** A device-ID change: removes what the old device had, then starts an empty list. */
    method LeaveOldDevice(id: RunId, cfg: Settings, topics: seq<string>) returns (ok: bool)
      requires At(State()) && actor == id && run.cfg == cfg && topics == run.loaded.topics && run.pc == Purging(0)
      modifies this
      ensures Followed(old(origin), id, cfg, old(run.loaded))
      ensures run.pc == if ok then Announcing else Returned(false)
    {
      ghost var before: World;
      ghost var o: Outcome;
      ok, before, o := PublishDiscoveryChanges(topics, []);
      if !ok {
        Abandon(id, before, o);
        return false;
      }
      Record(State(), Done);
      ok := WriteAndRecord(id, Blank(cfg), false);
    }

    /** Announces the union of what was listed and what is desired. */
    method Announce(id: RunId, cfg: Settings, previous: DiscoveryState) returns (ok: bool)
      requires At(State()) && actor == id && run.cfg == cfg
      requires run.pc == Announcing && previous == run.Previous()
      modifies this
      ensures Followed(old(origin), id, cfg, old(run.loaded))
      ensures run.pc == if ok then Clearing(0) else Returned(false)
    {
      var union := UnionTopics(previous.topics, DesiredTopics(cfg));
      ok := WriteAndRecord(id, Listing(cfg, union), false);
    }

    /** Deletes what is stale and publishes what is desired. */
    method Converge(id: RunId, cfg: Settings, previous: DiscoveryState) returns (ok: bool)
      requires At(State()) && actor == id && run.cfg == cfg && cfg.stateFile != ""
      requires run.pc == Clearing(0) && previous == run.Previous()
      modifies this
      ensures Followed(old(origin), id, cfg, old(run.loaded))
      ensures run.pc == if ok then Sealing else Returned(false)
    {
      var stale := DifferenceTopics(previous.topics, DesiredTopics(cfg));
      ghost var before: World;
      ghost var o: Outcome;
      ok, before, o := PublishDiscoveryChanges(stale, DesiredPublications(cfg));
      if !ok {
        Abandon(id, before, o);
        return false;
      }
      Record(State(), Done);
    }

    /** From a loaded manifest to the end of the run. */
    method Finish(id: RunId, cfg: Settings, loaded: DiscoveryState) returns (ok: bool)
      requires At(State()) && actor == id && run.cfg == cfg && cfg.stateFile != "" && run.loaded == loaded
      requires run.pc == if Moved(cfg, loaded) then Purging(0) else Announcing
      modifies this
      ensures Followed(old(origin), id, cfg, loaded) && run.pc == Returned(ok)
    {
      var previous := loaded;
      if previous.deviceID != "" && previous.deviceID != cfg.deviceID {
        ok := LeaveOldDevice(id, cfg, previous.topics);
        if !ok {
          return;
        }
        previous := NO_STATE;
      }
      ok := Announce(id, cfg, previous);
      if !ok {
        return;
      }
      ok := Converge(id, cfg, previous);
      if !ok {
        return;
      }
      ok := WriteAndRecord(id, Exact(cfg), true);
    }

    method FollowSteps(id: RunId, cfg: Settings) returns (ok: bool)
      modifies this
      ensures Drive(size, id, old(State()), Fresh(cfg), fates) == (State(), run)
      ensures run.cfg == cfg && run.pc == Returned(ok)
    {
      origin, actor, run, fates := State(), id, Fresh(cfg), [];
      if cfg.stateFile == "" {
        ok := ReconcileUntracked(id, DesiredPublications(cfg));
        return;
      }
      var loaded := LockAndLoad(id, cfg);
      if loaded == None {
        return false;
      }
      ok := Finish(id, cfg, loaded.value);
    }

    /** Every execution of the routine is a run of the step machine, and it reports success
        exactly when that run returned without error. However it ends, what is ours stays
        listed and nothing else is added; when it succeeds, broker and manifest are exactly what
        the configuration asks. Unless an effect fails, it succeeds if and only if nothing
        obstructs it. */
    method ReconcileDiscovery(id: RunId, cfg: Settings) returns (ok: bool)
      modifies this
      ensures Drive(size, id, old(State()), Fresh(cfg), fates) == (State(), run)
      ensures run.cfg == cfg && run.pc == Returned(ok)
      ensures Accepted(cfg) && Tracked(old(State())) && old(lock) != Some(id) ==>
                && Tracked(State()) && lock != Some(id)
                && ReconcileSafety.AddsNothingElse(old(State()), State())
                && (ok ==> ReconcileSafety.Converged(State(), cfg))
      ensures cfg.stateFile != "" && Undisturbed([]) ==>
                (ok <==> ReconcileSafety.Unobstructed(size, cfg, old(State())))
    {
      ok := FollowSteps(id, cfg);
      if Accepted(cfg) && Tracked(old(State())) && old(lock) != Some(id) {
        ReconcileSafety.SoloRunIsSafe(size, id, old(State()), cfg, fates);
      }
      if cfg.stateFile != "" && Undisturbed([]) {
        ReconcileSafety.UndisturbedOutcome(size, id, old(State()), cfg, fates);
      }
    }
  }
}
