/** What reconciliation guarantees over every execution: tracking, convergence, framing,
    and that the daemon can always read back what it wrote. */
module ReconcileSafety {
  import opened Wrappers
  import opened Text
  import opened Config
  import opened Manifest
  import opened Reconcile

  /** Crash-safe tracking: at every moment, whatever content would survive a power loss lists
      every topic the controller has put on the broker and not deleted. */
  lemma CrashSafeTracking(size: DiscoveryState -> nat, states: seq<Sys>, events: seq<Event>, i: nat)
    requires Execution(size, states, events) && i < |states|
    ensures var w := states[i].world;
            && w.disk in w.possible
            && w.ours <= w.broker.Keys
            && forall f :: f in w.possible ==> w.ours <= Listed(f)
  {
    ExecutionInv(size, states, events, i);
  }

  /** At most one run is between taking and releasing the lock. */
  lemma MutualExclusion(size: DiscoveryState -> nat, states: seq<Sys>, events: seq<Event>, i: nat, a: RunId, b: RunId)
    requires Execution(size, states, events) && i < |states|
    requires a in states[i].runs && b in states[i].runs
    requires Holding(states[i].runs[a].pc) && Holding(states[i].runs[b].pc)
    ensures a == b
  {
    ExecutionInv(size, states, events, i);
    assert RunInv(states[i].world, a, states[i].runs[a]);
    assert RunInv(states[i].world, b, states[i].runs[b]);
  }

  /** The last step of a run that succeeds: the exact manifest becomes the only possible one. */
  lemma LastStep(size: DiscoveryState -> nat, id: RunId, w: World, r: Run, o: Outcome)
    requires Accepted(r.cfg) && !r.pc.Returned? && Step(size, id, w, r, o).1.pc == Returned(true)
    ensures r.pc.Sealing?
    ensures Step(size, id, w, r, o).0
         == Return(w.(disk := Stored(Exact(r.cfg)), possible := {Stored(Exact(r.cfg))}), id, r, true).0
  {
  }

  predicate Converged(w: World, cfg: Settings) {
    && w.disk == Stored(Exact(cfg)) && w.possible == {Stored(Exact(cfg))}
    && w.ours == Elems(DesiredTopics(cfg))
    && PublishedUpTo(w, cfg, |DesiredPublications(cfg)|)
  }

  lemma SealedIsConverged(size: DiscoveryState -> nat, id: RunId, w: World, r: Run, o: Outcome)
    requires RunInv(w, id, r) && !r.pc.Returned? && Step(size, id, w, r, o).1.pc == Returned(true)
    ensures Converged(Step(size, id, w, r, o).0, r.cfg)
  {
    LastStep(size, id, w, r, o);
    forall t | t in Elems(DesiredTopics(r.cfg)) ensures t in w.ours {
      var j :| 0 <= j < |DesiredTopics(r.cfg)| && DesiredTopics(r.cfg)[j] == t;
      assert DesiredPublications(r.cfg)[j].topic == t;
    }
  }

  /** Whatever is on the broker and not ours was so before. */
  predicate AddsNothingElse(w: World, w': World) {
    w'.broker.Keys - w'.ours <= w.broker.Keys - w.ours
  }

  lemma PublishAddsNothingElse(w: World, topic: string, payload: string, o: Outcome)
    ensures AddsNothingElse(w, Publish(w, topic, payload, o))
  {
  }

  lemma AttemptAddsNothingElse(size: DiscoveryState -> nat, w: World, r: Run, o: Outcome)
    ensures AddsNothingElse(w, Attempt(size, w, r, o).0)
  {
    if Message(r).Some? {
      PublishAddsNothingElse(w, Message(r).value.0, Message(r).value.1, o);
    }
  }

  /** A step that deletes a topic takes it off the broker, and one that publishes makes it ours:
      the record of what is ours never runs ahead of the broker. */
  lemma StepAddsNothingElse(size: DiscoveryState -> nat, id: RunId, w: World, r: Run, o: Outcome)
    ensures AddsNothingElse(w, Step(size, id, w, r, o).0)
  {
    var w' := Step(size, id, w, r, o).0;
    if r.pc.Opening? || r.pc.Loading? || r.pc.Returned? {
      assert w'.broker == w.broker && w'.ours == w.ours;
    } else {
      AttemptAddsNothingElse(size, w, r, o);
      var tried := Attempt(size, w, r, o).0;
      assert w'.broker == tried.broker && w'.ours == tried.ours;
    }
  }

  /** A run by itself, under every list of outcomes, at each of its intermediate points and at its
      end: what is ours stays tracked, nothing else is added, and success means convergence. */
  lemma {:induction false} SoloRunIsSafe(
    size: DiscoveryState -> nat, id: RunId, w: World, cfg: Settings, os: seq<Outcome>)
    requires Accepted(cfg) && Tracked(w) && w.lock != Some(id)
    ensures var (w', r') := Drive(size, id, w, Fresh(cfg), os);
            && r'.cfg == cfg && Tracked(w') && RunInv(w', id, r') && AddsNothingElse(w, w')
            && (r'.pc == Returned(true) ==> Converged(w', cfg))
  {
    if os != [] {
      var n := |os| - 1;
      SoloRunIsSafe(size, id, w, cfg, os[..n]);
      var (w', r') := Drive(size, id, w, Fresh(cfg), os[..n]);
      StepKeeps(size, id, w', r', os[n]);
      StepPossible(size, id, w', r', os[n]);
      StepAddsNothingElse(size, id, w', r', os[n]);
      if !r'.pc.Returned? && Step(size, id, w', r', os[n]).1.pc == Returned(true) {
        SealedIsConverged(size, id, w', r', os[n]);
      }
    }
  }

  // ---------- framing ----------

  ghost predicate ChangesAt(before: map<string, string>, after: map<string, string>, t: string) {
    (t in before) != (t in after) || (t in before && t in after && before[t] != after[t])
  }

  lemma StepBroker(size: DiscoveryState -> nat, id: RunId, w: World, r: Run, o: Outcome)
    ensures var after := Step(size, id, w, r, o).0.broker;
            after == w.broker
            || (Message(r).Some? && after == Retain(w.broker, Message(r).value.0, Message(r).value.1))
  {
  }

  lemma MessageIsOwn(w: World, id: RunId, r: Run)
    requires RunInv(w, id, r) && Message(r).Some?
    ensures var t := Message(r).value.0;
            t in DesiredTopics(r.cfg) || (t in r.loaded.topics && r.loaded.ownerID == r.cfg.clientID)
  {
    match r.pc
    case Clearing(k) =>
      DifferenceFacts(r.Previous().topics, DesiredTopics(r.cfg));
      assert r.Stale()[k] in Elems(r.Stale());
    case Publishing(k) => DesiredIndex(r.cfg, k);
    case _ =>
  }

  /** Only desired topics, and topics listed in a valid manifest of the same owner, are ever
      touched by a run. */
  lemma OnlyOwnTopicsChange(size: DiscoveryState -> nat, states: seq<Sys>, events: seq<Event>, i: nat, t: string)
    requires Execution(size, states, events) && i < |events|
    requires ChangesAt(states[i].world.broker, states[i + 1].world.broker, t)
    ensures match events[i]
            case Outsider(topic, _) => topic == t
            case Act(id, _) =>
              var r := states[i].runs[id];
              || t in DesiredTopics(r.cfg)
              || (t in r.loaded.topics && ValidState(r.loaded) && r.loaded.ownerID == r.cfg.clientID)
            case _ => false
  {
    ExecutionInv(size, states, events, i);
    if events[i].Act? {
      var r := states[i].runs[events[i].id];
      assert RunInv(states[i].world, events[i].id, r);
      StepBroker(size, events[i].id, states[i].world, r, events[i].outcome);
      MessageIsOwn(states[i].world, events[i].id, r);
    }
  }

  /** The manifest a run works from is one it read at the state path while it ran. */
  lemma {:induction false} LoadedWasRead(
    size: DiscoveryState -> nat, states: seq<Sys>, events: seq<Event>, i: nat, id: RunId)
    requires Execution(size, states, events) && i < |states|
    requires id in states[i].runs && states[i].runs[id].loaded != NO_STATE
    ensures exists j :: 0 <= j < i && events[j] == Act(id, Done)
                        && Content(states[j].world.disk) == states[i].runs[id].loaded
  {
    assert i > 0;
    var before, e := states[i - 1], events[i - 1];
    if e == Act(id, Done) && before.runs[id].pc == Loading && Usable(size, before.runs[id].cfg, before.world.disk) {
      assert Content(before.world.disk) == states[i].runs[id].loaded;
    } else {
      assert id in before.runs && before.runs[id].loaded == states[i].runs[id].loaded;
      LoadedWasRead(size, states, events, i - 1, id);
    }
  }

  predicate SameButLock(a: World, b: World) {
    a.disk == b.disk && a.possible == b.possible && a.broker == b.broker && a.ours == b.ours
  }

  /** A malformed or foreign manifest stops a run before it publishes or writes anything. */
  lemma {:induction false} RefusedManifestTouchesNothing(
    size: DiscoveryState -> nat, id: RunId, w: World, cfg: Settings, os: seq<Outcome>)
    requires cfg.stateFile != "" && !Usable(size, cfg, w.disk)
    ensures var (w', r') := Drive(size, id, w, Fresh(cfg), os);
            SameButLock(w, w') && r'.pc in {Opening, Loading, Returned(false)} && r'.cfg == cfg
  {
    if os != [] {
      RefusedManifestTouchesNothing(size, id, w, cfg, os[..|os| - 1]);
    }
  }

  // ---------- the daemon reads back what it wrote ----------

  predicate Healthy(size: DiscoveryState -> nat, owner: string, f: File) {
    f.Missing?
    || (f.Stored? && size(f.state) <= MAX_STATE_SIZE && ValidState(f.state)
        && (f.state.ownerID == "" || f.state.ownerID == owner))
  }

  ghost predicate AllHealthy(size: DiscoveryState -> nat, owner: string, s: Sys) {
    && (forall f :: f in s.world.possible ==> Healthy(size, owner, f))
    && (forall id :: id in s.runs ==> s.runs[id].cfg.clientID == owner)
  }

  lemma ManuscriptHealthy(size: DiscoveryState -> nat, w: World, id: RunId, r: Run)
    requires RunInv(w, id, r) && Manuscript(r).Some?
    requires size(Manuscript(r).value) <= MAX_STATE_SIZE
    ensures Healthy(size, r.cfg.clientID, Stored(Manuscript(r).value))
  {
    WrittenManifestsAreValid(r.cfg, r.loaded);
  }

  lemma StepPossible(size: DiscoveryState -> nat, id: RunId, w: World, r: Run, o: Outcome)
    ensures var (w', r') := Step(size, id, w, r, o);
            r'.cfg == r.cfg && forall f :: f in w'.possible ==>
              || f in w.possible
              || (Manuscript(r).Some? && f == Stored(Manuscript(r).value) && size(f.state) <= MAX_STATE_SIZE)
  {
  }

  lemma ActKeepsHealthy(size: DiscoveryState -> nat, owner: string, s: Sys, id: RunId, o: Outcome)
    requires Inv(s) && id in s.runs && AllHealthy(size, owner, s)
    ensures AllHealthy(size, owner, Apply(size, s, Act(id, o)))
  {
    var r := s.runs[id];
    assert RunInv(s.world, id, r);
    StepPossible(size, id, s.world, r, o);
    if Manuscript(r).Some? && size(Manuscript(r).value) <= MAX_STATE_SIZE {
      ManuscriptHealthy(size, s.world, id, r);
    }
  }

  lemma {:induction false} HealthyThroughout(
    size: DiscoveryState -> nat, states: seq<Sys>, events: seq<Event>, owner: string, i: nat)
    requires Execution(size, states, events) && i < |states|
    requires forall f :: f in states[0].world.possible ==> Healthy(size, owner, f)
    requires forall e :: e in events && e.Begin? ==> e.cfg.clientID == owner
    ensures AllHealthy(size, owner, states[i])
  {
    if i > 0 {
      HealthyThroughout(size, states, events, owner, i - 1);
      ExecutionInv(size, states, events, i - 1);
      assert events[i - 1] in events;
      if events[i - 1].Act? {
        ActKeepsHealthy(size, owner, states[i - 1], events[i - 1].id, events[i - 1].outcome);
      }
    }
  }

  /** The daemon never locks itself out: whatever was written, half written or survived, a
      later run of the same client accepts it. */
  lemma NeverLockedOut(size: DiscoveryState -> nat, states: seq<Sys>, events: seq<Event>, i: nat, cfg: Settings)
    requires Execution(size, states, events) && i < |states|
    requires forall f :: f in states[0].world.possible ==> Healthy(size, cfg.clientID, f)
    requires forall e :: e in events && e.Begin? ==> e.cfg.clientID == cfg.clientID
    ensures forall f :: f in states[i].world.possible ==> Usable(size, cfg, f)
    ensures Usable(size, cfg, states[i].world.disk)
  {
    HealthyThroughout(size, states, events, cfg.clientID, i);
    ExecutionInv(size, states, events, i);
    forall f | f in states[i].world.possible ensures Usable(size, cfg, f) {
      assert Healthy(size, cfg.clientID, f);
    }
  }

  // ---------- repeating a reconcile ----------

  lemma ExactManifestLeavesNothingStale(r: Run)
    requires Accepted(r.cfg) && r.loaded == Exact(r.cfg)
    ensures !Moved(r.cfg, r.loaded) && r.Stale() == []
  {
    ExactTopics(r.cfg);
    DifferenceFacts(r.Previous().topics, DesiredTopics(r.cfg));
    NoElements(r.Stale());
  }

  lemma LoadedKept(size: DiscoveryState -> nat, s: Sys, e: Event, id: RunId)
    requires id in s.runs && s.runs[id].pc !in {Opening, Loading}
    requires Enabled(s, e) && id in Apply(size, s, e).runs
    ensures var r, r' := s.runs[id], Apply(size, s, e).runs[id];
            r'.loaded == r.loaded && r'.cfg == r.cfg && r'.pc !in {Opening, Loading}
  {
    if e.Act? && e.id == id && !s.runs[id].pc.Returned? {
      StepAdvances(size, id, s.world, s.runs[id], e.outcome);
    }
  }

  lemma {:induction false} LoadedStays(
    size: DiscoveryState -> nat, states: seq<Sys>, events: seq<Event>, i: nat, j: nat, id: RunId)
    requires Execution(size, states, events) && i < j < |states|
    requires forall k :: i <= k <= j ==> id in states[k].runs
    requires events[i] == Act(id, Done) && states[i].runs[id].pc == Loading
    requires Usable(size, states[i].runs[id].cfg, states[i].world.disk)
    ensures states[j].runs[id].loaded == Content(states[i].world.disk)
    ensures states[j].runs[id].cfg == states[i].runs[id].cfg
    ensures states[j].runs[id].pc !in {Opening, Loading}
    decreases j
  {
    var k := j - 1;
    assert states[k + 1] == Apply(size, states[k], events[k]);
    if k > i {
      LoadedStays(size, states, events, i, k, id);
      LoadedKept(size, states[k], events[k], id);
    }
  }

  /** Repeating a reconcile whose exact manifest is in place deletes nothing: as long as the
      run lives, no message it sends is a deletion. */
  lemma RepeatDeletesNothing(
    size: DiscoveryState -> nat, states: seq<Sys>, events: seq<Event>, i: nat, j: nat, id: RunId)
    requires Execution(size, states, events) && i < j < |states|
    requires forall k :: i <= k <= j ==> id in states[k].runs
    requires events[i] == Act(id, Done) && states[i].runs[id].pc == Loading
    requires states[i].world.disk == Stored(Exact(states[i].runs[id].cfg))
    requires Usable(size, states[i].runs[id].cfg, states[i].world.disk)
    ensures Message(states[j].runs[id]).Some? ==> Message(states[j].runs[id]).value.1 != ""
  {
    LoadedStays(size, states, events, i, j, id);
    ExecutionInv(size, states, events, j);
    var r := states[j].runs[id];
    assert RunInv(states[j].world, id, r);
    ExactManifestLeavesNothingStale(r);
    if r.pc.Publishing? && Message(r).Some? { DesiredIndex(r.cfg, r.pc.k); }
  }

  // ---------- when an undisturbed reconcile succeeds ----------

  /** Every manifest the run has to write fits in the size limit. */
  predicate Fits(size: DiscoveryState -> nat, cfg: Settings, m: DiscoveryState) {
    && (Moved(cfg, m) ==> size(Blank(cfg)) <= MAX_STATE_SIZE)
    && size(Pending(cfg, Inherited(cfg, m))) <= MAX_STATE_SIZE
    && size(Exact(cfg)) <= MAX_STATE_SIZE
  }

  predicate Unobstructed(size: DiscoveryState -> nat, cfg: Settings, w: World) {
    w.lock == None && Usable(size, cfg, w.disk) && Fits(size, cfg, Content(w.disk))
  }

  predicate SoFarSoGood(size: DiscoveryState -> nat, w: World, w': World, r: Run) {
    match r.pc
    case Opening => w' == w
    case Loading => w.lock == None && w'.disk == w.disk
    case Returned(ok) => ok <==> Unobstructed(size, r.cfg, w)
    case _ =>
      && w.lock == None && Usable(size, r.cfg, w.disk) && r.loaded == Content(w.disk)
      && (r.pc.Purging? || r.pc.Resetting? ==> Moved(r.cfg, r.loaded))
      && (!r.pc.Purging? && !r.pc.Resetting? && Moved(r.cfg, r.loaded) ==> size(Blank(r.cfg)) <= MAX_STATE_SIZE)
      && (r.pc.Clearing? || r.pc.Publishing? || r.pc.Sealing? ==>
            size(Pending(r.cfg, r.Previous())) <= MAX_STATE_SIZE)
  }

  /** A publishing or silent step. */
  lemma UndisturbedMessage(size: DiscoveryState -> nat, id: RunId, w: World, w': World, r: Run)
    requires r.cfg.stateFile != "" && SoFarSoGood(size, w, w', r)
    requires r.pc.Purging? || r.pc.Clearing? || r.pc.Publishing?
    ensures Step(size, id, w', r, Done).1 == r.(pc := Following(r))
    ensures SoFarSoGood(size, w, Step(size, id, w', r, Done).0, r.(pc := Following(r)))
  {
  }

  lemma UndisturbedWrite(size: DiscoveryState -> nat, id: RunId, w: World, w': World, r: Run)
    requires SoFarSoGood(size, w, w', r) && Manuscript(r).Some?
    ensures var (w2, r2) := Step(size, id, w', r, Done); r2.cfg == r.cfg && SoFarSoGood(size, w, w2, r2)
  {
    var fits := size(Manuscript(r).value) <= MAX_STATE_SIZE;
    assert Step(size, id, w', r, Done).1.pc == if fits then Following(r) else Returned(false);
  }

  lemma UndisturbedStep(size: DiscoveryState -> nat, id: RunId, w: World, w': World, r: Run)
    requires r.cfg.stateFile != "" && SoFarSoGood(size, w, w', r)
    ensures var (w2, r2) := Step(size, id, w', r, Done); r2.cfg == r.cfg && SoFarSoGood(size, w, w2, r2)
  {
    if r.pc.Purging? || r.pc.Clearing? || r.pc.Publishing? {
      UndisturbedMessage(size, id, w, w', r);
    } else if Manuscript(r).Some? {
      UndisturbedWrite(size, id, w, w', r);
    }
  }

  /** With no failing effect, a reconcile succeeds exactly when the lock is free, the manifest
      is usable and the manifests it writes fit the limit; nothing else can make it fail. */
  lemma {:induction false} UndisturbedOutcome(
    size: DiscoveryState -> nat, id: RunId, w: World, cfg: Settings, os: seq<Outcome>)
    requires cfg.stateFile != "" && forall i :: 0 <= i < |os| ==> os[i] == Done
    ensures var (w', r') := Drive(size, id, w, Fresh(cfg), os);
            && r'.cfg == cfg && SoFarSoGood(size, w, w', r')
            && (r'.pc.Returned? ==> (r'.pc.ok <==> Unobstructed(size, cfg, w)))
  {
    if os != [] {
      UndisturbedOutcome(size, id, w, cfg, os[..|os| - 1]);
      var (w', r') := Drive(size, id, w, Fresh(cfg), os[..|os| - 1]);
      UndisturbedStep(size, id, w, w', r');
    }
  }

  // ---------- every reconcile ends ----------

  function Left(total: nat, k: nat): nat {
    if k < total then total - k else 0
  }

  /** How many steps a run that has read the manifest can still take. */
  function Remaining(r: Run): nat {
    var published, stale := |DesiredPublications(r.cfg)|, |r.Stale()|;
    match r.pc
    case Returned(_) => 0
    case Sealing => 1
    case Publishing(k) => 2 + Left(published, k)
    case Clearing(k) => 3 + published + Left(stale, k)
    case Announcing => 4 + published + stale
    case Resetting => 5 + published + stale
    case Purging(k) => 6 + published + stale + Left(|r.loaded.topics|, k)
    case _ => 7 + published + stale + |r.loaded.topics|
  }

  lemma FollowingAdvances(r: Run)
    requires r.pc !in {Opening, Loading} && !r.pc.Returned?
    ensures Following(r) !in {Opening, Loading} && Remaining(r.(pc := Following(r))) < Remaining(r)
  {
  }

  lemma StepAdvances(size: DiscoveryState -> nat, id: RunId, w: World, r: Run, o: Outcome)
    requires r.pc !in {Opening, Loading} && !r.pc.Returned?
    ensures var r' := Step(size, id, w, r, o).1;
            r'.pc !in {Opening, Loading} && Remaining(r') < Remaining(r)
  {
    FollowingAdvances(r);
    assert Step(size, id, w, r, o).1 == r.(pc := if Attempt(size, w, r, o).1 then Following(r) else Returned(false));
  }

  /** The longest a run can take from what is at the state path. */
  function Bound(cfg: Settings, w: World): nat {
    2 + Remaining(Run(cfg, Content(w.disk), if Moved(cfg, Content(w.disk)) then Purging(0) else Announcing))
  }

  predicate OnItsWay(cfg: Settings, w: World, w': World, r: Run, n: nat) {
    match r.pc
    case Opening => n == 0 && r == Fresh(cfg) && w' == w
    case Loading => n == 1 && r == Fresh(cfg).(pc := Loading) && w'.disk == w.disk
    case Returned(_) => true
    case _ => n + Remaining(r) <= Bound(cfg, w)
  }

  lemma OnItsWayKept(
    size: DiscoveryState -> nat, id: RunId, cfg: Settings, w: World, w': World, r: Run, n: nat, o: Outcome)
    requires cfg.stateFile != "" && OnItsWay(cfg, w, w', r, n)
    ensures var (w2, r2) := Step(size, id, w', r, o); OnItsWay(cfg, w, w2, r2, n + 1)
  {
    if r.pc !in {Opening, Loading} && !r.pc.Returned? {
      StepAdvances(size, id, w', r, o);
    }
  }

  /** Whatever fails, a reconcile ends within a number of steps fixed by what it found. */
  lemma {:induction false} RunsEnd(size: DiscoveryState -> nat, id: RunId, w: World, cfg: Settings, os: seq<Outcome>)
    requires cfg.stateFile != ""
    ensures var (w', r') := Drive(size, id, w, Fresh(cfg), os);
            OnItsWay(cfg, w, w', r', |os|) && (|os| >= Bound(cfg, w) ==> r'.pc.Returned?)
  {
    if os != [] {
      var before := os[..|os| - 1];
      RunsEnd(size, id, w, cfg, before);
      var (w', r') := Drive(size, id, w, Fresh(cfg), before);
      OnItsWayKept(size, id, cfg, w, w', r', |before|, os[|os| - 1]);
    }
    RemainingIsPositive(Drive(size, id, w, Fresh(cfg), os).1);
  }

  lemma RemainingIsPositive(r: Run)
    ensures !r.pc.Returned? <==> Remaining(r) > 0
  {
  }

  /** Left alone, a reconcile repairs everything: from any tracked world, whatever half-finished
      runs and old configurations left there, it ends converged if nothing obstructs it. */
  lemma UndisturbedRunConverges(size: DiscoveryState -> nat, id: RunId, w: World, cfg: Settings, n: nat)
    requires Accepted(cfg) && Tracked(w) && Unobstructed(size, cfg, w) && n >= Bound(cfg, w)
    ensures var (w', r') := Drive(size, id, w, Fresh(cfg), seq(n, _ => Done));
            r'.pc == Returned(true) && Converged(w', cfg) && AddsNothingElse(w, w')
  {
    var os := seq(n, _ => Done);
    RunsEnd(size, id, w, cfg, os);
    UndisturbedOutcome(size, id, w, cfg, os);
    SoloRunIsSafe(size, id, w, cfg, os);
  }

  // ---------- a configuration without a state path ----------

  /** No publish has failed; the first outcome is spent on getting started. */
  predicate Smooth(os: seq<Outcome>) {
    forall i :: 1 <= i < |os| ==> os[i].Done?
  }

  /** How many of so many publications took effect: the first failure is the last effect. */
  function TookEffect(os: seq<Outcome>, total: nat): (n: nat)
    ensures n <= total
  {
    if |os| <= 1 then 0
    else
      var before, o := os[..|os| - 1], os[|os| - 1];
      var n := TookEffect(before, total);
      if Smooth(before) && n < total && !o.FailedEarly? then n + 1 else n
  }

  predicate UntrackedAt(w: World, w': World, cfg: Settings, n: nat)
    requires n <= |DesiredPublications(cfg)|
  {
    && w'.disk == w.disk && w'.possible == w.possible
    && w'.ours == w.ours + Elems(DesiredTopics(cfg)[..n])
    && w'.broker.Keys == w.broker.Keys + Elems(DesiredTopics(cfg)[..n])
  }

  /** Where the run is after these outcomes. */
  predicate UntrackedPc(cfg: Settings, r: Run, os: seq<Outcome>) {
    var total := |DesiredPublications(cfg)|;
    var n := TookEffect(os, total);
    && r == Fresh(cfg).(pc := r.pc)
    && match r.pc
       case Opening => os == []
       case Publishing(k) => k == n && os != [] && Smooth(os)
       case Returned(ok) => os != [] && (!Smooth(os) || n == total) && (ok ==> n == total)
       case _ => false
  }

  lemma PublishGrows(w: World, topic: string, payload: string, o: Outcome)
    requires |payload| > 0
    ensures var put := if o.FailedEarly? then {} else {topic};
            && Publish(w, topic, payload, o).ours == w.ours + put
            && Publish(w, topic, payload, o).broker.Keys == w.broker.Keys + put
  {
  }

  lemma UntrackedPublish(w: World, w': World, cfg: Settings, k: nat, o: Outcome)
    requires k < |DesiredPublications(cfg)| && UntrackedAt(w, w', cfg, k)
    requires |DesiredPublications(cfg)[k].payload| > 0
    ensures var p := DesiredPublications(cfg)[k];
            UntrackedAt(w, Publish(w', p.topic, p.payload, o), cfg, if o.FailedEarly? then k else k + 1)
  {
    var topics, p := DesiredTopics(cfg), DesiredPublications(cfg)[k];
    assert topics[..k + 1] == topics[..k] + [topics[k]];
    Append(topics[..k], topics[k]);
    DesiredIndex(cfg, k);
    PublishGrows(w', p.topic, p.payload, o);
  }

  lemma TookEffectNext(os: seq<Outcome>, o: Outcome, total: nat)
    requires os != []
    ensures Smooth(os + [o]) <==> Smooth(os) && o.Done?
    ensures var n := TookEffect(os, total);
            TookEffect(os + [o], total) == if Smooth(os) && n < total && !o.FailedEarly? then n + 1 else n
  {
    var all := os + [o];
    assert all[..|os|] == os;
    assert all[|os|] == o;
    assert forall i :: 1 <= i < |os| ==> os[i] == all[i];
  }

  lemma UntrackedStep(
    size: DiscoveryState -> nat, id: RunId, w: World, w': World, cfg: Settings, r: Run,
    os: seq<Outcome>, o: Outcome)
    requires cfg.stateFile == "" && forall p :: p in DesiredPublications(cfg) ==> |p.payload| > 0
    requires UntrackedAt(w, w', cfg, TookEffect(os, |DesiredPublications(cfg)|)) && UntrackedPc(cfg, r, os)
    ensures var (w2, r2) := Step(size, id, w', r, o);
            && UntrackedAt(w, w2, cfg, TookEffect(os + [o], |DesiredPublications(cfg)|))
            && UntrackedPc(cfg, r2, os + [o])
  {
    var total := |DesiredPublications(cfg)|;
    match r.pc
    case Opening =>
      assert os + [o] == [o];
      assert Step(size, id, w', r, o) == (w', r.(pc := Publishing(0)));
    case Publishing(k) =>
      TookEffectNext(os, o, total);
      if k < total {
        PublishingShape(size, id, w', r, o);
        assert DesiredPublications(cfg)[k] in DesiredPublications(cfg);
        UntrackedPublish(w, w', cfg, k, o);
      } else {
        assert Step(size, id, w', r, o) == Return(w', id, r, true);
      }
    case Returned(_) =>
      TookEffectNext(os, o, total);
      assert Step(size, id, w', r, o) == (w', r);
    case _ =>
  }

  lemma {:induction false} UntrackedRun(
    size: DiscoveryState -> nat, id: RunId, w: World, cfg: Settings, os: seq<Outcome>)
    requires cfg.stateFile == "" && forall p :: p in DesiredPublications(cfg) ==> |p.payload| > 0
    ensures var (w', r') := Drive(size, id, w, Fresh(cfg), os);
            UntrackedAt(w, w', cfg, TookEffect(os, |DesiredPublications(cfg)|)) && UntrackedPc(cfg, r', os)
  {
    if os == [] {
      assert DesiredTopics(cfg)[..0] == [];
    } else {
      var before, o := os[..|os| - 1], os[|os| - 1];
      assert os == before + [o];
      UntrackedRun(size, id, w, cfg, before);
      var (w', r') := Drive(size, id, w, Fresh(cfg), before);
      UntrackedStep(size, id, w, w', cfg, r', before, o);
    }
  }

  /** Without a state path nothing is recorded. Whatever fails, and wherever the run is, topics
      stay tracked exactly when the file happens to list every desired topic whose publication
      took effect already. Defaults make sure this never runs. */
  lemma UntrackedExactlyWhenUnlisted(
    size: DiscoveryState -> nat, id: RunId, w: World, cfg: Settings, os: seq<Outcome>)
    requires cfg.stateFile == "" && Tracked(w)
    requires forall p :: p in DesiredPublications(cfg) ==> |p.payload| > 0
    ensures var n := TookEffect(os, |DesiredPublications(cfg)|);
            var (w', r') := Drive(size, id, w, Fresh(cfg), os);
            && (Tracked(w') <==> forall f :: f in w.possible ==> Elems(DesiredTopics(cfg)[..n]) <= Listed(f))
            && (r'.pc == Returned(true) ==> n == |DesiredPublications(cfg)|)
  {
    UntrackedRun(size, id, w, cfg, os);
    var n := TookEffect(os, |DesiredPublications(cfg)|);
    var (w', r') := Drive(size, id, w, Fresh(cfg), os);
    TrackedAfterGrowth(w, w', Elems(DesiredTopics(cfg)[..n]));
  }

  lemma TrackedAfterGrowth(w: World, w': World, put: set<string>)
    requires Tracked(w) && w'.disk == w.disk && w'.possible == w.possible
    requires w'.ours == w.ours + put && w'.broker.Keys == w.broker.Keys + put
    ensures Tracked(w') <==> forall f :: f in w.possible ==> put <= Listed(f)
  {
  }
}
