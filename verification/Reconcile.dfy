/** Discovery reconciliation as a step machine. One run owns the lock, reads the manifest,
    writes an over-approximation, deletes, publishes, and writes the exact list. Any publish
    or write may fail with or without effect, any run may crash between two steps, power may
    be lost, and any number of runs with different configurations may share the state file. */
module Reconcile {
  import opened Wrappers
  import opened Text
  import opened Config
  import opened Manifest

  type RunId = nat

  /** What the state path holds. Unreadable covers everything loading refuses before
      validation: wrong mode or owner, undecodable text, trailing data. */
  datatype File = Missing | Unreadable | Stored(state: DiscoveryState)

  /** possible holds every content a power loss may leave at the state path: a replacement
      that was renamed into place but never synced may survive or not. ours is the set of
      topics this controller put on the broker and has not deleted since. */
  datatype World = World(
    disk: File, possible: set<File>, broker: map<string, string>, ours: set<string>, lock: Option<RunId>)

  datatype Pc =
    | Opening
    | Loading
    | Purging(k: nat)
    | Resetting
    | Announcing
    | Clearing(k: nat)
    | Publishing(k: nat)
    | Sealing
    | Returned(ok: bool)

  datatype Run = Run(cfg: Settings, loaded: DiscoveryState, pc: Pc)
  {
    function Previous(): DiscoveryState {
      Inherited(cfg, loaded)
    }

    function Stale(): seq<string> {
      Difference(Previous().topics, DesiredTopics(cfg))
    }
  }

  function Fresh(cfg: Settings): Run {
    Run(cfg, NO_STATE, Opening)
  }

  /** How an effect went: it succeeded, it failed after taking effect, or it failed before. */
  datatype Outcome = Done | FailedLate | FailedEarly

  // ---------- effects ----------

  /** A retained message; an empty payload removes the topic (MQTT 3.1.1, section 3.3.1.3). */
  function Retain(broker: map<string, string>, topic: string, payload: string): map<string, string> {
    if |payload| == 0 then broker - {topic} else broker[topic := payload]
  }

  function Publish(w: World, topic: string, payload: string, o: Outcome): World {
    if o.FailedEarly? then w
    else w.(broker := Retain(w.broker, topic, payload),
            ours := if |payload| == 0 then w.ours - {topic} else w.ours + {topic})
  }

  function Write(size: DiscoveryState -> nat, w: World, state: DiscoveryState, o: Outcome): World {
    if size(state) > MAX_STATE_SIZE || o.FailedEarly? then w
    else w.(disk := Stored(state),
            possible := (if o.Done? then {} else w.possible) + {Stored(state)})
  }

  predicate Loadable(size: DiscoveryState -> nat, f: File) {
    f.Missing? || (f.Stored? && size(f.state) <= MAX_STATE_SIZE)
  }

  function Content(f: File): DiscoveryState {
    if f.Stored? then f.state else NO_STATE
  }

  /** The manifest is one this configuration may act on. */
  predicate Usable(size: DiscoveryState -> nat, cfg: Settings, f: File) {
    Loadable(size, f) && ValidState(Content(f)) && !Foreign(cfg, Content(f))
  }

  // ---------- one run, one step ----------

  function Return(w: World, id: RunId, r: Run, ok: bool): (World, Run) {
    (w.(lock := if w.lock == Some(id) then None else w.lock), r.(pc := Returned(ok)))
  }

  /** The message a run publishes in its next step, if any. */
  function Message(r: Run): Option<(string, string)> {
    match r.pc
    case Purging(k) => if k < |r.loaded.topics| then Some((r.loaded.topics[k], "")) else None
    case Clearing(k) => if k < |r.Stale()| then Some((r.Stale()[k], "")) else None
    case Publishing(k) =>
      var pubs := DesiredPublications(r.cfg);
      if k < |pubs| then Some((pubs[k].topic, pubs[k].payload)) else None
    case _ => None
  }

  /** The manifest a run writes in its next step, if any. */
  function Manuscript(r: Run): Option<DiscoveryState> {
    match r.pc
    case Resetting => Some(Blank(r.cfg))
    case Announcing => Some(Pending(r.cfg, r.Previous()))
    case Sealing => Some(Exact(r.cfg))
    case _ => None
  }

  /** Where a run goes once its current effect, if any, has succeeded. */
  function Following(r: Run): Pc {
    match r.pc
    case Purging(k) => if k < |r.loaded.topics| then Purging(k + 1) else Resetting
    case Resetting => Announcing
    case Announcing => Clearing(0)
    case Clearing(k) => if k < |r.Stale()| then Clearing(k + 1) else Publishing(0)
    case Publishing(k) =>
      if k < |DesiredPublications(r.cfg)| then Publishing(k + 1)
      else if r.cfg.stateFile == "" then Returned(true)
      else Sealing
    case Sealing => Returned(true)
    case pc => pc
  }

  function Proceed(w: World, id: RunId, r: Run): (World, Run) {
    if Following(r).Returned? then Return(w, id, r, true) else (w, r.(pc := Following(r)))
  }

  /** The effect of a run's next step, and whether the run goes on after it. */
  function Attempt(size: DiscoveryState -> nat, w: World, r: Run, o: Outcome): (World, bool) {
    if Message(r).Some? then
      (Publish(w, Message(r).value.0, Message(r).value.1, o), o.Done?)
    else if Manuscript(r).Some? then
      var state := Manuscript(r).value;
      (Write(size, w, state, o), o.Done? && size(state) <= MAX_STATE_SIZE)
    else
      (w, true)
  }

  function Step(size: DiscoveryState -> nat, id: RunId, w: World, r: Run, o: Outcome): (World, Run) {
    match r.pc
    case Opening =>
      if r.cfg.stateFile == "" then (w, r.(pc := Publishing(0)))
      else if !o.Done? || w.lock != None then Return(w, id, r, false)
      else (w.(lock := Some(id)), r.(pc := Loading))
    case Loading =>
      if !o.Done? || !Usable(size, r.cfg, w.disk) then Return(w, id, r, false)
      else
        var m := Content(w.disk);
        (w, r.(loaded := m, pc := if Moved(r.cfg, m) then Purging(0) else Announcing))
    case Returned(_) => (w, r)
    case _ =>
      var (w', ok) := Attempt(size, w, r, o);
      if ok then Proceed(w', id, r) else Return(w', id, r, false)
  }

  /** A run by itself, through a list of outcomes. */
  function Drive(size: DiscoveryState -> nat, id: RunId, w: World, r: Run, os: seq<Outcome>): (World, Run) {
    if os == [] then (w, r)
    else
      var (w', r') := Drive(size, id, w, r, os[..|os| - 1]);
      Step(size, id, w', r', os[|os| - 1])
  }

  lemma DriveOneMore(size: DiscoveryState -> nat, id: RunId, w: World, r: Run, os: seq<Outcome>, o: Outcome)
    ensures var (w', r') := Drive(size, id, w, r, os);
            Drive(size, id, w, r, os + [o]) == Step(size, id, w', r', o)
  {
    assert (os + [o])[..|os|] == os;
  }

  // ---------- many runs ----------

  datatype Sys = Sys(world: World, runs: map<RunId, Run>)

  datatype Event =
    | Begin(id: RunId, cfg: Settings)
    | Act(id: RunId, outcome: Outcome)
    | Crash(id: RunId)
    | PowerLoss(survivor: File)
    | Outsider(topic: string, payload: string)

  /** Outsiders may publish anything anywhere except over a topic that is ours. */
  predicate Enabled(s: Sys, e: Event) {
    match e
    case Begin(id, cfg) => id !in s.runs && Accepted(cfg)
    case Act(id, _) => id in s.runs
    case Crash(id) => id in s.runs
    case PowerLoss(f) => f in s.world.possible
    case Outsider(t, _) => t !in s.world.ours
  }

  function Apply(size: DiscoveryState -> nat, s: Sys, e: Event): Sys
    requires Enabled(s, e)
  {
    match e
    case Begin(id, cfg) => s.(runs := s.runs[id := Fresh(cfg)])
    case Act(id, o) =>
      var (w, r) := Step(size, id, s.world, s.runs[id], o);
      Sys(w, s.runs[id := r])
    case Crash(id) =>
      Sys(s.world.(lock := if s.world.lock == Some(id) then None else s.world.lock), s.runs - {id})
    case PowerLoss(f) => Sys(s.world.(disk := f, possible := {f}, lock := None), map[])
    case Outsider(t, p) => s.(world := s.world.(broker := Retain(s.world.broker, t, p)))
  }

  /** Anything at all may be at the state path and on the broker; ours may be any topics that are
      on the broker and listed there, left by earlier lives of the controller. */
  predicate Initial(s: Sys) {
    && s.runs == map[] && s.world.lock == None && s.world.possible == {s.world.disk}
    && s.world.ours <= Listed(s.world.disk) && s.world.ours <= s.world.broker.Keys
  }

  ghost predicate Execution(size: DiscoveryState -> nat, states: seq<Sys>, events: seq<Event>) {
    && |states| == |events| + 1
    && Initial(states[0])
    && forall i :: 0 <= i < |events| ==>
         Enabled(states[i], events[i]) && states[i + 1] == Apply(size, states[i], events[i])
  }

  // ---------- the invariant ----------

  function Listed(f: File): set<string> {
    Elems(Content(f).topics)
  }

  /** Whatever content survives, it lists every topic that is ours. */
  predicate Tracked(w: World) {
    && w.disk in w.possible
    && (forall f :: f in w.possible ==> w.ours <= Listed(f))
    && w.ours <= w.broker.Keys
  }

  predicate Holding(pc: Pc) {
    !pc.Opening? && !pc.Returned?
  }

  predicate PublishedUpTo(w: World, cfg: Settings, k: nat)
    requires k <= |DesiredPublications(cfg)|
  {
    forall j {:trigger DesiredPublications(cfg)[j]} :: 0 <= j < k ==>
      var p := DesiredPublications(cfg)[j];
      p.topic in w.ours && p.topic in w.broker && w.broker[p.topic] == p.payload
  }

  predicate Progress(w: World, r: Run) {
    match r.pc
    case Opening => true
    case Loading => true
    case Returned(_) => true
    case Purging(k) =>
      Moved(r.cfg, r.loaded) && k <= |r.loaded.topics|
      && w.ours <= Elems(r.loaded.topics) && w.ours !! Elems(r.loaded.topics[..k])
    case Resetting => Moved(r.cfg, r.loaded) && w.ours == {}
    case Announcing => w.ours <= Elems(r.Previous().topics)
    case Clearing(k) =>
      k <= |r.Stale()| && w.possible == {Stored(Pending(r.cfg, r.Previous()))}
      && w.ours <= Elems(r.Previous().topics) + Elems(DesiredTopics(r.cfg))
      && w.ours !! Elems(r.Stale()[..k])
    case Publishing(k) =>
      k <= |DesiredPublications(r.cfg)| && w.possible == {Stored(Pending(r.cfg, r.Previous()))}
      && w.ours <= Elems(DesiredTopics(r.cfg)) && PublishedUpTo(w, r.cfg, k)
    case Sealing =>
      w.ours <= Elems(DesiredTopics(r.cfg)) && PublishedUpTo(w, r.cfg, |DesiredPublications(r.cfg)|)
  }

  predicate RunInv(w: World, id: RunId, r: Run) {
    && Accepted(r.cfg)
    && (Holding(r.pc) <==> w.lock == Some(id))
    && ValidState(r.loaded) && !Foreign(r.cfg, r.loaded)
    && Progress(w, r)
  }

  predicate Inv(s: Sys) {
    && Tracked(s.world)
    && (s.world.lock.Some? ==> s.world.lock.value in s.runs)
    && forall id :: id in s.runs ==> RunInv(s.world, id, s.runs[id])
  }

  // ---------- the invariant is kept ----------

  lemma PublishKeepsTracked(w: World, topic: string, payload: string, o: Outcome)
    requires Tracked(w)
    requires |payload| > 0 ==> forall f :: f in w.possible ==> topic in Listed(f)
    ensures Tracked(Publish(w, topic, payload, o))
  {
  }

  lemma WriteKeepsTracked(size: DiscoveryState -> nat, w: World, state: DiscoveryState, o: Outcome)
    requires Tracked(w) && w.ours <= Elems(state.topics)
    ensures Tracked(Write(size, w, state, o))
  {
  }

  lemma DesiredIndex(cfg: Settings, k: nat)
    requires k < |DesiredPublications(cfg)|
    ensures DesiredPublications(cfg)[k].topic == DesiredTopics(cfg)[k]
    ensures DesiredPublications(cfg)[k].topic in Elems(DesiredTopics(cfg))
    ensures Accepted(cfg) ==> |DesiredPublications(cfg)[k].payload| > 0
  {
    if Accepted(cfg) { assert cfg.entities[k] in cfg.entities; }
  }

  lemma DeletionStep(w: World, topics: seq<string>, k: nat, o: Outcome)
    requires k < |topics| && w.ours !! Elems(topics[..k])
    ensures o.Done? ==> Publish(w, topics[k], "", o).ours !! Elems(topics[..k + 1])
  {
    assert topics[..k + 1] == topics[..k] + [topics[k]];
    Append(topics[..k], topics[k]);
  }

  lemma PurgingKeeps(size: DiscoveryState -> nat, id: RunId, w: World, r: Run, o: Outcome)
    requires Tracked(w) && RunInv(w, id, r) && r.pc.Purging?
    ensures var (w', r') := Step(size, id, w, r, o); Tracked(w') && RunInv(w', id, r')
  {
    var k := r.pc.k;
    if k < |r.loaded.topics| {
      PublishKeepsTracked(w, r.loaded.topics[k], "", o);
      DeletionStep(w, r.loaded.topics, k, o);
    } else {
      assert r.loaded.topics[..k] == r.loaded.topics;
    }
  }

  lemma ClearingKeeps(size: DiscoveryState -> nat, id: RunId, w: World, r: Run, o: Outcome)
    requires Tracked(w) && RunInv(w, id, r) && r.pc.Clearing?
    ensures var (w', r') := Step(size, id, w, r, o); Tracked(w') && RunInv(w', id, r')
  {
    var k := r.pc.k;
    if k < |r.Stale()| {
      PublishKeepsTracked(w, r.Stale()[k], "", o);
      DeletionStep(w, r.Stale(), k, o);
    } else {
      assert r.Stale()[..k] == r.Stale();
      DifferenceFacts(r.Previous().topics, DesiredTopics(r.cfg));
      assert w.ours <= Elems(DesiredTopics(r.cfg));
    }
  }

  lemma PublishedOneMore(w: World, cfg: Settings, k: nat)
    requires Accepted(cfg) && k < |DesiredPublications(cfg)| && PublishedUpTo(w, cfg, k)
    ensures var p := DesiredPublications(cfg)[k];
            PublishedUpTo(Publish(w, p.topic, p.payload, Done), cfg, k + 1)
  {
    DesiredIndex(cfg, k);
    DesiredTopicsAreOwned(cfg);
    var pubs := DesiredPublications(cfg);
    forall j | 0 <= j < k ensures pubs[j].topic != pubs[k].topic {
      assert DesiredTopics(cfg)[j] != DesiredTopics(cfg)[k];
    }
  }

  lemma PublishDesired(w: World, cfg: Settings, k: nat, o: Outcome)
    requires Accepted(cfg) && k < |DesiredPublications(cfg)| && PublishedUpTo(w, cfg, k) && Tracked(w)
    requires w.ours <= Elems(DesiredTopics(cfg))
    requires forall f :: f in w.possible ==> Elems(DesiredTopics(cfg)) <= Listed(f)
    ensures var p := DesiredPublications(cfg)[k];
            var w' := Publish(w, p.topic, p.payload, o);
            && Tracked(w') && w'.possible == w.possible && w'.ours <= Elems(DesiredTopics(cfg))
            && (o.Done? ==> PublishedUpTo(w', cfg, k + 1))
  {
    var p := DesiredPublications(cfg)[k];
    DesiredIndex(cfg, k);
    PublishKeepsTracked(w, p.topic, p.payload, o);
    PublishedOneMore(w, cfg, k);
  }

  /** Where a run goes from publishing its k-th document. */
  lemma PublishingShape(size: DiscoveryState -> nat, id: RunId, w: World, r: Run, o: Outcome)
    requires r.pc.Publishing? && r.pc.k < |DesiredPublications(r.cfg)|
    ensures var p := DesiredPublications(r.cfg)[r.pc.k];
            var w' := Publish(w, p.topic, p.payload, o);
            Step(size, id, w, r, o)
              == if o.Done? then (w', r.(pc := Publishing(r.pc.k + 1))) else Return(w', id, r, false)
  {
  }

  lemma PublishingOneKeeps(size: DiscoveryState -> nat, id: RunId, w: World, r: Run, o: Outcome)
    requires Tracked(w) && RunInv(w, id, r)
    requires r.pc.Publishing? && r.pc.k < |DesiredPublications(r.cfg)|
    ensures var (w', r') := Step(size, id, w, r, o); Tracked(w') && RunInv(w', id, r')
  {
    PublishingShape(size, id, w, r, o);
    PendingTopics(r.cfg, r.Previous());
    PublishDesired(w, r.cfg, r.pc.k, o);
  }

  lemma PublishingKeeps(size: DiscoveryState -> nat, id: RunId, w: World, r: Run, o: Outcome)
    requires Tracked(w) && RunInv(w, id, r) && r.pc.Publishing?
    ensures var (w', r') := Step(size, id, w, r, o); Tracked(w') && RunInv(w', id, r')
  {
    if r.pc.k < |DesiredPublications(r.cfg)| {
      PublishingOneKeeps(size, id, w, r, o);
    } else {
      assert Step(size, id, w, r, o) == (w, r.(pc := Sealing));
    }
  }

  lemma ResettingKeeps(size: DiscoveryState -> nat, id: RunId, w: World, r: Run, o: Outcome)
    requires Tracked(w) && RunInv(w, id, r) && r.pc.Resetting?
    ensures var (w', r') := Step(size, id, w, r, o); Tracked(w') && RunInv(w', id, r')
  {
    WriteKeepsTracked(size, w, Blank(r.cfg), o);
  }

  lemma AnnouncingKeeps(size: DiscoveryState -> nat, id: RunId, w: World, r: Run, o: Outcome)
    requires Tracked(w) && RunInv(w, id, r) && r.pc.Announcing?
    ensures var (w', r') := Step(size, id, w, r, o); Tracked(w') && RunInv(w', id, r')
  {
    var pending := Pending(r.cfg, r.Previous());
    PendingTopics(r.cfg, r.Previous());
    WriteKeepsTracked(size, w, pending, o);
    var w' := Write(size, w, pending, o);
    if o.Done? && size(pending) <= MAX_STATE_SIZE {
      assert r.Stale()[..0] == [];
      assert w'.possible == {Stored(pending)};
      assert Progress(w', r.(pc := Clearing(0)));
    }
  }

  lemma SealingKeeps(size: DiscoveryState -> nat, id: RunId, w: World, r: Run, o: Outcome)
    requires Tracked(w) && RunInv(w, id, r) && r.pc.Sealing?
    ensures var (w', r') := Step(size, id, w, r, o); Tracked(w') && RunInv(w', id, r')
  {
    ExactTopics(r.cfg);
    WriteKeepsTracked(size, w, Exact(r.cfg), o);
  }

  /** Every step of a run, whatever its outcome, keeps the tracking and the run's own facts. */
  lemma StepKeeps(size: DiscoveryState -> nat, id: RunId, w: World, r: Run, o: Outcome)
    requires Tracked(w) && RunInv(w, id, r)
    ensures var (w', r') := Step(size, id, w, r, o); Tracked(w') && RunInv(w', id, r')
  {
    match r.pc
    case Opening =>
    case Loading =>
      assert r.loaded.topics[..0] == [];
      var m := Content(w.disk);
      assert m.topics[..0] == [];
      assert w.ours <= Listed(w.disk);
    case Purging(_) => PurgingKeeps(size, id, w, r, o);
    case Clearing(_) => ClearingKeeps(size, id, w, r, o);
    case Publishing(_) => PublishingKeeps(size, id, w, r, o);
    case Resetting => ResettingKeeps(size, id, w, r, o);
    case Announcing => AnnouncingKeeps(size, id, w, r, o);
    case Sealing => SealingKeeps(size, id, w, r, o);
    case Returned(_) =>
  }

  /** While another run holds the lock, a run can change nothing. */
  lemma LockedOutRunIsIdle(size: DiscoveryState -> nat, id: RunId, w: World, r: Run, o: Outcome)
    requires RunInv(w, id, r) && w.lock.Some? && w.lock.value != id
    ensures Step(size, id, w, r, o).0 == w
  {
    assert !Holding(r.pc);
  }

  lemma StepLock(size: DiscoveryState -> nat, id: RunId, w: World, r: Run, o: Outcome)
    ensures Step(size, id, w, r, o).0.lock in {w.lock, None, Some(id)}
  {
  }

  /** A step of one run does not disturb another: only the lock holder touches the world. */
  lemma StepSparesOthers(size: DiscoveryState -> nat, id: RunId, w: World, r: Run, o: Outcome, other: RunId, q: Run)
    requires RunInv(w, id, r) && RunInv(w, other, q) && id != other
    ensures RunInv(Step(size, id, w, r, o).0, other, q)
  {
    if Holding(q.pc) {
      LockedOutRunIsIdle(size, id, w, r, o);
    } else {
      StepLock(size, id, w, r, o);
    }
  }

  lemma OutsiderSpares(w: World, topic: string, payload: string, id: RunId, q: Run)
    requires topic !in w.ours && RunInv(w, id, q)
    ensures RunInv(w.(broker := Retain(w.broker, topic, payload)), id, q)
  {
  }

  lemma ActKeeps(size: DiscoveryState -> nat, s: Sys, id: RunId, o: Outcome)
    requires Inv(s) && id in s.runs
    ensures Inv(Apply(size, s, Act(id, o)))
  {
    var (w', r') := Step(size, id, s.world, s.runs[id], o);
    StepKeeps(size, id, s.world, s.runs[id], o);
    StepLock(size, id, s.world, s.runs[id], o);
    forall other | other in s.runs && other != id ensures RunInv(w', other, s.runs[other]) {
      StepSparesOthers(size, id, s.world, s.runs[id], o, other, s.runs[other]);
    }
  }

  lemma CrashKeeps(size: DiscoveryState -> nat, s: Sys, id: RunId)
    requires Inv(s) && id in s.runs
    ensures Inv(Apply(size, s, Crash(id)))
  {
    var s' := Apply(size, s, Crash(id));
    forall other | other in s'.runs ensures RunInv(s'.world, other, s'.runs[other]) {
      assert RunInv(s.world, other, s.runs[other]);
      assert Progress(s'.world, s.runs[other]) == Progress(s.world, s.runs[other]);
    }
  }

  lemma ApplyKeeps(size: DiscoveryState -> nat, s: Sys, e: Event)
    requires Inv(s) && Enabled(s, e)
    ensures Inv(Apply(size, s, e))
  {
    match e
    case Begin(id, cfg) =>
    case Act(id, o) => ActKeeps(size, s, id, o);
    case Crash(id) => CrashKeeps(size, s, id);
    case PowerLoss(f) =>
    case Outsider(t, p) =>
      forall id | id in s.runs ensures RunInv(Apply(size, s, e).world, id, s.runs[id]) {
        OutsiderSpares(s.world, t, p, id, s.runs[id]);
      }
  }

  lemma {:induction false} ExecutionInv(size: DiscoveryState -> nat, states: seq<Sys>, events: seq<Event>, i: nat)
    requires Execution(size, states, events) && i < |states|
    ensures Inv(states[i])
  {
    if i > 0 {
      ExecutionInv(size, states, events, i - 1);
      ApplyKeeps(size, states[i - 1], events[i - 1]);
    }
  }
}
