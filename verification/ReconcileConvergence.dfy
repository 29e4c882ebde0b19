/** What is on the broker once a reconcile has returned without error: exactly what is desired,
    apart from what never was the controller's. */
module ReconcileConvergence {
  import opened Wrappers
  import opened Text
  import opened DiscoveryTopics
  import opened Config
  import opened Manifest
  import opened Reconcile
  import opened ReconcileSafety

  // ---------- one run by itself ----------

  /** The run has read nothing yet, or what it read is what it found. */
  predicate ReadsWhatItFound(size: DiscoveryState -> nat, w: World, w': World, r: Run) {
    if r.pc.Opening? || r.pc.Loading? then r.loaded == NO_STATE && w'.disk == w.disk
    else r.loaded == NO_STATE || r.loaded == Content(w.disk)
  }

  predicate SameAt(before: map<string, string>, after: map<string, string>, t: string) {
    (t in before <==> t in after) && (t in before && t in after ==> before[t] == after[t])
  }

  lemma StepSpares(size: DiscoveryState -> nat, id: RunId, w: World, r: Run, o: Outcome, t: string)
    requires RunInv(w, id, r) && t !in DesiredTopics(r.cfg) && t !in r.loaded.topics
    ensures SameAt(w.broker, Step(size, id, w, r, o).0.broker, t)
  {
    StepBroker(size, id, w, r, o);
    if Message(r).Some? { MessageIsOwn(w, id, r); }
  }

  lemma StepReads(size: DiscoveryState -> nat, id: RunId, w: World, w': World, r: Run, o: Outcome)
    requires ReadsWhatItFound(size, w, w', r)
    ensures var (w2, r2) := Step(size, id, w', r, o); ReadsWhatItFound(size, w, w2, r2)
  {
  }

  /** Topics that are neither desired nor listed in the file found are left alone. */
  lemma {:induction false} SoloRunSpares(
    size: DiscoveryState -> nat, id: RunId, w: World, cfg: Settings, os: seq<Outcome>, t: string)
    requires Accepted(cfg) && Tracked(w) && w.lock != Some(id)
    requires t !in DesiredTopics(cfg) && t !in Listed(w.disk)
    ensures var (w', r') := Drive(size, id, w, Fresh(cfg), os);
            SameAt(w.broker, w'.broker, t) && ReadsWhatItFound(size, w, w', r')
  {
    if os != [] {
      var n := |os| - 1;
      SoloRunSpares(size, id, w, cfg, os[..n], t);
      SoloRunIsSafe(size, id, w, cfg, os[..n]);
      var (w', r') := Drive(size, id, w, Fresh(cfg), os[..n]);
      StepSpares(size, id, w', r', os[n], t);
      StepReads(size, id, w, w', r', os[n]);
    }
  }

  /** The world a run finds: any file, and any broker, of which what the file lists is ours. */
  function Found(disk: File, broker: map<string, string>): World {
    World(disk, {disk}, broker, Listed(disk) * broker.Keys, None)
  }

  /** The whole broker after a successful run: a desired topic carries its document, a listed one
      that is not desired is gone, and every other is as it was. */
  lemma SoloRunDecidesTheBroker(
    size: DiscoveryState -> nat, id: RunId, disk: File, broker: map<string, string>, cfg: Settings,
    os: seq<Outcome>, t: string)
    requires Accepted(cfg) && Drive(size, id, Found(disk, broker), Fresh(cfg), os).1.pc == Returned(true)
    ensures var after := Drive(size, id, Found(disk, broker), Fresh(cfg), os).0.broker;
            if t in DesiredTopics(cfg) then
              exists k :: 0 <= k < |DesiredPublications(cfg)|
                          && DesiredPublications(cfg)[k].topic == t && t in after
                          && after[t] == DesiredPublications(cfg)[k].payload
            else if t in Listed(disk) then t !in after
            else SameAt(broker, after, t)
  {
    var w := Found(disk, broker);
    var (w', r') := Drive(size, id, w, Fresh(cfg), os);
    SoloRunIsSafe(size, id, w, cfg, os);
    if t in DesiredTopics(cfg) {
      var k :| 0 <= k < |DesiredTopics(cfg)| && DesiredTopics(cfg)[k] == t;
      assert DesiredPublications(cfg)[k].topic == t;
    } else if t in Listed(disk) {
      assert t !in w'.ours;
      assert t !in w.broker.Keys - w.ours;
    } else {
      SoloRunSpares(size, id, w, cfg, os, t);
    }
  }

  // ---------- what others put on the broker ----------

  ghost predicate PutByOutsider(events: seq<Event>, from: nat, to: nat, t: string)
    requires to <= |events|
  {
    exists m :: from <= m < to && events[m].Outsider? && events[m].topic == t && |events[m].payload| > 0
  }

  lemma OthersStep(size: DiscoveryState -> nat, s: Sys, e: Event, t: string)
    requires Enabled(s, e)
    requires t in Apply(size, s, e).world.broker && t !in Apply(size, s, e).world.ours
    ensures || (t in s.world.broker && t !in s.world.ours)
            || (e.Outsider? && e.topic == t && |e.payload| > 0)
  {
    if e.Act? {
      StepAddsNothingElse(size, e.id, s.world, s.runs[e.id], e.outcome);
      assert t in Apply(size, s, e).world.broker.Keys - Apply(size, s, e).world.ours;
    }
  }

  /** At every moment of every execution, whatever is on the broker and not ours was there from
      the start, and not ours, or was put there by somebody else. */
  lemma {:induction false} OthersAreOthers(
    size: DiscoveryState -> nat, states: seq<Sys>, events: seq<Event>, i: nat, t: string)
    requires Execution(size, states, events) && i < |states|
    requires t in states[i].world.broker && t !in states[i].world.ours
    ensures || (t in states[0].world.broker && t !in states[0].world.ours)
            || PutByOutsider(events, 0, i, t)
  {
    if i > 0 {
      var k := i - 1;
      assert states[k + 1] == Apply(size, states[k], events[k]);
      OthersStep(size, states[k], events[k], t);
      if t in states[k].world.broker && t !in states[k].world.ours {
        OthersAreOthers(size, states, events, k, t);
      }
    }
  }

  // ---------- what a run deletes ----------

  /** The listed topics a run has deleted so far. */
  function Removed(r: Run): set<string> {
    match r.pc
    case Purging(k) => if k <= |r.loaded.topics| then Elems(r.loaded.topics[..k]) else {}
    case Resetting => Elems(r.loaded.topics)
    case Announcing => if Moved(r.cfg, r.loaded) then Elems(r.loaded.topics) else {}
    case Clearing(k) =>
      if Moved(r.cfg, r.loaded) then Elems(r.loaded.topics)
      else if k <= |r.Stale()| then Elems(r.Stale()[..k])
      else {}
    case Publishing(_) => if Moved(r.cfg, r.loaded) then Elems(r.loaded.topics) else Elems(r.Stale())
    case Sealing => if Moved(r.cfg, r.loaded) then Elems(r.loaded.topics) else Elems(r.Stale())
    case _ => {}
  }

  predicate Working(pc: Pc) {
    !pc.Opening? && !pc.Loading? && !pc.Returned?
  }

  lemma TakeOneMore(topics: seq<string>, k: nat)
    ensures k < |topics| ==> Elems(topics[..k + 1]) == Elems(topics[..k]) + {topics[k]}
    ensures k == |topics| ==> topics[..k] == topics
    ensures topics[..0] == []
  {
    if k < |topics| {
      assert topics[..k + 1] == topics[..k] + [topics[k]];
      Append(topics[..k], topics[k]);
    }
  }

  /** A step removes at most the topic it deletes. */
  lemma RemovedGrows(r: Run, t: string)
    requires Working(r.pc) && Working(Following(r)) && t in Removed(r.(pc := Following(r)))
    requires match r.pc
             case Purging(k) => Moved(r.cfg, r.loaded) && k <= |r.loaded.topics|
             case Clearing(k) => k <= |r.Stale()|
             case Resetting => Moved(r.cfg, r.loaded)
             case _ => true
    ensures t in Removed(r) || Message(r) == Some((t, ""))
  {
    match r.pc
    case Purging(k) => TakeOneMore(r.loaded.topics, k);
    case Announcing => TakeOneMore(r.Stale(), 0);
    case Clearing(k) => TakeOneMore(r.Stale(), k);
    case _ =>
  }

  lemma WorkingStep(size: DiscoveryState -> nat, id: RunId, w: World, r: Run, o: Outcome)
    requires Working(r.pc) && Working(Step(size, id, w, r, o).1.pc)
    ensures Step(size, id, w, r, o).1 == r.(pc := Following(r))
    ensures Message(r).Some? ==>
              Step(size, id, w, r, o).0.broker == Retain(w.broker, Message(r).value.0, Message(r).value.1)
  {
  }

  lemma MessageKeepsAbsent(w: World, id: RunId, r: Run, t: string)
    requires RunInv(w, id, r) && Message(r).Some? && t !in DesiredTopics(r.cfg)
    ensures var (topic, payload) := Message(r).value; t == topic ==> |payload| == 0
  {
    if r.pc.Publishing? { DesiredIndex(r.cfg, r.pc.k); }
  }

  lemma RemovalStep(size: DiscoveryState -> nat, id: RunId, w: World, r: Run, o: Outcome, t: string)
    requires RunInv(w, id, r) && Working(r.pc) && Working(Step(size, id, w, r, o).1.pc)
    requires t in Removed(Step(size, id, w, r, o).1) && t !in DesiredTopics(r.cfg)
    requires t in Removed(r) ==> t !in w.broker
    ensures t !in Step(size, id, w, r, o).0.broker
  {
    WorkingStep(size, id, w, r, o);
    StepBroker(size, id, w, r, o);
    RemovedGrows(r, t);
    if Message(r).Some? { MessageKeepsAbsent(w, id, r, t); }
  }

  /** At step l the run reads the manifest it is going to work from. */
  ghost predicate Loads(
    size: DiscoveryState -> nat, states: seq<Sys>, events: seq<Event>, l: nat, id: RunId)
    requires |states| == |events| + 1
  {
    && l < |events| && events[l] == Act(id, Done)
    && id in states[l].runs && states[l].runs[id].pc == Loading
    && Usable(size, states[l].runs[id].cfg, states[l].world.disk)
  }

  /** From then on, up to state i, the run has been working. */
  ghost predicate WorksSince(states: seq<Sys>, l: nat, i: nat, id: RunId)
    requires i < |states|
  {
    l < i && forall k :: l < k <= i ==> id in states[k].runs && Working(states[k].runs[id].pc)
  }

  /** What happens on the broker while a run is working is its own step or an outsider's. */
  lemma WhileWorking(size: DiscoveryState -> nat, s: Sys, e: Event, id: RunId)
    requires Inv(s) && Enabled(s, e) && id in s.runs && Working(s.runs[id].pc)
    requires id in Apply(size, s, e).runs && !(e.Act? && e.id == id)
    ensures Apply(size, s, e).runs[id] == s.runs[id]
    ensures Apply(size, s, e).world.broker
         == if e.Outsider? then Retain(s.world.broker, e.topic, e.payload) else s.world.broker
  {
    assert RunInv(s.world, id, s.runs[id]);
    if e.Act? {
      assert RunInv(s.world, e.id, s.runs[e.id]);
      LockedOutRunIsIdle(size, e.id, s.world, s.runs[e.id], e.outcome);
    }
  }

  lemma {:induction false} RemovedAreGone(
    size: DiscoveryState -> nat, states: seq<Sys>, events: seq<Event>, l: nat, i: nat, id: RunId, t: string)
    requires Execution(size, states, events) && i < |states|
    requires Loads(size, states, events, l, id) && WorksSince(states, l, i, id)
    requires t in Removed(states[i].runs[id]) && t !in DesiredTopics(states[i].runs[id].cfg)
    ensures t !in states[i].world.broker || PutByOutsider(events, l + 1, i, t)
    decreases i
  {
    var k := i - 1;
    var s, e := states[k], events[k];
    assert states[k + 1] == Apply(size, s, e);
    if k > l {
      ExecutionInv(size, states, events, k);
      var r := s.runs[id];
      assert RunInv(s.world, id, r);
      assert WorksSince(states, l, k, id);
      var mine := e.Act? && e.id == id;
      if mine {
        assert states[i].runs[id] == Step(size, id, s.world, r, e.outcome).1;
        WorkingStep(size, id, s.world, r, e.outcome);
      } else {
        WhileWorking(size, s, e, id);
      }
      if t in Removed(r) { RemovedAreGone(size, states, events, l, k, id, t); }
      if !PutByOutsider(events, l + 1, k, t) {
        if mine {
          RemovalStep(size, id, s.world, r, e.outcome, t);
        } else if e.Outsider? && e.topic == t && |e.payload| > 0 {
          assert PutByOutsider(events, l + 1, i, t);
        }
      }
    }
  }

  lemma BecomesWorking(size: DiscoveryState -> nat, s: Sys, e: Event, id: RunId)
    requires Inv(s) && Enabled(s, e) && id in Apply(size, s, e).runs && Working(Apply(size, s, e).runs[id].pc)
    ensures id in s.runs
    ensures var r, r' := s.runs[id], Apply(size, s, e).runs[id];
            || (Working(r.pc) && r'.loaded == r.loaded)
            || (r.pc == Loading && e == Act(id, Done) && Usable(size, r.cfg, s.world.disk)
                && r'.loaded == Content(s.world.disk))
  {
    assert RunInv(s.world, id, s.runs[id]);
    if e.Act? && e.id == id && Working(s.runs[id].pc) {
      WorkingStep(size, id, s.world, s.runs[id], e.outcome);
    }
  }

  /** A working run has read its manifest, and has been working since. */
  lemma {:induction false} HasLoaded(
    size: DiscoveryState -> nat, states: seq<Sys>, events: seq<Event>, i: nat, id: RunId) returns (l: nat)
    requires Execution(size, states, events) && i < |states|
    requires id in states[i].runs && Working(states[i].runs[id].pc)
    ensures Loads(size, states, events, l, id) && WorksSince(states, l, i, id)
    ensures Content(states[l].world.disk) == states[i].runs[id].loaded
  {
    var k := i - 1;
    assert states[k + 1] == Apply(size, states[k], events[k]);
    ExecutionInv(size, states, events, k);
    BecomesWorking(size, states[k], events[k], id);
    if Working(states[k].runs[id].pc) {
      l := HasLoaded(size, states, events, k, id);
    } else {
      l := k;
    }
  }

  lemma SealingHasRemoved(r: Run, t: string)
    requires r.pc.Sealing? && t in r.loaded.topics && t !in DesiredTopics(r.cfg)
    ensures t in Removed(r)
  {
    if !Moved(r.cfg, r.loaded) {
      DifferenceFacts(r.Previous().topics, DesiredTopics(r.cfg));
    }
  }

  /** Each topic of the manifest read at step l that is not desired is off the broker, unless
      somebody else has put it there since. */
  ghost predicate StaleAreGone(
    states: seq<Sys>, events: seq<Event>, l: nat, i: nat, cfg: Settings)
    requires l <= i < |states| && |states| == |events| + 1
  {
    forall t :: t in Listed(states[l].world.disk) && t !in DesiredTopics(cfg) ==>
      t !in states[i].world.broker || PutByOutsider(events, l + 1, i, t)
  }

  /** Everything on the broker that is not desired never was ours, or came from somebody else. */
  ghost predicate RestIsForeign(states: seq<Sys>, events: seq<Event>, i: nat, cfg: Settings)
    requires i < |states| && |states| == |events| + 1
  {
    forall t :: t in states[i].world.broker && t !in DesiredTopics(cfg) ==>
      (t in states[0].world.broker && t !in states[0].world.ours) || PutByOutsider(events, 0, i, t)
  }

  /** Convergence: when a run returns without error, from whatever mess it started and whatever
      went on meanwhile, our topics are exactly the desired ones with the desired payloads, the
      manifest is durably the exact list, every stale topic of the manifest it read is off the
      broker, and so is everything else that was ever ours. */
  lemma Convergence(size: DiscoveryState -> nat, states: seq<Sys>, events: seq<Event>, i: nat, id: RunId, o: Outcome)
    requires Execution(size, states, events) && i < |events|
    requires events[i] == Act(id, o) && !states[i].runs[id].pc.Returned?
    requires states[i + 1].runs[id].pc == Returned(true)
    ensures var cfg := states[i].runs[id].cfg;
            && Converged(states[i + 1].world, cfg)
            && (exists l: nat :: l < i && Loads(size, states, events, l, id)
                                 && StaleAreGone(states, events, l, i + 1, cfg))
            && RestIsForeign(states, events, i + 1, cfg)
  {
    var r := states[i].runs[id];
    ExecutionInv(size, states, events, i);
    assert RunInv(states[i].world, id, r);
    SealedIsConverged(size, id, states[i].world, r, o);
    LastStep(size, id, states[i].world, r, o);
    var l := HasLoaded(size, states, events, i, id);
    forall t | t in Listed(states[l].world.disk) && t !in DesiredTopics(r.cfg)
      ensures t !in states[i + 1].world.broker || PutByOutsider(events, l + 1, i + 1, t)
    {
      SealingHasRemoved(r, t);
      RemovedAreGone(size, states, events, l, i, id, t);
    }
    forall t | t in states[i + 1].world.broker && t !in DesiredTopics(r.cfg)
      ensures || (t in states[0].world.broker && t !in states[0].world.ours)
              || PutByOutsider(events, 0, i + 1, t)
    {
      OthersAreOthers(size, states, events, i + 1, t);
    }
    assert StaleAreGone(states, events, l, i + 1, r.cfg);
  }

  // ---------- in the configuration's own terms ----------

  /** With discovery on, every entity has its document and nothing else has one. */
  lemma DesiredIsEveryEntity(cfg: Settings)
    ensures cfg.discovery == Some(false) ==> DesiredTopics(cfg) == []
    ensures cfg.discovery != Some(false) ==>
              && |DesiredTopics(cfg)| == |DesiredPublications(cfg)| == |cfg.entities|
              && forall k :: 0 <= k < |cfg.entities| ==>
                   var e := cfg.entities[k];
                   && DesiredTopics(cfg)[k]
                        == cfg.prefix + "/" + e.kind + "/" + cfg.deviceID + "/" + e.id + "/config"
                   && DesiredPublications(cfg)[k].payload == e.body
                   && DesiredPublications(cfg)[k].entityID == e.id
  {
    forall k | 0 <= k < |cfg.entities|
      ensures TopicOf(cfg, cfg.entities[k])
           == cfg.prefix + "/" + cfg.entities[k].kind + "/" + cfg.deviceID + "/" + cfg.entities[k].id + "/config"
    {
      TopicText(cfg.prefix, cfg.entities[k].kind, cfg.deviceID, cfg.entities[k].id);
    }
  }

  /** What a converged world holds: each entity's document at its topic, exactly those topics as
      ours, and a manifest of this client and device that lists each of them once; with discovery
      off, nothing. */
  lemma ConvergedHoldsEveryEntity(w: World, cfg: Settings)
    requires Accepted(cfg) && Converged(w, cfg)
    ensures cfg.discovery != Some(false) ==>
              forall k :: 0 <= k < |cfg.entities| ==>
                var e := cfg.entities[k];
                var t := cfg.prefix + "/" + e.kind + "/" + cfg.deviceID + "/" + e.id + "/config";
                t in w.ours && t in w.broker && w.broker[t] == e.body
    ensures forall t :: t in w.ours ==>
              && cfg.discovery != Some(false)
              && exists k :: 0 <= k < |cfg.entities|
                   && t == cfg.prefix + "/" + cfg.entities[k].kind + "/" + cfg.deviceID + "/"
                           + cfg.entities[k].id + "/config"
    ensures w.disk.Stored? && w.possible == {w.disk}
    ensures var m := w.disk.state;
            && m.version == 1 && m.ownerID == cfg.clientID && m.deviceID == cfg.deviceID
            && Distinct(m.topics) && Sorted(m.topics) && Elems(m.topics) == w.ours
  {
    DesiredIsEveryEntity(cfg);
    DesiredTopicsAreOwned(cfg);
    ExactTopics(cfg);
    SortKeeps(DesiredTopics(cfg));
    SortCorrect(DesiredTopics(cfg));
    if cfg.discovery != Some(false) {
      forall k | 0 <= k < |cfg.entities| ensures DesiredTopics(cfg)[k] in w.ours {
        assert DesiredTopics(cfg)[k] in Elems(DesiredTopics(cfg));
      }
    }
    forall t | t in w.ours ensures exists k :: 0 <= k < |DesiredTopics(cfg)| && DesiredTopics(cfg)[k] == t {
      assert t in DesiredTopics(cfg);
    }
  }

  /** No entity's topic. */
  ghost predicate NoEntitys(cfg: Settings, t: string) {
    cfg.discovery == Some(false)
    || forall k :: 0 <= k < |cfg.entities| ==>
         t != cfg.prefix + "/" + cfg.entities[k].kind + "/" + cfg.deviceID + "/" + cfg.entities[k].id + "/config"
  }

  lemma NoEntitysIsUndesired(cfg: Settings, t: string)
    requires NoEntitys(cfg, t)
    ensures t !in DesiredTopics(cfg)
  {
    DesiredIsEveryEntity(cfg);
  }

  /** A successful run by itself, from any file and any broker: every entity is announced with its
      own document, or none if discovery is off; what the file listed and no entity has is gone;
      everything else is as it was. */
  lemma SoloRunAnnouncesEveryEntity(
    size: DiscoveryState -> nat, id: RunId, disk: File, broker: map<string, string>, cfg: Settings,
    os: seq<Outcome>)
    requires Accepted(cfg) && Drive(size, id, Found(disk, broker), Fresh(cfg), os).1.pc == Returned(true)
    ensures var after := Drive(size, id, Found(disk, broker), Fresh(cfg), os).0.broker;
            && (cfg.discovery != Some(false) ==>
                  forall k :: 0 <= k < |cfg.entities| ==>
                    var e := cfg.entities[k];
                    var t := cfg.prefix + "/" + e.kind + "/" + cfg.deviceID + "/" + e.id + "/config";
                    t in after && after[t] == e.body)
            && (forall t :: NoEntitys(cfg, t) && t in Listed(disk) ==> t !in after)
            && (forall t :: NoEntitys(cfg, t) && t !in Listed(disk) ==> SameAt(broker, after, t))
  {
    var (w', r') := Drive(size, id, Found(disk, broker), Fresh(cfg), os);
    SoloRunIsSafe(size, id, Found(disk, broker), cfg, os);
    ConvergedHoldsEveryEntity(w', cfg);
    forall t | NoEntitys(cfg, t)
      ensures if t in Listed(disk) then t !in w'.broker else SameAt(broker, w'.broker, t)
    {
      NoEntitysIsUndesired(cfg, t);
      SoloRunDecidesTheBroker(size, id, disk, broker, cfg, os, t);
    }
  }

  /** The same in every execution, whatever else goes on: when a run returns without error, every
      entity is announced with its own document, and what the manifest it read listed and no entity
      has is off the broker unless somebody else has put it there since. */
  lemma EveryEntityIsAnnounced(
    size: DiscoveryState -> nat, states: seq<Sys>, events: seq<Event>, i: nat, id: RunId, o: Outcome)
    returns (l: nat)
    requires Execution(size, states, events) && i < |events|
    requires events[i] == Act(id, o) && !states[i].runs[id].pc.Returned?
    requires states[i + 1].runs[id].pc == Returned(true)
    ensures var cfg, after := states[i].runs[id].cfg, states[i + 1].world.broker;
            && (cfg.discovery != Some(false) ==>
                  forall k :: 0 <= k < |cfg.entities| ==>
                    var e := cfg.entities[k];
                    var t := cfg.prefix + "/" + e.kind + "/" + cfg.deviceID + "/" + e.id + "/config";
                    t in after && after[t] == e.body)
            && l < i && Loads(size, states, events, l, id)
            && (forall t :: NoEntitys(cfg, t) && t in Listed(states[l].world.disk) ==>
                  t !in after || PutByOutsider(events, l + 1, i + 1, t))
  {
    var cfg := states[i].runs[id].cfg;
    Convergence(size, states, events, i, id, o);
    l :| l < i && Loads(size, states, events, l, id) && StaleAreGone(states, events, l, i + 1, cfg);
    ExecutionInv(size, states, events, i);
    assert RunInv(states[i].world, id, states[i].runs[id]);
    ConvergedHoldsEveryEntity(states[i + 1].world, cfg);
    forall t | NoEntitys(cfg, t) && t in Listed(states[l].world.disk)
      ensures t !in states[i + 1].world.broker || PutByOutsider(events, l + 1, i + 1, t)
    {
      NoEntitysIsUndesired(cfg, t);
    }
  }

  /** A manifest the configured client may act on, spelled out. */
  predicate Acceptable(size: DiscoveryState -> nat, cfg: Settings, disk: File) {
    disk == Missing
    || (&& disk.Stored? && size(disk.state) <= 65536
        && var m := disk.state;
           || m == DiscoveryState(0, "", "", [])
           || (&& m.version == 1 && |m.ownerID| > 0 && m.ownerID == cfg.clientID && MatchesIdPattern(m.deviceID)
               && (forall i, j :: 0 <= i < j < |m.topics| ==> m.topics[i] != m.topics[j])
               && forall t :: t in m.topics ==> OwnedDiscoveryTopic(t, m.deviceID)))
  }

  lemma AcceptableIsUsable(size: DiscoveryState -> nat, cfg: Settings, disk: File)
    ensures Acceptable(size, cfg, disk) <==> Usable(size, cfg, disk)
  {
  }

  /** Left alone for long enough, a run started on any file and any broker succeeds if and only if
      the file is missing or an acceptable manifest, and the manifests to write fit in 64 KiB. */
  lemma SucceedsExactlyWhenAcceptable(
    size: DiscoveryState -> nat, id: RunId, disk: File, broker: map<string, string>, cfg: Settings, n: nat)
    requires Accepted(cfg) && n >= Bound(cfg, Found(disk, broker))
    ensures var previous := Content(disk);
            var moved := previous.deviceID != "" && previous.deviceID != cfg.deviceID;
            Drive(size, id, Found(disk, broker), Fresh(cfg), seq(n, _ => Done)).1.pc
              == Returned(Acceptable(size, cfg, disk)
                          && (moved ==> size(Blank(cfg)) <= 65536)
                          && size(Pending(cfg, if moved then NO_STATE else previous)) <= 65536
                          && size(Exact(cfg)) <= 65536)
  {
    var os := seq(n, _ => Done);
    AcceptableIsUsable(size, cfg, disk);
    RunsEnd(size, id, Found(disk, broker), cfg, os);
    UndisturbedOutcome(size, id, Found(disk, broker), cfg, os);
  }

  // ---------- single runs and disturbances are executions ----------

  lemma Extend(size: DiscoveryState -> nat, states: seq<Sys>, events: seq<Event>, e: Event)
    returns (states': seq<Sys>, events': seq<Event>)
    requires Execution(size, states, events) && Enabled(states[|events|], e)
    ensures Execution(size, states', events') && states'[|events'|] == Apply(size, states[|events|], e)
  {
    states', events' := states + [Apply(size, states[|events|], e)], events + [e];
  }

  /** At any moment of any execution, any accepted configuration may start a run, and its steps may
      have any outcomes: what a run does by itself, it also does there. */
  lemma {:induction false} RunsAnywhere(
    size: DiscoveryState -> nat, states: seq<Sys>, events: seq<Event>, id: RunId, cfg: Settings, os: seq<Outcome>)
    returns (states': seq<Sys>, events': seq<Event>)
    requires Execution(size, states, events) && Accepted(cfg) && id !in states[|events|].runs
    ensures Execution(size, states', events')
    ensures var s := states[|events|];
            var (w', r') := Drive(size, id, s.world, Fresh(cfg), os);
            states'[|events'|] == Sys(w', s.runs[id := r'])
  {
    if os == [] {
      states', events' := Extend(size, states, events, Begin(id, cfg));
    } else {
      var n := |os| - 1;
      states', events' := RunsAnywhere(size, states, events, id, cfg, os[..n]);
      states', events' := Extend(size, states', events', Act(id, os[n]));
    }
  }

  /** At any moment of any execution, any run may crash, and power may be lost and leave any content
      that was never superseded durably. */
  lemma DisturbancesHappen(
    size: DiscoveryState -> nat, states: seq<Sys>, events: seq<Event>, id: RunId, survivor: File)
    returns (crashed: seq<Sys>, crash: seq<Event>, dark: seq<Sys>, loss: seq<Event>)
    requires Execution(size, states, events)
    requires id in states[|events|].runs && survivor in states[|events|].world.possible
    ensures Execution(size, crashed, crash) && id !in crashed[|crash|].runs
    ensures crashed[|crash|].world.disk == states[|events|].world.disk
    ensures crashed[|crash|].world.broker == states[|events|].world.broker
    ensures Execution(size, dark, loss) && dark[|loss|].runs == map[] && dark[|loss|].world.lock == None
    ensures dark[|loss|].world.disk == survivor && dark[|loss|].world.broker == states[|events|].world.broker
  {
    crashed, crash := Extend(size, states, events, Crash(id));
    dark, loss := Extend(size, states, events, PowerLoss(survivor));
  }

  /** At any moment of any execution, anybody may publish or delete any topic that is not ours. */
  lemma OutsidersPublish(
    size: DiscoveryState -> nat, states: seq<Sys>, events: seq<Event>, topic: string, payload: string)
    returns (states': seq<Sys>, events': seq<Event>)
    requires Execution(size, states, events) && topic !in states[|events|].world.ours
    ensures Execution(size, states', events')
    ensures var broker := states'[|events'|].world.broker;
            if |payload| == 0 then topic !in broker else topic in broker && broker[topic] == payload
  {
    states', events' := Extend(size, states, events, Outsider(topic, payload));
  }
}
