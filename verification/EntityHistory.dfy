/** What a worker's past says about its present: which commands its state stands for, how each
    of them ended, when an action starts too late, and when a published state is stale. */
module EntityHistory {
  import opened Wrappers
  import opened EntityWorker
  import Executor

  // ---------- the commands behind the state ----------

  /** The targets of the payloads that parse, in order. */
  function Targets(spec: Spec, payloads: seq<string>): seq<bool> {
    if payloads == [] then []
    else
      var rest, last := Targets(spec, payloads[..|payloads| - 1]), spec.parse(payloads[|payloads| - 1]);
      if last.Some? then rest + [last.value] else rest
  }

  function CompletedTargets(completions: seq<Completion>): (targets: seq<bool>)
    ensures |targets| == |completions|
  {
    seq(|completions|, i requires 0 <= i < |completions| => completions[i].target)
  }

  /** The target being worked on. */
  function UnderWay(spec: Spec, pc: Pc): seq<bool> {
    match pc
    case Handling(payload) => if spec.parse(payload).Some? then [spec.parse(payload).value] else []
    case Checking(target, _) => [target]
    case Cleared(target, _) => [target]
    case Running(target, _) => [target]
    case Finished(target, _) => [target]
    case _ => []
  }

  predicate Accounted(spec: Spec, s: State) {
    CompletedTargets(s.sw.completions) + UnderWay(spec, s.pc) == Targets(spec, s.pipe.handled)
  }

  lemma TargetsAppend(spec: Spec, payloads: seq<string>, payload: string)
    ensures Targets(spec, payloads + [payload])
         == Targets(spec, payloads) + if spec.parse(payload).Some? then [spec.parse(payload).value] else []
  {
    assert (payloads + [payload])[..|payloads|] == payloads;
  }

  lemma CompletedAppend(completions: seq<Completion>, c: Completion)
    ensures CompletedTargets(completions + [c]) == CompletedTargets(completions) + [c.target]
  {
  }

  lemma HandedOver(spec: Spec, payloads: seq<string>, payload: string)
    ensures Targets(spec, payloads + [payload]) == Targets(spec, payloads) + UnderWay(spec, Handling(payload))
  {
    TargetsAppend(spec, payloads, payload);
  }

  lemma HoldingIsAccounted(spec: Spec, s: State)
    requires s.pc.Holding?
    ensures Targets(spec, WorkPipe(s).handled) == Targets(spec, s.pipe.handled) + UnderWay(spec, WorkPc(spec, s))
  {
    if s.cancelled {
      assert UnderWay(spec, WorkPc(spec, s)) == [];
    } else {
      HandedOver(spec, s.pipe.handled, s.pc.payload);
    }
  }

  lemma FinishedIsAccounted(spec: Spec, s: State)
    requires s.pc.Finished?
    ensures CompletedTargets(WorkSwitch(spec, s).completions)
         == CompletedTargets(s.sw.completions) + UnderWay(spec, s.pc)
    ensures UnderWay(spec, WorkPc(spec, s)) == []
  {
    CompletedAppend(s.sw.completions, Completion(s.pc.target, s.pc.ok));
  }

  lemma WorkLeavesCommands(spec: Spec, s: State)
    requires !s.pc.Holding? && !s.pc.Finished?
    ensures WorkSwitch(spec, s).completions == s.sw.completions && WorkPipe(s) == s.pipe
    ensures UnderWay(spec, WorkPc(spec, s)) == UnderWay(spec, s.pc)
  {
  }

  lemma AccountedAfterWork(spec: Spec, s: State)
    requires Accounted(spec, s)
    ensures CompletedTargets(WorkSwitch(spec, s).completions) + UnderWay(spec, WorkPc(spec, s))
         == Targets(spec, WorkPipe(s).handled)
  {
    var done := CompletedTargets(s.sw.completions);
    if s.pc.Holding? {
      HoldingIsAccounted(spec, s);
      assert done + [] == done;
    } else if s.pc.Finished? {
      FinishedIsAccounted(spec, s);
      assert done + UnderWay(spec, s.pc) + [] == done + UnderWay(spec, s.pc);
    } else {
      WorkLeavesCommands(spec, s);
    }
  }

  lemma OthersLeaveCommands(spec: Spec, s: State, e: Event)
    requires Enabled(spec, s, e) && !e.Work?
    ensures var s' := Apply(spec, s, e);
            && s'.sw.completions == s.sw.completions && s'.pipe.handled == s.pipe.handled
            && UnderWay(spec, s'.pc) == UnderWay(spec, s.pc)
  {
  }

  lemma AccountedKept(spec: Spec, s: State, e: Event)
    requires Enabled(spec, s, e) && Accounted(spec, s)
    ensures Accounted(spec, Apply(spec, s, e))
  {
    if e.Work? {
      AccountedAfterWork(spec, s);
    } else {
      OthersLeaveCommands(spec, s, e);
    }
  }

  /** Over every run, the completed commands and the one under way are the valid commands that
      were handled, in order: none is skipped, repeated or invented. */
  lemma {:induction false} CommandsAreAccounted(spec: Spec, states: seq<State>, events: seq<Event>, i: nat)
    requires Execution(spec, states, events) && i < |states|
    ensures Accounted(spec, states[i])
  {
    if i > 0 {
      CommandsAreAccounted(spec, states, events, i - 1);
      AccountedKept(spec, states[i - 1], events[i - 1]);
    }
  }

  /** A memory switch is in the state its last successful handled command asked for: completion
      number n is that of command number n among those that parse. */
  lemma StateFollowsHandledCommands(spec: Spec, states: seq<State>, events: seq<Event>, i: nat)
    requires Execution(spec, states, events) && i < |states| && spec.kind == Memory
    ensures var s := states[i];
            var done, asked := s.sw.completions, Targets(spec, s.pipe.handled);
            && |done| <= |asked| <= |done| + 1
            && (forall n :: 0 <= n < |done| ==> done[n].target == asked[n])
            && ((forall n :: 0 <= n < |done| ==> !done[n].ok) ==> s.sw.memory == spec.initial)
            && (forall n: nat :: LastSuccess(done, n) ==> s.sw.memory == asked[n])
  {
    CommandsAreAccounted(spec, states, events, i);
    StateIsFoldOfHistory(spec, states, events, i);
    var s := states[i];
    var done, asked := s.sw.completions, Targets(spec, s.pipe.handled);
    forall n | 0 <= n < |done| ensures done[n].target == asked[n] {
      assert CompletedTargets(done)[n] == asked[n];
    }
    forall n: nat | LastSuccess(done, n) ensures s.sw.memory == asked[n] {
      FoldIsLastSuccess(spec.initial, done, n);
    }
    if forall n :: 0 <= n < |done| ==> !done[n].ok {
      FoldWithoutSuccess(spec.initial, done);
    }
  }

  predicate LastSuccess(done: seq<Completion>, n: nat) {
    n < |done| && done[n].ok && forall m :: n < m < |done| ==> !done[m].ok
  }

  lemma {:induction false} FoldIsLastSuccess(initial: bool, done: seq<Completion>, n: nat)
    requires LastSuccess(done, n)
    ensures Fold(initial, done) == done[n].target
  {
    if n < |done| - 1 { FoldIsLastSuccess(initial, done[..|done| - 1], n); }
  }

  lemma {:induction false} FoldWithoutSuccess(initial: bool, done: seq<Completion>)
    requires forall n :: 0 <= n < |done| ==> !done[n].ok
    ensures Fold(initial, done) == initial
  {
    if done != [] { FoldWithoutSuccess(initial, done[..|done| - 1]); }
  }

  // ---------- what becomes of a command ----------

  /** Over every run: an arriving command overflows exactly when 32 are waiting, and joins the end
      of the queue otherwise. */
  lemma OverflowsExactlyWhenFull(spec: Spec, states: seq<State>, events: seq<Event>, i: nat)
    requires Execution(spec, states, events) && i < |events| && events[i] == Send
    ensures states[i].pipe.arriving.Some? && states[i + 1].pipe.arriving == None
    ensures var p, p', payload := states[i].pipe, states[i + 1].pipe, states[i].pipe.arriving.value;
            if |p.queue| == 32 then
              && Offered(p'.offers, false) == Offered(p.offers, false) + [payload]
              && Offered(p'.offers, true) == Offered(p.offers, true) && p'.queue == p.queue
            else
              && |p.queue| < 32
              && Offered(p'.offers, false) == Offered(p.offers, false)
              && Offered(p'.offers, true) == Offered(p.offers, true) + [payload]
              && p'.queue == p.queue + [payload]
  {
    FifoThroughout(spec, states, events, i);
    assert states[i + 1] == Apply(spec, states[i], events[i]);
    var p := states[i].pipe;
    OfferedAppend(p.offers, Offer(p.arriving.value, |p.queue| < 32), false);
    OfferedAppend(p.offers, Offer(p.arriving.value, |p.queue| < 32), true);
  }

  /** Over every run, nothing is accepted any more once accepting has stopped or the context has
      been cancelled. */
  lemma {:induction false} ClosedForGood(
    spec: Spec, states: seq<State>, events: seq<Event>, j: nat, i: nat)
    requires Execution(spec, states, events) && j < i < |states|
    requires events[j] == StopAccepting || events[j] == Cancel
    ensures !states[i].accepting || states[i].cancelled
    ensures i < |events| ==> !events[i].Accept?
  {
    var k := i - 1;
    assert states[k + 1] == Apply(spec, states[k], events[k]);
    if j < k { ClosedForGood(spec, states, events, j, k); }
  }

  /** Over every run, the worker exits, and a command in hand is dropped, only after a
      cancellation. */
  lemma {:induction false} LeavesOnlyWhenCancelled(spec: Spec, states: seq<State>, events: seq<Event>, i: nat)
    requires Execution(spec, states, events) && i < |states|
    ensures states[i].cancelled <==> exists j :: 0 <= j < i && events[j] == Cancel
    ensures states[i].pc.Exited? || states[i].pipe.discarded != [] ==> states[i].cancelled
  {
    if i > 0 {
      var k := i - 1;
      LeavesOnlyWhenCancelled(spec, states, events, k);
      assert states[k + 1] == Apply(spec, states[k], events[k]);
    }
  }

  /** A worker that has not exited can always take a step, unless it waits for a command and
      nothing has been cancelled. */
  lemma WorkerNeverStuck(spec: Spec, s: State)
    requires !s.pc.Exited?
    ensures || Enabled(spec, s, Work) || Enabled(spec, s, Dequeue) || Enabled(spec, s, Leave)
            || Enabled(spec, s, StartAction) || Enabled(spec, s, EndAction(true, None))
            || (s.pc.AtSelect? && s.pipe.queue == [] && !s.cancelled)
  {
  }

  /** Reads and publications by the handler that failed. */
  function LostReports(events: seq<Event>): nat {
    if events == [] then 0
    else
      var last := events[|events| - 1];
      LostReports(events[..|events| - 1]) + if last.ReadFails? || last.PublishFails? then 1 else 0
  }

  function Count(b: bool): nat {
    if b then 1 else 0
  }

  /** What has been reported, and what is about to be. */
  function Reports(s: State): nat {
    HandlerReports(s.sw.published) + Count(Busy(s.pc))
  }

  lemma ReportsAfterWork(spec: Spec, s: State)
    requires Enabled(spec, s, Work) && StateIsFold(spec, s.sw, s.pc)
    ensures var s' := Apply(spec, s, Work);
            Reports(s') == Reports(s) + if spec.kind == Button then 0 else |s'.sw.completions| - |s.sw.completions|
  {
    if s.pc.Publishing? {
      ReportsAppend(s.sw.published, Published(s.pc.value, true));
      assert !Busy(WorkPc(spec, s));
    } else {
      assert WorkSwitch(spec, s).published == s.sw.published;
    }
  }

  lemma ReportsKept(spec: Spec, s: State, e: Event)
    requires Enabled(spec, s, e) && StateIsFold(spec, s.sw, s.pc)
    ensures var s' := Apply(spec, s, e);
            Reports(s') + Count(e.ReadFails? || e.PublishFails?)
              == Reports(s) + if spec.kind == Button then 0 else |s'.sw.completions| - |s.sw.completions|
  {
    if e.Work? {
      ReportsAfterWork(spec, s);
    } else if e.PublishForAll? {
      ReportsAppend(s.sw.published, Published(s.sw.bulk[e.publisher], false));
    } else {
      assert Apply(spec, s, e).sw.published == s.sw.published;
    }
  }

  /** Over every run, each completed command of a switch, failed or not, is reported once, unless
      reading or publishing fails or the handler is just about to; a button reports nothing. */
  lemma {:induction false} EveryCompletionIsReported(
    spec: Spec, states: seq<State>, events: seq<Event>, i: nat)
    requires Execution(spec, states, events) && i < |states|
    ensures HandlerReports(states[i].sw.published) + Count(Busy(states[i].pc)) + LostReports(events[..i])
         == if spec.kind == Button then 0 else |states[i].sw.completions|
  {
    if i > 0 {
      var k := i - 1;
      EveryCompletionIsReported(spec, states, events, k);
      StateIsFoldOfHistory(spec, states, events, k);
      assert states[k + 1] == Apply(spec, states[k], events[k]);
      assert events[..i][..k] == events[..k];
      ReportsKept(spec, states[k], events[k]);
    }
  }

  // ---------- invalid payloads ----------

  /** How many states the handler itself has published. */
  function HandlerReports(published: seq<Published>): nat {
    if published == [] then 0
    else HandlerReports(published[..|published| - 1]) + if published[|published| - 1].byHandler then 1 else 0
  }

  lemma ReportsAppend(published: seq<Published>, p: Published)
    ensures HandlerReports(published + [p]) == HandlerReports(published) + if p.byHandler then 1 else 0
  {
    assert (published + [p])[..|published|] == published;
  }

  /** The handler is between the end of its actions and its publication. */
  predicate Busy(pc: Pc) {
    pc.Reading? || pc.Publishing?
  }

  /** No command is between parsing and publication. */
  predicate Unoccupied(spec: Spec, pc: Pc) {
    UnderWay(spec, pc) == [] && !Busy(pc)
  }

  /** Nothing a command could have changed is different. */
  predicate Untouched(s: State, s': State) {
    && s'.starts == s.starts && s'.sw.completions == s.sw.completions && s'.sw.memory == s.sw.memory
    && HandlerReports(s'.sw.published) == HandlerReports(s.sw.published)
  }

  lemma UnoccupiedStep(spec: Spec, s: State, e: Event)
    requires Enabled(spec, s, e) && Unoccupied(spec, s.pc)
    ensures Untouched(s, Apply(spec, s, e))
    ensures !Busy(Apply(spec, s, e).pc)
  {
    if e.PublishForAll? {
      ReportsAppend(s.sw.published, Published(s.sw.bulk[e.publisher], false));
    }
  }

  lemma TargetsGrow(spec: Spec, s: State, e: Event)
    requires Enabled(spec, s, e)
    ensures Targets(spec, s.pipe.handled) <= Targets(spec, Apply(spec, s, e).pipe.handled)
  {
    if e.Work? && s.pc.Holding? {
      TargetsAppend(spec, s.pipe.handled, s.pc.payload);
    }
  }

  lemma {:induction false} TargetsGrowThroughout(
    spec: Spec, states: seq<State>, events: seq<Event>, i: nat, j: nat)
    requires Execution(spec, states, events) && i <= j < |states|
    ensures Targets(spec, states[i].pipe.handled) <= Targets(spec, states[j].pipe.handled)
    decreases j
  {
    if i < j {
      var k := j - 1;
      TargetsGrowThroughout(spec, states, events, i, k);
      TargetsGrow(spec, states[k], events[k]);
      assert states[k + 1] == Apply(spec, states[k], events[k]);
      PrefixOfPrefix(Targets(spec, states[i].pipe.handled), Targets(spec, states[k].pipe.handled),
                     Targets(spec, states[j].pipe.handled));
    }
  }

  lemma PrefixOfPrefix(a: seq<bool>, b: seq<bool>, c: seq<bool>)
    requires a <= b <= c
    ensures a <= c && (a == c ==> a == b)
  {
  }

  /** No valid command came between two moments of a run, nor between the moments in between. */
  lemma NothingAskedBetween(spec: Spec, states: seq<State>, events: seq<Event>, i: nat, k: nat, j: nat)
    requires Execution(spec, states, events) && i <= k <= j < |states|
    requires Targets(spec, states[j].pipe.handled) == Targets(spec, states[i].pipe.handled)
    ensures Targets(spec, states[k].pipe.handled) == Targets(spec, states[i].pipe.handled)
  {
    TargetsGrowThroughout(spec, states, events, i, k);
    TargetsGrowThroughout(spec, states, events, k, j);
    PrefixOfPrefix(Targets(spec, states[i].pipe.handled), Targets(spec, states[k].pipe.handled),
                   Targets(spec, states[j].pipe.handled));
  }

  lemma StillUnoccupied(spec: Spec, s: State, s': State)
    requires Accounted(spec, s) && Accounted(spec, s') && Unoccupied(spec, s.pc) && !Busy(s'.pc)
    requires Targets(spec, s'.pipe.handled) == Targets(spec, s.pipe.handled)
    requires s'.sw.completions == s.sw.completions
    ensures Unoccupied(spec, s'.pc)
  {
    assert |UnderWay(spec, s'.pc)| == 0;
  }

  /** While every command that reaches the handler is invalid, whatever else happens, no action
      starts, no command completes, the state in memory stays and the handler publishes nothing. */
  lemma {:induction false} InvalidPayloadsChangeNothing(
    spec: Spec, states: seq<State>, events: seq<Event>, i: nat, j: nat)
    requires Execution(spec, states, events) && i <= j < |states|
    requires Unoccupied(spec, states[i].pc)
    requires Targets(spec, states[j].pipe.handled) == Targets(spec, states[i].pipe.handled)
    ensures Untouched(states[i], states[j]) && Unoccupied(spec, states[j].pc)
    decreases j
  {
    if i < j {
      var k := j - 1;
      NothingAskedBetween(spec, states, events, i, k, j);
      InvalidPayloadsChangeNothing(spec, states, events, i, k);
      assert states[k + 1] == Apply(spec, states[k], events[k]);
      UnoccupiedStep(spec, states[k], events[k]);
      CommandsAreAccounted(spec, states, events, i);
      CommandsAreAccounted(spec, states, events, j);
      StillUnoccupied(spec, states[i], states[j]);
    }
  }

  // ---------- how a command ends ----------

  /** What happened so far to the actions of the latest command. */
  function Fates(spec: Spec, states: seq<State>, events: seq<Event>, i: nat): seq<Executor.Fate>
    requires i <= |events| && i <= |states|
  {
    if i == 0 then []
    else
      var before, s, e := Fates(spec, states, events, i - 1), states[i - 1], events[i - 1];
      if e.Work? && s.pc.Handling? then []
      else if e.Work? && s.pc.Checking? && s.pc.i < |spec.Actions(s.pc.target)| && s.cancelled then
        before + [Executor.Fate(true, false)]
      else if e.EndAction? then before + [Executor.Fate(false, e.ok)]
      else before
  }

  /** How many actions of the latest command were started so far. */
  function Begun(states: seq<State>, events: seq<Event>, i: nat): nat
    requires i <= |events| && i <= |states|
  {
    if i == 0 then 0
    else if events[i - 1].Work? && states[i - 1].pc.Handling? then 0
    else Begun(states, events, i - 1) + if events[i - 1].StartAction? then 1 else 0
  }

  /** The actions that are never reached may meet any fate. */
  function Padded(fates: seq<Executor.Fate>, n: nat): (r: seq<Executor.Fate>)
    requires |fates| <= n
    ensures |r| == n && fates <= r
  {
    fates + seq(n - |fates|, _ => Executor.Fate(true, false))
  }

  function Upto(n: nat): (r: seq<nat>)
    ensures |r| == n && forall k :: 0 <= k < n ==> r[k] == k
  {
    seq(n, k => k)
  }

  ghost predicate EndedProperly(
    actions: seq<Executor.Action>, fates: seq<Executor.Fate>, begun: nat, ok: bool)
  {
    && |fates| <= |actions|
    && exists ending ::
         && Executor.EndsProperly(actions, Padded(fates, |actions|), Upto(begun), ending)
         && (ok <==> ending == Executor.Completed)
  }

  predicate AllPass(actions: seq<Executor.Action>, fates: seq<Executor.Fate>, i: nat) {
    i == |fates| <= |actions| && forall k :: 0 <= k < i ==> Executor.Passes(actions[k], fates[k])
  }

  /** The command in progress, of which so many actions were begun, met these fates. */
  ghost predicate RunsProperly(spec: Spec, fates: seq<Executor.Fate>, begun: nat, pc: Pc) {
    match pc
    case Checking(target, i) => begun == i && AllPass(spec.Actions(target), fates, i)
    case Cleared(target, i) => begun == i < |spec.Actions(target)| && AllPass(spec.Actions(target), fates, i)
    case Running(target, i) => begun == i + 1 <= |spec.Actions(target)| && AllPass(spec.Actions(target), fates, i)
    case Finished(target, ok) => EndedProperly(spec.Actions(target), fates, begun, ok)
    case _ => true
  }

  lemma EndsCompleted(actions: seq<Executor.Action>, fates: seq<Executor.Fate>)
    requires AllPass(actions, fates, |actions|)
    ensures EndedProperly(actions, fates, |actions|, true)
  {
    assert Executor.EndsProperly(actions, Padded(fates, |actions|), Upto(|actions|), Executor.Completed);
  }

  lemma EndsCancelled(actions: seq<Executor.Action>, fates: seq<Executor.Fate>)
    requires AllPass(actions, fates, |fates|) && |fates| < |actions|
    ensures EndedProperly(actions, fates + [Executor.Fate(true, false)], |fates|, false)
  {
    var all := Padded(fates + [Executor.Fate(true, false)], |actions|);
    assert all[|fates|] == Executor.Fate(true, false);
    assert Executor.EndsProperly(actions, all, Upto(|fates|), Executor.Cancelled);
  }

  lemma EndsFailed(actions: seq<Executor.Action>, fates: seq<Executor.Fate>)
    requires AllPass(actions, fates, |fates|) && |fates| < |actions| && !actions[|fates|].ignoreError
    ensures EndedProperly(actions, fates + [Executor.Fate(false, false)], |fates| + 1, false)
  {
    var all := Padded(fates + [Executor.Fate(false, false)], |actions|);
    assert all[|fates|] == Executor.Fate(false, false);
    assert Executor.EndsProperly(actions, all, Upto(|fates| + 1), Executor.Failed);
  }

  lemma CheckRunsProperly(spec: Spec, s: State, fates: seq<Executor.Fate>)
    requires s.pc.Checking? && RunsProperly(spec, fates, s.pc.i, s.pc)
    ensures var stopped := s.pc.i < |spec.Actions(s.pc.target)| && s.cancelled;
            var fates' := if stopped then fates + [Executor.Fate(true, false)] else fates;
            RunsProperly(spec, fates', s.pc.i, WorkPc(spec, s))
  {
    var actions := spec.Actions(s.pc.target);
    if s.pc.i >= |actions| { EndsCompleted(actions, fates); } else if s.cancelled { EndsCancelled(actions, fates); }
  }

  lemma EndRunsProperly(spec: Spec, pc: Pc, fates: seq<Executor.Fate>, ok: bool)
    requires pc.Running? && RunsProperly(spec, fates, pc.i + 1, pc)
    ensures RunsProperly(spec, fates + [Executor.Fate(false, ok)], pc.i + 1, AfterAction(spec, pc, ok))
  {
    var actions := spec.Actions(pc.target);
    if !ok && !actions[pc.i].ignoreError { EndsFailed(actions, fates); }
  }

  lemma RunsProperlyStep(spec: Spec, states: seq<State>, events: seq<Event>, i: nat)
    requires Execution(spec, states, events) && i < |events|
    requires RunsProperly(spec, Fates(spec, states, events, i), Begun(states, events, i), states[i].pc)
    ensures RunsProperly(spec, Fates(spec, states, events, i + 1), Begun(states, events, i + 1), states[i + 1].pc)
  {
    var s, e, fates := states[i], events[i], Fates(spec, states, events, i);
    assert states[i + 1] == Apply(spec, s, e);
    if e.Work? && s.pc.Checking? {
      CheckRunsProperly(spec, s, fates);
    } else if e.EndAction? {
      EndRunsProperly(spec, s.pc, fates, e.ok);
    }
  }

  /** Every command the worker takes through its actions, however cancellation and failures are
      interleaved with its steps, ends as the action list does on its own: with a started prefix,
      at the first action it cannot pass, and in success exactly when it passes them all. */
  lemma {:induction false} CommandsEndProperly(spec: Spec, states: seq<State>, events: seq<Event>, i: nat)
    requires Execution(spec, states, events) && i < |states|
    ensures RunsProperly(spec, Fates(spec, states, events, i), Begun(states, events, i), states[i].pc)
    ensures var pc := states[i].pc;
            pc.Finished? ==>
              EndedProperly(if pc.target then spec.on else spec.off,
                            Fates(spec, states, events, i), Begun(states, events, i), pc.ok)
  {
    if i > 0 {
      CommandsEndProperly(spec, states, events, i - 1);
      RunsProperlyStep(spec, states, events, i - 1);
    }
  }

  // ---------- when an action starts after cancellation ----------

  /** Actions started after cancellation, or cleared to. */
  function LateStarts(s: State): nat {
    AfterCancel(s.starts) + if s.cancelled && s.pc.Cleared? then 1 else 0
  }

  /** The cancellation lands between an action's check and its start. */
  predicate CancelsInTheGap(s: State, e: Event) {
    e == Cancel && !s.cancelled && s.pc.Cleared?
  }

  lemma LateStartsStep(spec: Spec, s: State, e: Event)
    requires Enabled(spec, s, e) && CancelBound(s)
    ensures LateStarts(Apply(spec, s, e)) == LateStarts(s) + if CancelsInTheGap(s, e) then 1 else 0
  {
    if e.StartAction? {
      AfterCancelAppend(s.starts, Start(s.pc.target, s.pc.i, s.cancelled));
    }
  }

  /** Over every run: an action starts after cancellation, or is about to, exactly when the
      cancellation landed between its check and its start. */
  lemma {:induction false} LateStartExactlyInTheGap(spec: Spec, states: seq<State>, events: seq<Event>, i: nat)
    requires Execution(spec, states, events) && i < |states|
    ensures LateStarts(states[i]) == 1 <==> exists j :: 0 <= j < i && CancelsInTheGap(states[j], events[j])
  {
    if i > 0 {
      var k := i - 1;
      LateStartExactlyInTheGap(spec, states, events, k);
      AtMostOneStartAfterCancel(spec, states, events, k);
      AtMostOneStartAfterCancel(spec, states, events, i);
      assert states[k + 1] == Apply(spec, states[k], events[k]);
      LateStartsStep(spec, states[k], events[k]);
    }
  }

  // ---------- when the last published state is stale ----------

  function LastOf(published: seq<Published>): Published
    requires published != []
  {
    published[|published| - 1]
  }

  /** At step m the handler failed to publish the state as it is now, and nothing was published
      since; what was published before is something else. */
  ghost predicate Unreported(states: seq<State>, events: seq<Event>, m: nat, i: nat)
    requires i < |states| && |states| == |events| + 1
  {
    && m < i && events[m] == PublishFails && states[m].pc.Publishing?
    && states[m + 1].sw.published == states[i].sw.published != []
    && LastOf(states[i].sw.published).byHandler
    && states[m].pc.value == states[i].sw.memory != LastOf(states[i].sw.published).value
  }

  /** The handler published last, and not the state. */
  predicate HandlerIsStale(s: State) {
    && !Busy(s.pc) && s.sw.published != [] && LastOf(s.sw.published).byHandler
    && LastOf(s.sw.published).value != s.sw.memory
  }

  lemma HandlerStaleAfterWork(spec: Spec, s: State)
    requires spec.kind == Memory && Enabled(spec, s, Work) && StateIsFold(spec, s.sw, s.pc)
    requires HandlerIsStale(Apply(spec, s, Work))
    ensures var s' := Apply(spec, s, Work);
            s'.sw.published == s.sw.published && s'.sw.memory == s.sw.memory && HandlerIsStale(s)
  {
    assert !s.pc.Publishing? && !s.pc.Finished?;
  }

  lemma HandlerStaleStep(spec: Spec, s: State, e: Event)
    requires spec.kind == Memory && Enabled(spec, s, e) && StateIsFold(spec, s.sw, s.pc)
    requires HandlerIsStale(Apply(spec, s, e))
    ensures var s' := Apply(spec, s, e);
            && s'.sw.published == s.sw.published && s'.sw.memory == s.sw.memory
            && (HandlerIsStale(s) || (e == PublishFails && s.pc.value == s.sw.memory))
  {
    if e.Work? {
      HandlerStaleAfterWork(spec, s);
    } else {
      assert Apply(spec, s, e).sw.memory == s.sw.memory;
    }
  }

  /** Once the handler is done with a memory switch, what it published last is the state, unless
      it then failed to publish the state. */
  lemma {:induction false} HandlerLeavesCurrent(spec: Spec, states: seq<State>, events: seq<Event>, i: nat)
    requires Execution(spec, states, events) && i < |states| && spec.kind == Memory
    ensures HandlerIsStale(states[i]) ==> exists m :: Unreported(states, events, m, i)
  {
    if i > 0 && HandlerIsStale(states[i]) {
      var n := i - 1;
      assert states[n + 1] == Apply(spec, states[n], events[n]);
      StateIsFoldOfHistory(spec, states, events, n);
      HandlerStaleStep(spec, states[n], events[n]);
      if HandlerIsStale(states[n]) {
        HandlerLeavesCurrent(spec, states, events, n);
        var m :| Unreported(states, events, m, n);
        assert Unreported(states, events, m, i);
      } else {
        assert Unreported(states, events, n, i);
      }
    }
  }

  predicate ForAllBy(e: Event, publisher: nat) {
    e == ReadForAll(publisher) || e == PublishForAll(publisher) || e == BulkFails(publisher)
  }

  /** This bulk publisher read at step j and has neither published nor given up since. */
  ghost predicate ReadAt(events: seq<Event>, publisher: nat, j: nat, i: nat)
    requires i <= |events|
  {
    && j < i && events[j] == ReadForAll(publisher)
    && forall m :: j < m < i ==> !ForAllBy(events[m], publisher)
  }

  lemma {:induction false} BulkWasRead(
    spec: Spec, states: seq<State>, events: seq<Event>, publisher: nat, i: nat) returns (j: nat)
    requires Execution(spec, states, events) && i < |states| && publisher in states[i].sw.bulk
    ensures ReadAt(events, publisher, j, i)
    ensures states[i].sw.bulk[publisher] == Observable(spec, states[j].sw)
  {
    var k := i - 1;
    assert states[k + 1] == Apply(spec, states[k], events[k]);
    if events[k] == ReadForAll(publisher) {
      j := k;
    } else {
      j := BulkWasRead(spec, states, events, publisher, k);
    }
  }

  lemma {:induction false} BulkPublishedLast(spec: Spec, states: seq<State>, events: seq<Event>, i: nat)
    returns (k: nat)
    requires Execution(spec, states, events) && i < |states|
    requires states[i].sw.published != [] && !LastOf(states[i].sw.published).byHandler
    ensures k < i && events[k].PublishForAll? && states[k + 1].sw.published == states[i].sw.published
  {
    var n := i - 1;
    assert states[n + 1] == Apply(spec, states[n], events[n]);
    if events[n].PublishForAll? {
      k := n;
    } else {
      assert states[i].sw.published == states[n].sw.published;
      k := BulkPublishedLast(spec, states, events, n);
    }
  }

  /** The last publication is a bulk publisher's, at step k, of what it read at step j, and the
      state is another one now. */
  ghost predicate Overtaken(states: seq<State>, events: seq<Event>, j: nat, k: nat, i: nat)
    requires i < |states| && |states| == |events| + 1
  {
    && k < i && events[k].PublishForAll? && ReadAt(events, events[k].publisher, j, k)
    && states[k + 1].sw.published == states[i].sw.published != []
    && LastOf(states[i].sw.published) == Published(states[j].sw.memory, false)
    && states[j].sw.memory != states[i].sw.memory
  }

  /** Over every run, with any number of bulk publishers, while no command holds a memory switch:
      the last published state is not the current one exactly when a bulk publisher published
      last and the state it had read has changed since, or the handler published last and then
      failed to publish the state as it is now. */
  lemma StaleExactlyWhenOvertaken(spec: Spec, states: seq<State>, events: seq<Event>, i: nat)
    requires Execution(spec, states, events) && i < |states|
    requires spec.kind == Memory && !HoldsStateLock(states[i].pc) && states[i].sw.published != []
    ensures LastOf(states[i].sw.published).value != states[i].sw.memory
        <==> || (exists j, k :: Overtaken(states, events, j, k, i))
             || (exists m :: Unreported(states, events, m, i))
  {
    HandlerLeavesCurrent(spec, states, events, i);
    var last := LastOf(states[i].sw.published);
    if last.value != states[i].sw.memory && !last.byHandler {
      var k := BulkPublishedLast(spec, states, events, i);
      assert states[k + 1] == Apply(spec, states[k], events[k]);
      var j := BulkWasRead(spec, states, events, events[k].publisher, k);
      assert Overtaken(states, events, j, k, i);
    }
  }
}
