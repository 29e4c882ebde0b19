/** One entity's command pipeline: admission, a bounded queue, a worker that handles commands
    one at a time, and cancellation that may land between any two of its steps. */
module EntityWorker {
  import opened Wrappers
  import Executor

  const QUEUE_CAPACITY := 32

  datatype Kind = Memory | Gpio | Button

  /** parse is the payload check: the target state of a switch command, Some(true) for a button
      press, None for an invalid payload. */
  datatype Spec = Spec(
    kind: Kind, initial: bool, on: seq<Executor.Action>, off: seq<Executor.Action>, parse: string -> Option<bool>)
  {
    function Actions(target: bool): seq<Executor.Action> {
      if target then on else off
    }
  }

  /** The worker, at the points where another goroutine may run. */
  datatype Pc =
    | AtTop
    | AtSelect
    | Holding(payload: string)
    | Handling(payload: string)
    | Checking(target: bool, i: nat)
    | Cleared(target: bool, i: nat)
    | Running(target: bool, i: nat)
    | Finished(target: bool, ok: bool)
    | Reading
    | Publishing(value: bool)
    | Exited

  datatype Offer = Offer(payload: string, queued: bool)
  datatype Completion = Completion(target: bool, ok: bool)
  datatype Start = Start(target: bool, i: nat, afterCancel: bool)
  datatype Published = Published(value: bool, byHandler: bool)

  /** Commands on their way: arriving is an accepted message whose queue send has not happened
      yet; the rest is the queue and logs of what became of every command. */
  datatype Pipe = Pipe(
    arriving: Option<string>, queue: seq<string>, offers: seq<Offer>, handled: seq<string>, discarded: seq<string>)

  /** A switch's state in memory, the output line it may be read from instead, and logs. bulk is
      what each run of PublishAllStates has read and not published yet; published is what reached
      the broker, whether or not the publish reported success; drifted says the line was
      driven by somebody else since the worker read it. */
  datatype Switch = Switch(
    memory: bool, line: bool, drifted: bool, bulk: map<nat, bool>,
    completions: seq<Completion>, published: seq<Published>)

  datatype State = State(accepting: bool, cancelled: bool, pc: Pc, pipe: Pipe, sw: Switch, starts: seq<Start>)

  function Begin(spec: Spec, line: bool): State {
    State(true, false, AtTop, Pipe(None, [], [], [], []), Switch(spec.initial, line, false, map[], [], []), [])
  }

  datatype Event =
    | Accept(payload: string)
    | Send
    | StopAccepting
    | Cancel
    | Drive(value: bool)
    | ReadForAll(publisher: nat)
    | PublishForAll(publisher: nat)
    | BulkFails(publisher: nat)
    | Dequeue
    | Leave
    | Work
    | StartAction
    | EndAction(ok: bool, drives: Option<bool>)
    | ReadFails
    | PublishFails

  predicate HoldsStateLock(pc: Pc) {
    pc.Checking? || pc.Cleared? || pc.Running? || pc.Finished? || pc.Reading? || pc.Publishing?
  }

  predicate Enabled(spec: Spec, s: State, e: Event) {
    match e
    case Accept(_) => s.accepting && !s.cancelled && s.pipe.arriving == None
    case Send => s.pipe.arriving.Some?
    case StopAccepting => true
    case Cancel => true
    case Drive(_) => true
    case ReadForAll(p) => spec.kind != Button && p !in s.sw.bulk && !HoldsStateLock(s.pc)
    case PublishForAll(p) => p in s.sw.bulk
    case BulkFails(p) => p in s.sw.bulk
    case Dequeue => s.pc.AtSelect? && s.pipe.queue != []
    case Leave => s.pc.AtSelect? && s.cancelled
    case StartAction => s.pc.Cleared?
    case EndAction(_, _) => s.pc.Running?
    case ReadFails => s.pc.Reading? && spec.kind == Gpio
    case PublishFails => s.pc.Publishing?
    case Work => s.pc.AtTop? || s.pc.Holding? || s.pc.Handling? || s.pc.Checking? || s.pc.Finished?
                 || s.pc.Reading? || s.pc.Publishing?
  }

  function Observable(spec: Spec, sw: Switch): bool {
    if spec.kind == Gpio then sw.line else sw.memory
  }

  /** The worker's own steps: where it goes, and what it does to commands and to the switch. */
  function WorkPc(spec: Spec, s: State): Pc {
    match s.pc
    case AtTop => if s.cancelled then Exited else AtSelect
    case Holding(payload) => if s.cancelled then Exited else Handling(payload)
    case Handling(payload) =>
      (match spec.parse(payload)
       case None => AtTop
       case Some(target) => Checking(target, 0))
    case Checking(target, i) =>
      if i >= |spec.Actions(target)| then Finished(target, true)
      else if s.cancelled then Finished(target, false)
      else Cleared(target, i)
    case Finished(target, ok) => if spec.kind == Button then AtTop else Reading
    case Reading => Publishing(Observable(spec, s.sw))
    case Publishing(_) => AtTop
    case pc => pc
  }

  function WorkPipe(s: State): Pipe {
    if !s.pc.Holding? then s.pipe
    else if s.cancelled then s.pipe.(discarded := s.pipe.discarded + [s.pc.payload])
    else s.pipe.(handled := s.pipe.handled + [s.pc.payload])
  }

  function WorkSwitch(spec: Spec, s: State): Switch {
    match s.pc
    case Finished(target, ok) =>
      s.sw.(completions := s.sw.completions + [Completion(target, ok)],
            memory := if ok && spec.kind == Memory then target else s.sw.memory)
    case Reading => s.sw.(drifted := false)
    case Publishing(value) => s.sw.(published := s.sw.published + [Published(value, true)])
    case _ => s.sw
  }

  function SendTo(pipe: Pipe): Pipe
    requires pipe.arriving.Some?
  {
    var room := |pipe.queue| < QUEUE_CAPACITY;
    pipe.(arriving := None,
          offers := pipe.offers + [Offer(pipe.arriving.value, room)],
          queue := if room then pipe.queue + [pipe.arriving.value] else pipe.queue)
  }

  function AfterAction(spec: Spec, pc: Pc, ok: bool): Pc
    requires pc.Running?
  {
    if ok || (pc.i < |spec.Actions(pc.target)| && spec.Actions(pc.target)[pc.i].ignoreError)
    then Checking(pc.target, pc.i + 1)
    else Finished(pc.target, false)
  }

  function Apply(spec: Spec, s: State, e: Event): State
    requires Enabled(spec, s, e)
  {
    match e
    case Accept(payload) => s.(pipe := s.pipe.(arriving := Some(payload)))
    case Send => s.(pipe := SendTo(s.pipe))
    case StopAccepting => s.(accepting := false)
    case Cancel => s.(cancelled := true)
    case Drive(value) => s.(sw := s.sw.(line := value, drifted := true))
    case ReadForAll(p) => s.(sw := s.sw.(bulk := s.sw.bulk[p := Observable(spec, s.sw)]))
    case PublishForAll(p) =>
      s.(sw := s.sw.(bulk := s.sw.bulk - {p}, published := s.sw.published + [Published(s.sw.bulk[p], false)]))
    case BulkFails(p) => s.(sw := s.sw.(bulk := s.sw.bulk - {p}))
    case Dequeue => s.(pc := Holding(s.pipe.queue[0]), pipe := s.pipe.(queue := s.pipe.queue[1..]))
    case Leave => s.(pc := Exited)
    case StartAction =>
      s.(pc := Running(s.pc.target, s.pc.i), starts := s.starts + [Start(s.pc.target, s.pc.i, s.cancelled)])
    case EndAction(ok, drives) =>
      s.(pc := AfterAction(spec, s.pc, ok),
         sw := s.sw.(line := if drives.Some? then drives.value else s.sw.line))
    case ReadFails => s.(pc := AtTop)
    case PublishFails => s.(pc := AtTop)
    case Work => s.(pc := WorkPc(spec, s), pipe := WorkPipe(s), sw := WorkSwitch(spec, s))
  }

  ghost predicate Execution(spec: Spec, states: seq<State>, events: seq<Event>) {
    && |states| == |events| + 1
    && (exists line :: states[0] == Begin(spec, line))
    && forall i :: 0 <= i < |events| ==>
         Enabled(spec, states[i], events[i]) && states[i + 1] == Apply(spec, states[i], events[i])
  }

  lemma Extend(spec: Spec, states: seq<State>, events: seq<Event>, e: Event)
    returns (states': seq<State>, events': seq<Event>)
    requires Execution(spec, states, events) && Enabled(spec, states[|events|], e)
    ensures Execution(spec, states', events') && states'[|events'|] == Apply(spec, states[|events|], e)
  {
    states', events' := states + [Apply(spec, states[|events|], e)], events + [e];
  }

  /** Takes one command from its arrival to the worker's hands. */
  lemma DeliverOne(spec: Spec, states: seq<State>, events: seq<Event>, payload: string)
    returns (states': seq<State>, events': seq<Event>)
    requires Execution(spec, states, events)
    requires var s := states[|events|];
             s.accepting && !s.cancelled && s.pc == AtTop && s.pipe.arriving == None && s.pipe.queue == []
    ensures Execution(spec, states', events')
    ensures var p := states[|events|].pipe;
            states'[|events'|] == states[|events|].(
              pc := Handling(payload),
              pipe := p.(offers := p.offers + [Offer(payload, true)], handled := p.handled + [payload]))
  {
    var s := states[|events|];
    var offered := s.pipe.(offers := s.pipe.offers + [Offer(payload, true)]);
    states', events' := Extend(spec, states, events, Accept(payload));
    states', events' := Extend(spec, states', events', Send);
    assert states'[|events'|].pipe == offered.(queue := [payload]);
    states', events' := Extend(spec, states', events', Work);
    states', events' := Extend(spec, states', events', Dequeue);
    assert states'[|events'|] == s.(pc := Holding(payload), pipe := offered);
    states', events' := Extend(spec, states', events', Work);
  }

  // ---------- queue discipline ----------

  /** The offered payloads that were, or were not, given a place in the queue. */
  function Offered(offers: seq<Offer>, queued: bool): seq<string> {
    if offers == [] then []
    else
      var rest, last := Offered(offers[..|offers| - 1], queued), offers[|offers| - 1];
      if last.queued == queued then rest + [last.payload] else rest
  }

  function InHand(pc: Pc): seq<string> {
    if pc.Holding? then [pc.payload] else []
  }

  lemma OfferedAppend(offers: seq<Offer>, o: Offer, queued: bool)
    ensures Offered(offers + [o], queued)
         == Offered(offers, queued) + if o.queued == queued then [o.payload] else []
  {
    assert (offers + [o])[..|offers|] == offers;
  }

  /** Everything given a place in the queue was handled, is in hand, was dropped in hand at
      shutdown, or is still queued, and in that order. */
  predicate Fifo(pipe: Pipe, pc: Pc) {
    && |pipe.queue| <= QUEUE_CAPACITY
    && Offered(pipe.offers, true) == pipe.handled + InHand(pc) + pipe.discarded + pipe.queue
    && |pipe.discarded| <= 1
    && (pipe.discarded != [] ==> pc.Exited?)
  }

  lemma FifoAfterSend(pipe: Pipe, pc: Pc)
    requires pipe.arriving.Some? && Fifo(pipe, pc)
    ensures Fifo(SendTo(pipe), pc)
  {
    OfferedAppend(pipe.offers, Offer(pipe.arriving.value, |pipe.queue| < QUEUE_CAPACITY), true);
    var front := pipe.handled + InHand(pc) + pipe.discarded;
    assert front + pipe.queue + [pipe.arriving.value] == front + (pipe.queue + [pipe.arriving.value]);
  }

  lemma FifoAfterDequeue(pipe: Pipe)
    requires pipe.queue != [] && Fifo(pipe, AtSelect)
    ensures Fifo(pipe.(queue := pipe.queue[1..]), Holding(pipe.queue[0]))
  {
    assert pipe.queue == [pipe.queue[0]] + pipe.queue[1..];
    assert pipe.handled + [] + [] + pipe.queue == pipe.handled + [pipe.queue[0]] + [] + pipe.queue[1..];
  }

  lemma FifoAfterHold(s: State, pc: Pc)
    requires s.pc.Holding? && Fifo(s.pipe, s.pc) && !pc.Holding? && (s.cancelled ==> pc.Exited?)
    ensures Fifo(WorkPipe(s), pc)
  {
    var p := s.pipe;
    assert p.handled + [s.pc.payload] + [] + p.queue == p.handled + [] + [s.pc.payload] + p.queue;
    assert p.handled + [s.pc.payload] + [] + p.queue == (p.handled + [s.pc.payload]) + [] + [] + p.queue;
  }

  lemma FifoKept(spec: Spec, s: State, e: Event)
    requires Enabled(spec, s, e) && Fifo(s.pipe, s.pc)
    ensures Fifo(Apply(spec, s, e).pipe, Apply(spec, s, e).pc)
  {
    match e
    case Send => FifoAfterSend(s.pipe, s.pc);
    case Dequeue => FifoAfterDequeue(s.pipe);
    case Work => if s.pc.Holding? { FifoAfterHold(s, WorkPc(spec, s)); }
    case _ =>
  }

  lemma {:induction false} FifoThroughout(spec: Spec, states: seq<State>, events: seq<Event>, i: nat)
    requires Execution(spec, states, events) && i < |states|
    ensures Fifo(states[i].pipe, states[i].pc)
  {
    if i > 0 {
      FifoThroughout(spec, states, events, i - 1);
      FifoKept(spec, states[i - 1], events[i - 1]);
    }
  }

  function Payloads(offers: seq<Offer>): (r: seq<string>)
    ensures |r| == |offers|
  {
    seq(|offers|, i requires 0 <= i < |offers| => offers[i].payload)
  }

  /** The commands that got past admission, in order. */
  function Accepted(pipe: Pipe): seq<string> {
    Payloads(pipe.offers) + if pipe.arriving.Some? then [pipe.arriving.value] else []
  }

  function AcceptedBy(events: seq<Event>): seq<string> {
    if events == [] then []
    else
      var rest, last := AcceptedBy(events[..|events| - 1]), events[|events| - 1];
      if last.Accept? then rest + [last.payload] else rest
  }

  lemma {:induction false} AcceptedLog(spec: Spec, states: seq<State>, events: seq<Event>, i: nat)
    requires Execution(spec, states, events) && i < |states|
    ensures Accepted(states[i].pipe) == AcceptedBy(events[..i])
  {
    if i > 0 {
      AcceptedLog(spec, states, events, i - 1);
      assert events[..i][..i - 1] == events[..i - 1];
      assert states[i] == Apply(spec, states[i - 1], events[i - 1]);
    }
  }

  /** a can be obtained from b by leaving elements out. */
  ghost predicate Subsequence(a: seq<string>, b: seq<string>) {
    if a == [] then true
    else if b == [] then false
    else Subsequence(a, b[..|b| - 1])
         || (a[|a| - 1] == b[|b| - 1] && Subsequence(a[..|a| - 1], b[..|b| - 1]))
  }

  lemma {:induction false} OfferedIsSubsequence(offers: seq<Offer>, queued: bool)
    ensures Subsequence(Offered(offers, queued), Payloads(offers))
  {
    if offers != [] {
      var n := |offers| - 1;
      OfferedIsSubsequence(offers[..n], queued);
      assert Payloads(offers)[..n] == Payloads(offers[..n]);
      if offers[n].queued == queued {
        assert Offered(offers, queued)[..|Offered(offers, queued)| - 1] == Offered(offers[..n], queued);
      }
    }
  }

  lemma {:induction false} OfferedCounts(offers: seq<Offer>)
    ensures |Offered(offers, true)| + |Offered(offers, false)| == |offers|
  {
    if offers != [] { OfferedCounts(offers[..|offers| - 1]); }
  }

  lemma SubsequenceAppend(a: seq<string>, b: seq<string>, x: string)
    requires Subsequence(a, b)
    ensures Subsequence(a, b + [x])
  {
    assert (b + [x])[..|b|] == b;
  }

  /** Handled commands are a prefix of the queued ones, which are a subsequence of the accepted
      ones. */
  lemma PipelineOrder(spec: Spec, states: seq<State>, events: seq<Event>, i: nat)
    requires Execution(spec, states, events) && i < |states|
    ensures states[i].pipe.handled <= Offered(states[i].pipe.offers, true)
    ensures Subsequence(Offered(states[i].pipe.offers, true), AcceptedBy(events[..i]))
  {
    var s := states[i].pipe;
    FifoThroughout(spec, states, events, i);
    AcceptedLog(spec, states, events, i);
    OfferedIsSubsequence(s.offers, true);
    if s.arriving.Some? {
      SubsequenceAppend(Offered(s.offers, true), Payloads(s.offers), s.arriving.value);
    } else {
      assert Accepted(s) == Payloads(s.offers);
    }
  }

  /** The pipeline's promise, at every moment of every interleaving: handled commands are a
      prefix of the queued ones, queued ones are a subsequence of the accepted ones, at most 32
      wait, and every accepted command is in exactly one place. */
  lemma Pipeline(spec: Spec, states: seq<State>, events: seq<Event>, i: nat)
    requires Execution(spec, states, events) && i < |states|
    ensures var p := states[i].pipe;
            var enqueued, overflowed := Offered(p.offers, true), Offered(p.offers, false);
            && p.handled <= enqueued
            && Subsequence(enqueued, AcceptedBy(events[..i]))
            && |p.queue| <= QUEUE_CAPACITY
            && |AcceptedBy(events[..i])|
                 == |p.handled| + |InHand(states[i].pc)| + |p.discarded| + |p.queue| + |overflowed|
                    + (if p.arriving.Some? then 1 else 0)
  {
    PipelineOrder(spec, states, events, i);
    FifoThroughout(spec, states, events, i);
    AcceptedLog(spec, states, events, i);
    OfferedCounts(states[i].pipe.offers);
  }

  // ---------- actions and cancellation ----------

  function AfterCancel(starts: seq<Start>): nat {
    if starts == [] then 0
    else AfterCancel(starts[..|starts| - 1]) + if starts[|starts| - 1].afterCancel then 1 else 0
  }

  lemma AfterCancelAppend(starts: seq<Start>, x: Start)
    ensures AfterCancel(starts + [x]) == AfterCancel(starts) + if x.afterCancel then 1 else 0
  {
    assert (starts + [x])[..|starts|] == starts;
  }

  /** At most one action starts after cancellation, and only one that had been cleared. */
  predicate CancelBound(s: State) {
    && AfterCancel(s.starts) + (if s.cancelled && s.pc.Cleared? then 1 else 0) <= 1
    && (AfterCancel(s.starts) > 0 ==> s.cancelled)
  }

  lemma CancelBoundKept(spec: Spec, s: State, e: Event)
    requires Enabled(spec, s, e) && CancelBound(s)
    ensures CancelBound(Apply(spec, s, e))
  {
    if e.StartAction? {
      AfterCancelAppend(s.starts, Start(s.pc.target, s.pc.i, s.cancelled));
    }
  }

  lemma {:induction false} AtMostOneStartAfterCancel(spec: Spec, states: seq<State>, events: seq<Event>, i: nat)
    requires Execution(spec, states, events) && i < |states|
    ensures CancelBound(states[i]) && AfterCancel(states[i].starts) <= 1
  {
    if i > 0 {
      AtMostOneStartAfterCancel(spec, states, events, i - 1);
      CancelBoundKept(spec, states[i - 1], events[i - 1]);
    }
  }

  /** One start after cancellation does happen: cancellation can land between the check and the
      start, so the bound cannot be zero. */
  lemma OneStartAfterCancelHappens(payload: string) returns (spec: Spec, states: seq<State>, events: seq<Event>)
    ensures Execution(spec, states, events) && AfterCancel(states[|events|].starts) == 1
  {
    spec := Spec(Button, false, [Executor.Action(false)], [], (p: string) => Some(true));
    states, events := DeliverOne(spec, [Begin(spec, false)], [], payload);
    states, events := Extend(spec, states, events, Work);
    states, events := Extend(spec, states, events, Work);
    states, events := Extend(spec, states, events, Cancel);
    states, events := Extend(spec, states, events, StartAction);
    AfterCancelAppend([], Start(true, 0, true));
  }

  /** Within one command, actions start in list order, none skipped: a start at position i > 0
      follows directly on the start at i - 1 for the same target. */
  predicate StartsInOrder(spec: Spec, starts: seq<Start>) {
    forall k :: 0 <= k < |starts| ==>
      && starts[k].i < |spec.Actions(starts[k].target)|
      && (starts[k].i > 0 ==>
            k > 0 && starts[k - 1].i == starts[k].i - 1 && starts[k - 1].target == starts[k].target)
  }

  /** The worker is where the last start left it. */
  predicate Resumes(spec: Spec, starts: seq<Start>, pc: Pc) {
    pc.Checking? || pc.Cleared? || pc.Running? ==>
      var begun := if pc.Running? then pc.i + 1 else pc.i;
      && begun <= |spec.Actions(pc.target)| && (pc.Cleared? ==> begun < |spec.Actions(pc.target)|)
      && (begun > 0 ==> starts != [] && starts[|starts| - 1].i == begun - 1
                        && starts[|starts| - 1].target == pc.target)
  }

  lemma ResumesAfterWork(spec: Spec, s: State)
    requires Resumes(spec, s.starts, s.pc)
    ensures Resumes(spec, s.starts, WorkPc(spec, s))
  {
  }

  lemma StartsAfterStart(spec: Spec, starts: seq<Start>, pc: Pc, cancelled: bool)
    requires pc.Cleared? && StartsInOrder(spec, starts) && Resumes(spec, starts, pc)
    ensures StartsInOrder(spec, starts + [Start(pc.target, pc.i, cancelled)])
    ensures Resumes(spec, starts + [Start(pc.target, pc.i, cancelled)], Running(pc.target, pc.i))
  {
  }

  lemma StartsKept(spec: Spec, s: State, e: Event)
    requires Enabled(spec, s, e) && StartsInOrder(spec, s.starts) && Resumes(spec, s.starts, s.pc)
    ensures var s' := Apply(spec, s, e); StartsInOrder(spec, s'.starts) && Resumes(spec, s'.starts, s'.pc)
  {
    match e
    case StartAction => StartsAfterStart(spec, s.starts, s.pc, s.cancelled);
    case Work => ResumesAfterWork(spec, s);
    case _ =>
  }

  /** Started actions form prefixes of their lists, over every run. */
  lemma {:induction false} ActionsStartAsPrefixes(spec: Spec, states: seq<State>, events: seq<Event>, i: nat)
    requires Execution(spec, states, events) && i < |states|
    ensures StartsInOrder(spec, states[i].starts) && Resumes(spec, states[i].starts, states[i].pc)
  {
    if i > 0 {
      ActionsStartAsPrefixes(spec, states, events, i - 1);
      StartsKept(spec, states[i - 1], events[i - 1]);
    }
  }

  // ---------- the switch state ----------

  /** The target of the last command whose actions completed, or the initial state. */
  function Fold(initial: bool, completions: seq<Completion>): bool {
    if completions == [] then initial
    else
      var last := completions[|completions| - 1];
      if last.ok then last.target else Fold(initial, completions[..|completions| - 1])
  }

  predicate StateIsFold(spec: Spec, sw: Switch, pc: Pc) {
    && sw.memory == (if spec.kind == Memory then Fold(spec.initial, sw.completions) else spec.initial)
    && (pc.Publishing? && spec.kind == Memory ==> pc.value == sw.memory)
    && (pc.Publishing? && spec.kind == Gpio && !sw.drifted ==> pc.value == sw.line)
    && (spec.kind == Button ==> !pc.Reading? && !pc.Publishing?)
  }

  lemma FoldAppend(initial: bool, completions: seq<Completion>, c: Completion)
    ensures Fold(initial, completions + [c]) == if c.ok then c.target else Fold(initial, completions)
  {
    assert (completions + [c])[..|completions|] == completions;
  }

  lemma FoldAfterWork(spec: Spec, s: State)
    requires StateIsFold(spec, s.sw, s.pc)
    ensures StateIsFold(spec, WorkSwitch(spec, s), WorkPc(spec, s))
  {
    if s.pc.Finished? {
      FoldAppend(spec.initial, s.sw.completions, Completion(s.pc.target, s.pc.ok));
    }
  }

  lemma StateIsFoldKept(spec: Spec, s: State, e: Event)
    requires Enabled(spec, s, e) && StateIsFold(spec, s.sw, s.pc)
    ensures StateIsFold(spec, Apply(spec, s, e).sw, Apply(spec, s, e).pc)
  {
    match e
    case Work => FoldAfterWork(spec, s);
    case _ => assert Apply(spec, s, e).sw.completions == s.sw.completions;
  }

  /** Over every run, a memory switch's state is the fold of its completed commands. */
  lemma {:induction false} StateIsFoldOfHistory(spec: Spec, states: seq<State>, events: seq<Event>, i: nat)
    requires Execution(spec, states, events) && i < |states|
    ensures StateIsFold(spec, states[i].sw, states[i].pc)
  {
    if i > 0 {
      StateIsFoldOfHistory(spec, states, events, i - 1);
      StateIsFoldKept(spec, states[i - 1], events[i - 1]);
    }
  }

  /** What the handler publishes is the state at that moment: always for a memory switch, and
      for a GPIO switch unless somebody else drove the line since the handler read it. */
  lemma HandlerPublishesCurrentState(spec: Spec, states: seq<State>, events: seq<Event>, i: nat)
    requires Execution(spec, states, events) && i < |events|
    requires events[i] == Work && states[i].pc.Publishing?
    ensures var s, s' := states[i], states[i + 1];
            && s'.sw.published == s.sw.published + [Published(s.pc.value, true)]
            && (spec.kind == Memory || !s.sw.drifted ==> s.pc.value == Observable(spec, s'.sw))
  {
    StateIsFoldOfHistory(spec, states, events, i);
    assert states[i + 1] == Apply(spec, states[i], events[i]);
  }

  /** A memory switch without actions, in the handler's hands, has changed state and is about to
      publish it. */
  lemma SwitchTo(spec: Spec, states: seq<State>, events: seq<Event>, target: bool)
    returns (states': seq<State>, events': seq<Event>)
    requires Execution(spec, states, events)
    requires spec.kind == Memory && spec.on == [] && spec.off == []
    requires states[|events|].pc.Handling? && spec.parse(states[|events|].pc.payload) == Some(target)
    ensures Execution(spec, states', events')
    ensures var s, s' := states[|events|], states'[|events'|];
            && s'.pc == Publishing(target) && s'.sw.memory == target
            && s'.pipe == s.pipe && s'.accepting == s.accepting && s'.cancelled == s.cancelled
            && s'.sw.bulk == s.sw.bulk && s'.sw.published == s.sw.published
  {
    states', events' := Extend(spec, states, events, Work);
    states', events' := Extend(spec, states', events', Work);
    assert states'[|events'|].pc == Finished(target, true);
    states', events' := Extend(spec, states', events', Work);
    states', events' := Extend(spec, states', events', Work);
  }

  /** A memory switch without actions, initially off, on for one payload and off for all others. */
  function Toggle(onPayload: string): Spec {
    Spec(Memory, false, [], [], (p: string) => Some(p == onPayload))
  }

  /** A bulk publisher has read a switch that is off, and the command to switch it on is in the
      worker's hands. */
  lemma ReadThenOrdered(payload: string) returns (states: seq<State>, events: seq<Event>)
    ensures Execution(Toggle(payload), states, events)
    ensures var s := states[|events|];
            s.pc == Handling(payload) && s.pipe.queue == [] && s.sw.bulk == map[0 := false]
  {
    states, events := Extend(Toggle(payload), [Begin(Toggle(payload), false)], [], ReadForAll(0));
    states, events := DeliverOne(Toggle(payload), states, events, payload);
  }

  /** The last published state need not be the current one: the bulk publisher reads, lets go of
      the lock, and publishes later. */
  lemma LastPublishedMayBeStale(payload: string) returns (states: seq<State>, events: seq<Event>)
    ensures Execution(Toggle(payload), states, events)
    ensures var s := states[|events|];
            && s.sw.published != [] && s.pipe.queue == [] && s.pc == AtTop && s.sw.bulk == map[]
            && s.sw.published[|s.sw.published| - 1].value != s.sw.memory
  {
    states, events := ReadThenOrdered(payload);
    states, events := SwitchTo(Toggle(payload), states, events, true);
    states, events := Extend(Toggle(payload), states, events, Work);
    states, events := Extend(Toggle(payload), states, events, PublishForAll(0));
  }

  /** A switch has been switched on by a command and has published that. */
  lemma SwitchedOn(payload: string) returns (states: seq<State>, events: seq<Event>)
    ensures Execution(Toggle(payload), states, events)
    ensures var s := states[|events|];
            && s.accepting && !s.cancelled && s.pc == AtTop && s.pipe.arriving == None && s.pipe.queue == []
            && s.sw.bulk == map[] && s.sw.published == [Published(true, true)]
  {
    states, events := DeliverOne(Toggle(payload), [Begin(Toggle(payload), false)], [], payload);
    states, events := SwitchTo(Toggle(payload), states, events, true);
    states, events := Extend(Toggle(payload), states, events, Work);
  }

  /** Nor with no bulk publisher around: the handler reports the first command, fails to report
      the second, and does not try again. */
  lemma FailedReportLeavesStale(onPayload: string, offPayload: string)
    returns (states: seq<State>, events: seq<Event>)
    requires onPayload != offPayload
    ensures Execution(Toggle(onPayload), states, events)
    ensures var s := states[|events|];
            && s.pipe.queue == [] && s.pc == AtTop && s.sw.bulk == map[]
            && s.sw.published == [Published(true, true)] && !s.sw.memory
  {
    states, events := SwitchedOn(onPayload);
    states, events := DeliverOne(Toggle(onPayload), states, events, offPayload);
    states, events := SwitchTo(Toggle(onPayload), states, events, false);
    states, events := Extend(Toggle(onPayload), states, events, PublishFails);
  }

  /** For a switch read from a GPIO line, even what the handler publishes may be out of date: the
      line is driven by somebody else between the read and the publication. */
  lemma DrivenWhileReporting(payload: string, value: bool)
    returns (spec: Spec, states: seq<State>, events: seq<Event>)
    ensures spec.kind == Gpio && Execution(spec, states, events)
    ensures var s := states[|events|];
            s.pc == AtTop && s.sw.published == [Published(!value, true)] && s.sw.line == value
  {
    spec := Spec(Gpio, false, [], [], (p: string) => Some(true));
    states, events := DeliverOne(spec, [Begin(spec, !value)], [], payload);
    states, events := ReadsLine(spec, states, events);
    states, events := Extend(spec, states, events, Drive(value));
    states, events := Extend(spec, states, events, Work);
  }

  /** A GPIO switch without actions, in the handler's hands, is about to publish its line. */
  lemma ReadsLine(spec: Spec, states: seq<State>, events: seq<Event>)
    returns (states': seq<State>, events': seq<Event>)
    requires Execution(spec, states, events)
    requires spec.kind == Gpio && spec.on == [] && spec.off == []
    requires states[|events|].pc.Handling? && spec.parse(states[|events|].pc.payload).Some?
    ensures Execution(spec, states', events')
    ensures var s, s' := states[|events|], states'[|events'|];
            && s'.pc == Publishing(s.sw.line) && s'.sw.line == s.sw.line && s'.sw.published == s.sw.published
  {
    states', events' := Extend(spec, states, events, Work);
    states', events' := Extend(spec, states', events', Work);
    assert states'[|events'|].pc.Finished? && states'[|events'|].pc.ok;
    states', events' := Extend(spec, states', events', Work);
    states', events' := Extend(spec, states', events', Work);
  }
}
