/** Staged shutdown: two gates, each an accepting flag and a wait group, in front of resources
    that must not be closed while a worker or a callback may still use them. */
module Shutdown {

  // ---------- goroutines behind the gates ----------

  datatype Role = Worker | GpioEvent | MessageEvent | ConnectEvent

  /** Which gates a goroutine has entered and not left: InController is counted by the
      controller's wait group, InMqtt by the client's, InBoth by both. */
  datatype Stage = Fresh | InController | InMqtt | InBoth | Gone

  datatype Thread = Thread(role: Role, stage: Stage)

  predicate CountedByController(t: Thread) {
    t.stage.InController? || t.stage.InBoth?
  }

  predicate CountedByMqtt(t: Thread) {
    t.stage.InMqtt? || t.stage.InBoth?
  }

  /** The goroutines and the two wait-group counters. */
  datatype Room = Room(threads: map<nat, Thread>, wg: int, callbacks: int)
  {
    function ControllerUsers(): set<nat> {
      set id | id in threads && CountedByController(threads[id])
    }

    function MqttUsers(): set<nat> {
      set id | id in threads && CountedByMqtt(threads[id])
    }

    predicate At(id: nat, stage: Stage) {
      id in threads && threads[id].stage == stage
    }

    function Move(id: nat, stage: Stage, wgDelta: int, callbackDelta: int): Room
      requires id in threads
    {
      Room(threads[id := threads[id].(stage := stage)], wg + wgDelta, callbacks + callbackDelta)
    }
  }

  // ---------- flags, waits and the main goroutine ----------

  datatype Waiter = Idle | Waiting | Closed

  datatype Flags = Flags(
    controllerAccepting: bool, mqttAccepting: bool, cancelled: bool,
    controllerWait: Waiter, mqttWait: Waiter, connected: bool, gpioOpen: bool)

  /** The main goroutine: serving, then the stages of shutting down. */
  datatype Main =
    | Serving
    | GateMqtt
    | GateController
    | Cancelling
    | SpawnControllerWait
    | AwaitController
    | CloseMqtt
    | SpawnMqttWait
    | AwaitMqtt
    | CheckConnection
    | PublishOffline
    | Disconnect(published: bool)
    | CloseGpio(wasConnected: bool)
    | Returned(ok: bool, wasConnected: bool)

  datatype Message = Online | Offline | Other

  datatype State = State(room: Room, flags: Flags, main: Main, log: seq<Message>)

  /** At start-up only workers exist, each counted when it was spawned. */
  predicate Initial(s: State) {
    && (forall id :: id in s.room.threads ==> s.room.threads[id] == Thread(Worker, InController))
    && s.room.wg == |s.room.threads.Keys| && s.room.callbacks == 0
    && s.flags.controllerAccepting && s.flags.mqttAccepting && !s.flags.cancelled
    && s.flags.controllerWait == Idle && s.flags.mqttWait == Idle
    && s.flags.gpioOpen && s.main == Serving
  }

  datatype Event =
    | Arrive(id: nat, role: Role)
    | Enter(id: nat)
    | EnterController(id: nat)
    | LeaveController(id: nat)
    | Leave(id: nat)
    | Speak(id: nat, message: Message)
    | MainSpeaks
    | Signal
    | Link(up: bool)
    | ControllerWaitEnds
    | MqttWaitEnds
    | Advance(good: bool)

  /** Who publishes: workers and GPIO callbacks while they run, connect callbacks their online
      status and whatever their controller part publishes. Message callbacks never do. */
  predicate MaySpeak(t: Thread, m: Message) {
    match t.role
    case Worker => t.stage.InController? && m == Other
    case GpioEvent => t.stage.InController? && m == Other
    case MessageEvent => false
    case ConnectEvent => (t.stage.InMqtt? && m == Online) || (t.stage.InBoth? && m == Other)
  }

  predicate Enabled(s: State, e: Event) {
    match e
    case Arrive(id, role) => id !in s.room.threads && role != Worker
    case Enter(id) => s.room.At(id, Fresh)
    case EnterController(id) => s.room.At(id, InMqtt) && s.room.threads[id].role == ConnectEvent
    case LeaveController(id) => s.room.At(id, InBoth)
    case Leave(id) =>
      || s.room.At(id, InMqtt)
      || (s.room.At(id, InController) && (s.room.threads[id].role == Worker ==> s.flags.cancelled))
    case Speak(id, m) => id in s.room.threads && MaySpeak(s.room.threads[id], m)
    case MainSpeaks => s.main.Serving?
    case Signal => true
    case Link(_) => true
    case ControllerWaitEnds => s.flags.controllerWait == Waiting && s.room.wg == 0
    case MqttWaitEnds => s.flags.mqttWait == Waiting && s.room.callbacks == 0
    case Advance(good) =>
      && (s.main.AwaitController? && good ==> s.flags.controllerWait == Closed)
      && (s.main.AwaitMqtt? && good ==> s.flags.mqttWait == Closed)
  }

  /** beginCallback of the controller, under its lock. */
  predicate ControllerAdmits(f: Flags) {
    f.controllerAccepting && !f.cancelled
  }

  /** A GPIO callback meets the controller's gate first, an MQTT callback the client's. */
  function RoomStep(r: Room, f: Flags, e: Event): Room {
    match e
    case Arrive(id, role) => r.(threads := r.threads[id := Thread(role, Fresh)])
    case Enter(id) =>
      if id !in r.threads then r
      else if r.threads[id].role == GpioEvent then
        (if ControllerAdmits(f) then r.Move(id, InController, 1, 0) else r.Move(id, Gone, 0, 0))
      else
        (if f.mqttAccepting then r.Move(id, InMqtt, 0, 1) else r.Move(id, Gone, 0, 0))
    case EnterController(id) => if id in r.threads && ControllerAdmits(f) then r.Move(id, InBoth, 1, 0) else r
    case LeaveController(id) => if id in r.threads then r.Move(id, InMqtt, -1, 0) else r
    case Leave(id) =>
      if id !in r.threads then r
      else if r.threads[id].stage == InController then r.Move(id, Gone, -1, 0)
      else r.Move(id, Gone, 0, -1)
    case _ => r
  }

  /** One step of shutdownService, Controller.Shutdown and Client.Close. good picks the outcome
      where there is one: the wait finished in time, the budget is not used up, the offline
      publish succeeded, the lines closed without error. */
  function NextMain(m: Main, f: Flags, good: bool): Main {
    match m
    case Serving => GateMqtt
    case GateMqtt => GateController
    case GateController => Cancelling
    case Cancelling => SpawnControllerWait
    case SpawnControllerWait => AwaitController
    case AwaitController => if good then CloseMqtt else Returned(false, false)
    case CloseMqtt => SpawnMqttWait
    case SpawnMqttWait => AwaitMqtt
    case AwaitMqtt => if good then CheckConnection else Returned(false, false)
    case CheckConnection =>
      if !f.connected then CloseGpio(false) else if good then PublishOffline else Returned(false, true)
    case PublishOffline => Disconnect(good)
    case Disconnect(published) => if good && published then CloseGpio(true) else Returned(false, true)
    case CloseGpio(wasConnected) => Returned(good, wasConnected)
    case Returned(_, _) => m
  }

  function MainFlags(m: Main, f: Flags, good: bool): Flags {
    match m
    case GateMqtt => f.(mqttAccepting := false)
    case GateController => f.(controllerAccepting := false)
    case Cancelling => f.(cancelled := true)
    case SpawnControllerWait => f.(controllerWait := Waiting)
    case CloseMqtt => f.(mqttAccepting := false)
    case SpawnMqttWait => f.(mqttWait := Waiting)
    case Disconnect(_) => if good then f.(connected := false) else f
    case CloseGpio(_) => f.(gpioOpen := false)
    case _ => f
  }

  function FlagStep(m: Main, f: Flags, e: Event): Flags {
    match e
    case Signal => f.(cancelled := true)
    case Link(up) => f.(connected := up)
    case ControllerWaitEnds => f.(controllerWait := Closed)
    case MqttWaitEnds => f.(mqttWait := Closed)
    case Advance(good) => MainFlags(m, f, good)
    case _ => f
  }

  function LogStep(m: Main, log: seq<Message>, e: Event): seq<Message> {
    match e
    case Speak(_, message) => log + [message]
    case MainSpeaks => log + [Other]
    case Advance(good) => if m.PublishOffline? && good then log + [Offline] else log
    case _ => log
  }

  function Apply(s: State, e: Event): State {
    State(RoomStep(s.room, s.flags, e),
          FlagStep(s.main, s.flags, e),
          if e.Advance? then NextMain(s.main, s.flags, e.good) else s.main,
          LogStep(s.main, s.log, e))
  }

  ghost predicate Execution(states: seq<State>, events: seq<Event>) {
    && |states| == |events| + 1
    && Initial(states[0])
    && forall i :: 0 <= i < |events| ==> Enabled(states[i], events[i]) && states[i + 1] == Apply(states[i], events[i])
  }

  // ---------- counting ----------

  /** Each counter is the number of goroutines behind its gate. */
  predicate Counted(r: Room) {
    r.wg == |r.ControllerUsers()| && r.callbacks == |r.MqttUsers()|
  }

  function One(b: bool): int {
    if b then 1 else 0
  }

  lemma SizeWithout(a: set<nat>, id: nat)
    ensures |a| == |a - {id}| + One(id in a)
  {
    if id in a { assert a == a - {id} + {id}; } else { assert a - {id} == a; }
  }

  lemma ControllerUsersAfterMove(r: Room, id: nat, stage: Stage)
    requires id in r.threads
    ensures |r.Move(id, stage, 0, 0).ControllerUsers()|
         == |r.ControllerUsers()| - One(CountedByController(r.threads[id]))
            + One(CountedByController(Thread(Worker, stage)))
  {
    var a, b := r.ControllerUsers(), r.Move(id, stage, 0, 0).ControllerUsers();
    assert a - {id} == b - {id};
    SizeWithout(a, id);
    SizeWithout(b, id);
  }

  lemma MqttUsersAfterMove(r: Room, id: nat, stage: Stage)
    requires id in r.threads
    ensures |r.Move(id, stage, 0, 0).MqttUsers()|
         == |r.MqttUsers()| - One(CountedByMqtt(r.threads[id])) + One(CountedByMqtt(Thread(Worker, stage)))
  {
    var a, b := r.MqttUsers(), r.Move(id, stage, 0, 0).MqttUsers();
    assert a - {id} == b - {id};
    SizeWithout(a, id);
    SizeWithout(b, id);
  }

  lemma CountedAfterMove(r: Room, id: nat, stage: Stage, wgDelta: int, callbackDelta: int)
    requires id in r.threads && Counted(r)
    requires wgDelta == One(CountedByController(Thread(Worker, stage))) - One(CountedByController(r.threads[id]))
    requires callbackDelta == One(CountedByMqtt(Thread(Worker, stage))) - One(CountedByMqtt(r.threads[id]))
    ensures Counted(r.Move(id, stage, wgDelta, callbackDelta))
  {
    ControllerUsersAfterMove(r, id, stage);
    MqttUsersAfterMove(r, id, stage);
    var plain, moved := r.Move(id, stage, 0, 0), r.Move(id, stage, wgDelta, callbackDelta);
    assert plain.ControllerUsers() == moved.ControllerUsers();
    assert plain.MqttUsers() == moved.MqttUsers();
  }

  lemma CountedAfterArrive(r: Room, id: nat, role: Role)
    requires id !in r.threads && Counted(r)
    ensures Counted(r.(threads := r.threads[id := Thread(role, Fresh)]))
  {
    var r' := r.(threads := r.threads[id := Thread(role, Fresh)]);
    assert r'.ControllerUsers() == r.ControllerUsers();
    assert r'.MqttUsers() == r.MqttUsers();
  }

  lemma CountedKept(s: State, e: Event)
    requires Enabled(s, e) && Counted(s.room)
    ensures Counted(RoomStep(s.room, s.flags, e))
  {
    var r, f := s.room, s.flags;
    match e
    case Arrive(id, role) => CountedAfterArrive(r, id, role);
    case Enter(id) =>
      if r.threads[id].role == GpioEvent {
        var inside := ControllerAdmits(f);
        CountedAfterMove(r, id, if inside then InController else Gone, if inside then 1 else 0, 0);
      } else {
        var inside := f.mqttAccepting;
        CountedAfterMove(r, id, if inside then InMqtt else Gone, 0, if inside then 1 else 0);
      }
    case EnterController(id) => if ControllerAdmits(f) { CountedAfterMove(r, id, InBoth, 1, 0); }
    case LeaveController(id) => CountedAfterMove(r, id, InMqtt, -1, 0);
    case Leave(id) =>
      var counted := r.threads[id].stage == InController;
      CountedAfterMove(r, id, Gone, if counted then -1 else 0, if counted then 0 else -1);
    case _ =>
  }

  lemma NobodyInside(r: Room)
    requires Counted(r)
    ensures r.wg >= 0 && r.callbacks >= 0
    ensures r.wg == 0 ==> forall id :: id in r.threads ==> !CountedByController(r.threads[id])
    ensures r.callbacks == 0 ==> forall id :: id in r.threads ==> !CountedByMqtt(r.threads[id])
  {
    forall id | r.wg == 0 && id in r.threads ensures !CountedByController(r.threads[id]) {
      assert id !in r.ControllerUsers();
    }
    forall id | r.callbacks == 0 && id in r.threads ensures !CountedByMqtt(r.threads[id]) {
      assert id !in r.MqttUsers();
    }
  }

  // ---------- the invariant ----------

  function Progress(m: Main): nat {
    match m
    case Serving => 0
    case GateMqtt => 1
    case GateController => 2
    case Cancelling => 3
    case SpawnControllerWait => 4
    case AwaitController => 5
    case CloseMqtt => 6
    case SpawnMqttWait => 7
    case AwaitMqtt => 8
    case CheckConnection => 9
    case PublishOffline => 10
    case Disconnect(_) => 11
    case CloseGpio(_) => 12
    case Returned(_, _) => 13
  }

  /** What has been done, and not yet been done, by the time the main goroutine is where it is. */
  predicate Staged(m: Main, f: Flags) {
    var p := Progress(m);
    && (2 <= p ==> !f.mqttAccepting)
    && (3 <= p ==> !f.controllerAccepting)
    && (4 <= p ==> f.cancelled)
    && (p <= 4 <==> f.controllerWait == Idle)
    && (p <= 7 ==> f.mqttWait == Idle)
    && (f.mqttWait != Idle ==> f.controllerWait == Closed)
    && (6 <= p <= 12 ==> f.controllerWait == Closed)
    && (9 <= p <= 12 ==> f.mqttWait == Closed)
    && (p <= 12 ==> f.gpioOpen)
    && (!f.gpioOpen ==> f.controllerWait == Closed && f.mqttWait == Closed)
    && (m.Returned? && m.ok ==> !f.gpioOpen)
  }

  /** A closed wait means an empty room that nobody can enter any more. */
  predicate Drained(r: Room, f: Flags) {
    && (f.controllerWait == Closed ==> r.wg == 0)
    && (f.mqttWait == Closed ==> r.callbacks == 0)
  }

  predicate OfflineSent(m: Main) {
    m == Disconnect(true) || m == CloseGpio(true) || m == Returned(true, true)
  }

  /** Offline has the last word. */
  predicate LastWord(m: Main, log: seq<Message>) {
    OfflineSent(m) ==> log != [] && log[|log| - 1] == Offline
  }

  predicate Inv(s: State) {
    Counted(s.room) && Staged(s.main, s.flags) && Drained(s.room, s.flags) && LastWord(s.main, s.log)
  }

  lemma StagedKept(s: State, e: Event)
    requires Enabled(s, e) && Staged(s.main, s.flags)
    ensures Staged(Apply(s, e).main, Apply(s, e).flags)
  {
    if e.Advance? {
      StagedAfterAdvance(s.main, s.flags, e.good);
    }
  }

  lemma StagedAfterAdvance(m: Main, f: Flags, good: bool)
    requires Staged(m, f)
    requires m.AwaitController? && good ==> f.controllerWait == Closed
    requires m.AwaitMqtt? && good ==> f.mqttWait == Closed
    ensures Staged(NextMain(m, f, good), MainFlags(m, f, good))
  {
  }

  /** Once waiting has begun, a wait group is never raised. */
  lemma NeverRaisedWhileWaiting(s: State, e: Event)
    requires Enabled(s, e) && Staged(s.main, s.flags)
    ensures s.flags.controllerWait != Idle ==> Apply(s, e).room.wg <= s.room.wg
    ensures s.flags.mqttWait != Idle ==> Apply(s, e).room.callbacks <= s.room.callbacks
  {
  }

  lemma DrainedKept(s: State, e: Event)
    requires Enabled(s, e) && Inv(s)
    ensures Drained(Apply(s, e).room, Apply(s, e).flags)
  {
    CountedKept(s, e);
    NobodyInside(Apply(s, e).room);
    NeverRaisedWhileWaiting(s, e);
  }

  /** Nobody is left to speak once both waits are closed. */
  lemma SilentOnceDrained(s: State, e: Event)
    requires Enabled(s, e) && Counted(s.room) && s.room.wg == 0 && s.room.callbacks == 0
    ensures !e.Speak?
  {
    NobodyInside(s.room);
  }

  lemma LastWordKept(s: State, e: Event)
    requires Enabled(s, e) && Inv(s)
    ensures LastWord(Apply(s, e).main, Apply(s, e).log)
  {
    if OfflineSent(s.main) {
      SilentOnceDrained(s, e);
    }
  }

  lemma {:induction false} InvThroughout(states: seq<State>, events: seq<Event>, i: nat)
    requires Execution(states, events) && i < |states|
    ensures Inv(states[i])
  {
    if i == 0 {
      var r := states[0].room;
      assert r.ControllerUsers() == r.threads.Keys;
      assert r.MqttUsers() == {};
    } else {
      InvThroughout(states, events, i - 1);
      CountedKept(states[i - 1], events[i - 1]);
      StagedKept(states[i - 1], events[i - 1]);
      DrainedKept(states[i - 1], events[i - 1]);
      LastWordKept(states[i - 1], events[i - 1]);
    }
  }

  // ---------- what shutdown guarantees ----------

  /** In every interleaving, neither wait group is raised once its wait has begun, and neither
      counter ever goes below zero. */
  lemma WaitGroupsNeverRaised(states: seq<State>, events: seq<Event>, i: nat)
    requires Execution(states, events) && i < |events|
    ensures 0 <= states[i + 1].room.wg && 0 <= states[i + 1].room.callbacks
    ensures states[i].flags.controllerWait != Idle ==> states[i + 1].room.wg <= states[i].room.wg
    ensures states[i].flags.mqttWait != Idle ==> states[i + 1].room.callbacks <= states[i].room.callbacks
  {
    InvThroughout(states, events, i);
    InvThroughout(states, events, i + 1);
    NeverRaisedWhileWaiting(states[i], events[i]);
    NobodyInside(states[i + 1].room);
  }

  lemma ClosedStays(m: Main, f: Flags, e: Event)
    requires Staged(m, f)
    ensures f.controllerWait == Closed ==> FlagStep(m, f, e).controllerWait == Closed
    ensures f.mqttWait == Closed ==> FlagStep(m, f, e).mqttWait == Closed
    ensures !f.gpioOpen ==> !FlagStep(m, f, e).gpioOpen
  {
  }

  lemma {:induction false} ClosedStaysClosed(states: seq<State>, events: seq<Event>, i: nat, j: nat)
    requires Execution(states, events) && i <= j < |states|
    ensures states[i].flags.controllerWait == Closed ==> states[j].flags.controllerWait == Closed
    ensures !states[i].flags.gpioOpen ==> !states[j].flags.gpioOpen
    decreases j
  {
    if i < j {
      ClosedStaysClosed(states, events, i, j - 1);
      InvThroughout(states, events, j - 1);
      ClosedStays(states[j - 1].main, states[j - 1].flags, events[j - 1]);
      var k := j - 1;
      assert states[k + 1].flags == FlagStep(states[k].main, states[k].flags, events[k]);
    }
  }

  /** From the moment shutdownDone closes, no worker and no controller callback runs or starts. */
  lemma NothingRunsAfterShutdownDone(states: seq<State>, events: seq<Event>, i: nat, j: nat, id: nat)
    requires Execution(states, events) && i <= j < |states| && id in states[j].room.threads
    requires states[i].flags.controllerWait == Closed
    ensures !CountedByController(states[j].room.threads[id])
  {
    ClosedStaysClosed(states, events, i, j);
    InvThroughout(states, events, j);
    NobodyInside(states[j].room);
  }

  /** The transport is disconnected only with no MQTT callback active. */
  lemma DisconnectsOnlyWhenIdle(states: seq<State>, events: seq<Event>, i: nat, id: nat)
    requires Execution(states, events) && i < |states| && id in states[i].room.threads
    requires states[i].main.Disconnect?
    ensures !CountedByMqtt(states[i].room.threads[id]) && !CountedByController(states[i].room.threads[id])
  {
    InvThroughout(states, events, i);
    NobodyInside(states[i].room);
  }

  /** GPIO lines are closed only after both gates are empty, and the gates stay empty. */
  lemma GpioClosesLast(states: seq<State>, events: seq<Event>, i: nat, j: nat, id: nat)
    requires Execution(states, events) && i <= j < |states| && id in states[j].room.threads
    requires !states[i].flags.gpioOpen
    ensures !CountedByController(states[j].room.threads[id]) && !CountedByMqtt(states[j].room.threads[id])
  {
    ClosedStaysClosed(states, events, i, j);
    InvThroughout(states, events, j);
    NobodyInside(states[j].room);
  }

  lemma AfterOffline(s: State, e: Event)
    requires Enabled(s, e) && Inv(s) && s.main == Returned(true, true)
    ensures Apply(s, e).main == s.main && Apply(s, e).log == s.log
  {
    SilentOnceDrained(s, e);
  }

  /** When shutdown succeeds and the client was connected, offline is the last message, then and
      ever after. */
  lemma {:induction false} OfflineIsTheLastMessage(states: seq<State>, events: seq<Event>, i: nat, j: nat)
    requires Execution(states, events) && i <= j < |states|
    requires states[i].main == Returned(true, true)
    ensures states[j].main == Returned(true, true) && states[j].log == states[i].log
    ensures states[j].log != [] && states[j].log[|states[j].log| - 1] == Offline
    decreases j
  {
    InvThroughout(states, events, i);
    if i < j {
      OfflineIsTheLastMessage(states, events, i, j - 1);
      InvThroughout(states, events, j - 1);
      AfterOffline(states[j - 1], events[j - 1]);
    }
  }
}
