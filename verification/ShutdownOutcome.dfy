/** Who the gates let in, what shutdown returns, and that it can succeed. */
module ShutdownOutcome {
  import opened Shutdown

  // ---------- the gates ----------

  ghost predicate Signalled(events: seq<Event>, i: nat)
    requires i <= |events|
  {
    exists j :: 0 <= j < i && events[j] == Signal
  }

  predicate ControllerOpen(m: Main) {
    m.Serving? || m.GateMqtt? || m.GateController?
  }

  predicate MqttOpen(m: Main) {
    m.Serving? || m.GateMqtt?
  }

  predicate FlagsFollow(s: State, signalled: bool) {
    && (s.flags.mqttAccepting <==> MqttOpen(s.main))
    && (s.flags.controllerAccepting <==> ControllerOpen(s.main))
    && (s.flags.cancelled <==> signalled || !(ControllerOpen(s.main) || s.main.Cancelling?))
  }

  lemma FlagsFollowStep(s: State, e: Event, signalled: bool)
    requires Enabled(s, e) && FlagsFollow(s, signalled)
    ensures FlagsFollow(Apply(s, e), signalled || e == Signal)
  {
  }

  lemma {:induction false} FlagsFollowMain(states: seq<State>, events: seq<Event>, i: nat)
    requires Execution(states, events) && i < |states|
    ensures FlagsFollow(states[i], Signalled(events, i))
  {
    if i > 0 {
      var k := i - 1;
      FlagsFollowMain(states, events, k);
      assert states[k + 1] == Apply(states[k], events[k]);
      FlagsFollowStep(states[k], events[k], Signalled(events, k));
      assert Signalled(events, i) <==> Signalled(events, k) || events[k] == Signal;
    }
  }

  predicate OthersStay(r: Room, r': Room, id: nat) {
    forall other :: other != id && other in r.threads ==> other in r'.threads && r'.threads[other] == r.threads[other]
  }

  lemma Moves(s: State, e: Event, id: nat)
    requires Enabled(s, e) && (e == Enter(id) || e == EnterController(id))
    ensures OthersStay(s.room, Apply(s, e).room, id)
    ensures id in s.room.threads && id in Apply(s, e).room.threads
    ensures Apply(s, e).room.threads[id].role == s.room.threads[id].role
  {
  }

  /** In every execution, a GPIO callback at the controller's gate is let in exactly as long as no
      signal has come and the main goroutine has not closed that gate; otherwise it never runs. */
  lemma GpioCallbackAdmitted(states: seq<State>, events: seq<Event>, i: nat, id: nat)
    requires Execution(states, events) && i < |events|
    requires events[i] == Enter(id) && states[i].room.threads[id].role == GpioEvent
    ensures var s, s' := states[i], states[i + 1];
            && OthersStay(s.room, s'.room, id)
            && if (s.main.Serving? || s.main.GateMqtt? || s.main.GateController?) && !Signalled(events, i)
               then s'.room.At(id, InController) && s'.room.wg == s.room.wg + 1
               else s'.room.At(id, Gone) && s'.room.wg == s.room.wg
  {
    FlagsFollowMain(states, events, i);
    Moves(states[i], events[i], id);
  }

  /** An MQTT callback at the client's gate is let in exactly as long as the main goroutine has not
      closed that gate. */
  lemma MqttCallbackAdmitted(states: seq<State>, events: seq<Event>, i: nat, id: nat)
    requires Execution(states, events) && i < |events|
    requires events[i] == Enter(id) && states[i].room.threads[id].role in {MessageEvent, ConnectEvent}
    ensures var s, s' := states[i], states[i + 1];
            && OthersStay(s.room, s'.room, id)
            && if s.main.Serving? || s.main.GateMqtt?
               then s'.room.At(id, InMqtt) && s'.room.callbacks == s.room.callbacks + 1
               else s'.room.At(id, Gone) && s'.room.callbacks == s.room.callbacks
  {
    FlagsFollowMain(states, events, i);
    Moves(states[i], events[i], id);
  }

  /** The controller's part of a connect hook is let in under the same condition as a GPIO
      callback; when it is not, the hook goes on without it. */
  lemma ConnectPartAdmitted(states: seq<State>, events: seq<Event>, i: nat, id: nat)
    requires Execution(states, events) && i < |events| && events[i] == EnterController(id)
    ensures var s, s' := states[i], states[i + 1];
            && OthersStay(s.room, s'.room, id)
            && if (s.main.Serving? || s.main.GateMqtt? || s.main.GateController?) && !Signalled(events, i)
               then s'.room.At(id, InBoth) && s'.room.wg == s.room.wg + 1
               else s'.room.At(id, InMqtt) && s'.room.wg == s.room.wg
  {
    FlagsFollowMain(states, events, i);
    Moves(states[i], events[i], id);
  }

  // ---------- what shutdown returns ----------

  /** A stage fails: a wait runs out, no time is left, the offline publish or a close fails. */
  predicate Fails(s: State, e: Event) {
    && e == Advance(false)
    && (s.main.AwaitController? || s.main.AwaitMqtt? || (s.main.CheckConnection? && s.flags.connected)
        || s.main.PublishOffline? || s.main.Disconnect? || s.main.CloseGpio?)
  }

  ghost predicate Failed(states: seq<State>, events: seq<Event>, i: nat)
    requires i <= |events| && i <= |states|
  {
    exists j :: 0 <= j < i && Fails(states[j], events[j])
  }

  predicate Failing(m: Main) {
    m == Disconnect(false) || (m.Returned? && !m.ok)
  }

  lemma FailureStep(s: State, e: Event)
    requires Enabled(s, e)
    ensures Failing(Apply(s, e).main) <==> Failing(s.main) || Fails(s, e)
  {
  }

  lemma {:induction false} FailureShows(states: seq<State>, events: seq<Event>, i: nat)
    requires Execution(states, events) && i < |states|
    ensures Failed(states, events, i) <==> Failing(states[i].main)
  {
    if i > 0 {
      var k := i - 1;
      FailureShows(states, events, k);
      assert states[k + 1] == Apply(states[k], events[k]);
      FailureStep(states[k], events[k]);
    }
  }

  /** In every execution, shutdown reports an error exactly when one of its stages has failed. */
  lemma ReturnsWhatHappened(states: seq<State>, events: seq<Event>, i: nat)
    requires Execution(states, events) && i < |states| && states[i].main.Returned?
    ensures states[i].main.ok <==> !Failed(states, events, i)
  {
    FailureShows(states, events, i);
  }

  /** In every execution, the log grows by what goroutines say and by the offline status, and by
      nothing else. */
  lemma LogIsWhatWasSaid(states: seq<State>, events: seq<Event>, i: nat)
    requires Execution(states, events) && i < |events|
    ensures states[i + 1].log == states[i].log +
              match events[i]
              case Speak(_, message) => [message]
              case MainSpeaks => [Other]
              case Advance(good) => if states[i].main == PublishOffline && good then [Offline] else []
              case _ => []
  {
    assert states[i + 1] == Apply(states[i], events[i]);
  }

  /** A failing offline publish does not keep the transport from being disconnected. */
  lemma DisconnectsAnyway(states: seq<State>, events: seq<Event>, i: nat, good: bool)
    requires Execution(states, events) && i < |events| && events[i] == Advance(good)
    ensures states[i].main == PublishOffline ==> states[i + 1].main == Disconnect(good)
    ensures states[i].main.Disconnect? && good ==> !states[i + 1].flags.connected
  {
    assert states[i + 1] == Apply(states[i], events[i]);
  }

  // ---------- shutdown can succeed ----------

  lemma Extend(states: seq<State>, events: seq<Event>, e: Event) returns (states': seq<State>, events': seq<Event>)
    requires Execution(states, events) && Enabled(states[|events|], e)
    ensures Execution(states', events') && states'[|events'|] == Apply(states[|events|], e)
    ensures events' == events + [e]
  {
    states', events' := states + [Apply(states[|events|], e)], events + [e];
  }

  /** One step of the main goroutine that goes well. */
  lemma Advances(states: seq<State>, events: seq<Event>, next: Main, flags: Flags)
    returns (states': seq<State>, events': seq<Event>)
    requires Execution(states, events) && Enabled(states[|events|], Advance(true))
    requires !states[|events|].main.PublishOffline?
    requires next == NextMain(states[|events|].main, states[|events|].flags, true)
    requires flags == MainFlags(states[|events|].main, states[|events|].flags, true)
    ensures Execution(states', events')
    ensures states'[|events'|] == states[|events|].(main := next, flags := flags)
  {
    states', events' := Extend(states, events, Advance(true));
  }

  /** Both gates are closed and everything is cancelled. */
  lemma ClosesGates(states: seq<State>, events: seq<Event>) returns (states': seq<State>, events': seq<Event>)
    requires Execution(states, events) && states[|events|].main == Serving
    ensures Execution(states', events')
    ensures var s := states[|events|];
            states'[|events'|] == s.(
              main := SpawnControllerWait,
              flags := s.flags.(mqttAccepting := false, controllerAccepting := false, cancelled := true))
  {
    var f := states[|events|].flags;
    states', events' := Advances(states, events, GateMqtt, f);
    f := f.(mqttAccepting := false);
    states', events' := Advances(states', events', GateController, f);
    f := f.(controllerAccepting := false);
    states', events' := Advances(states', events', Cancelling, f);
    f := f.(cancelled := true);
    states', events' := Advances(states', events', SpawnControllerWait, f);
  }

  lemma SomebodyInside(r: Room) returns (id: nat)
    requires Counted(r) && r.wg + r.callbacks > 0
    ensures id in r.threads && (CountedByController(r.threads[id]) || CountedByMqtt(r.threads[id]))
  {
    if r.wg > 0 {
      id :| id in r.ControllerUsers();
    } else {
      id :| id in r.MqttUsers();
    }
  }

  /** Once everything is cancelled, everybody inside can leave, whatever they were doing. */
  lemma {:induction false} EverybodyLeaves(states: seq<State>, events: seq<Event>, inside: nat)
    returns (states': seq<State>, events': seq<Event>)
    requires Execution(states, events) && states[|events|].flags.cancelled
    requires inside == states[|events|].room.wg + states[|events|].room.callbacks
    ensures Execution(states', events')
    ensures var s, s' := states[|events|], states'[|events'|];
            s'.room.wg == 0 && s'.room.callbacks == 0 && s' == s.(room := s'.room)
    decreases inside
  {
    states', events' := states, events;
    InvThroughout(states, events, |events|);
    NobodyInside(states[|events|].room);
    if inside > 0 {
      var id := SomebodyInside(states[|events|].room);
      var leaves := if states[|events|].room.At(id, InBoth) then LeaveController(id) else Leave(id);
      states', events' := Extend(states, events, leaves);
      InvThroughout(states', events', |events'|);
      NobodyInside(states'[|events'|].room);
      states', events' := EverybodyLeaves(states', events', inside - 1);
    }
  }

  /** With nobody inside, the controller's wait ends. */
  lemma ControllerStage(states: seq<State>, events: seq<Event>)
    returns (states': seq<State>, events': seq<Event>)
    requires Execution(states, events)
    requires var s := states[|events|]; s.main == SpawnControllerWait && s.room.wg == 0
    ensures Execution(states', events')
    ensures var s := states[|events|];
            states'[|events'|] == s.(main := CloseMqtt, flags := s.flags.(controllerWait := Closed))
  {
    var f := states[|events|].flags;
    states', events' := Advances(states, events, AwaitController, f.(controllerWait := Waiting));
    states', events' := Extend(states', events', ControllerWaitEnds);
    states', events' := Advances(states', events', CloseMqtt, f.(controllerWait := Closed));
  }

  /** With nobody inside, the client's wait ends. */
  lemma MqttStage(states: seq<State>, events: seq<Event>)
    returns (states': seq<State>, events': seq<Event>)
    requires Execution(states, events)
    requires var s := states[|events|]; s.main == CloseMqtt && s.room.callbacks == 0
    ensures Execution(states', events')
    ensures var s := states[|events|];
            states'[|events'|]
              == s.(main := CheckConnection, flags := s.flags.(mqttAccepting := false, mqttWait := Closed))
  {
    var f := states[|events|].flags.(mqttAccepting := false);
    states', events' := Advances(states, events, SpawnMqttWait, f);
    states', events' := Advances(states', events', AwaitMqtt, f.(mqttWait := Waiting));
    states', events' := Extend(states', events', MqttWaitEnds);
    states', events' := Advances(states', events', CheckConnection, f.(mqttWait := Closed));
  }

  /** Connected: offline is published and the transport disconnected. */
  lemma Disconnects(states: seq<State>, events: seq<Event>)
    returns (states': seq<State>, events': seq<Event>)
    requires Execution(states, events)
    requires states[|events|].main == CheckConnection && states[|events|].flags.connected
    ensures Execution(states', events')
    ensures var s := states[|events|];
            states'[|events'|]
              == s.(main := CloseGpio(true), flags := s.flags.(connected := false), log := s.log + [Offline])
  {
    var s := states[|events|];
    states', events' := Advances(states, events, PublishOffline, s.flags);
    states', events' := Extend(states', events', Advance(true));
    assert states'[|events'|] == s.(main := Disconnect(true), log := s.log + [Offline]);
    states', events' := Advances(states', events', CloseGpio(true), s.flags.(connected := false));
  }

  /** Everybody leaves, and both waits end. */
  lemma Drains(states: seq<State>, events: seq<Event>) returns (states': seq<State>, events': seq<Event>)
    requires Execution(states, events) && states[|events|].main == SpawnControllerWait
    requires states[|events|].flags.cancelled
    ensures Execution(states', events')
    ensures var s, s' := states[|events|], states'[|events'|];
            && s'.main == CheckConnection && s'.room.wg == 0 && s'.room.callbacks == 0
            && s'.flags.connected == s.flags.connected && s'.log == s.log
  {
    InvThroughout(states, events, |events|);
    NobodyInside(states[|events|].room);
    states', events' := EverybodyLeaves(states, events, states[|events|].room.wg + states[|events|].room.callbacks);
    states', events' := ControllerStage(states', events');
    states', events' := MqttStage(states', events');
  }

  /** The transport is disconnected if it is connected, then the lines are closed. */
  lemma Closes(states: seq<State>, events: seq<Event>) returns (states': seq<State>, events': seq<Event>)
    requires Execution(states, events) && states[|events|].main == CheckConnection
    ensures Execution(states', events')
    ensures var s, s' := states[|events|], states'[|events'|];
            && s'.main == Returned(true, s.flags.connected) && s'.room == s.room
            && !s'.flags.gpioOpen && !s'.flags.connected
            && s'.log == if s.flags.connected then s.log + [Offline] else s.log
  {
    var s := states[|events|];
    if s.flags.connected {
      states', events' := Disconnects(states, events);
    } else {
      states', events' := Advances(states, events, CloseGpio(false), s.flags);
    }
    var flags := s.flags.(connected := false, gpioOpen := false);
    states', events' := Advances(states', events', Returned(true, s.flags.connected), flags);
  }

  /** From wherever the service is running, with whatever workers and callbacks, shutdown can
      succeed: everybody leaves, offline is published if the client is connected, the transport is
      disconnected, the lines are closed, and no error is returned. */
  lemma ShutdownCanSucceed(states: seq<State>, events: seq<Event>)
    returns (states': seq<State>, events': seq<Event>)
    requires Execution(states, events) && states[|events|].main == Serving
    ensures Execution(states', events')
    ensures var s, s' := states[|events|], states'[|events'|];
            && s'.main == Returned(true, s.flags.connected)
            && s'.room.wg == 0 && s'.room.callbacks == 0 && !s'.flags.gpioOpen && !s'.flags.connected
            && s'.log == if s.flags.connected then s.log + [Offline] else s.log
  {
    states', events' := ClosesGates(states, events);
    states', events' := Drains(states', events');
    states', events' := Closes(states', events');
  }

  // ---------- while the service is running ----------

  predicate InService(s: State) {
    s.main == Serving && s.flags.controllerAccepting && s.flags.mqttAccepting && !s.flags.cancelled
  }

  /** A GPIO callback can come at any time, publish and go, and so can a message callback, which
      publishes nothing. */
  lemma CallbackVisits(states: seq<State>, events: seq<Event>, id: nat, role: Role)
    returns (states': seq<State>, events': seq<Event>)
    requires Execution(states, events) && InService(states[|events|]) && id !in states[|events|].room.threads
    requires role == GpioEvent || role == MessageEvent
    ensures Execution(states', events')
    ensures var s, s' := states[|events|], states'[|events'|];
            && s'.room == s.room.(threads := s.room.threads[id := Thread(role, Gone)])
            && s'.log == (if role == GpioEvent then s.log + [Other] else s.log)
            && s'.main == s.main && s'.flags == s.flags
  {
    states', events' := Extend(states, events, Arrive(id, role));
    states', events' := Extend(states', events', Enter(id));
    if role == GpioEvent {
      states', events' := Extend(states', events', Speak(id, Other));
    }
    states', events' := Extend(states', events', Leave(id));
  }

  /** The connection can come up, and its hook publishes the online status and, in the controller's
      part, discovery and states. */
  lemma ConnectionVisits(states: seq<State>, events: seq<Event>, id: nat)
    returns (states': seq<State>, events': seq<Event>)
    requires Execution(states, events) && InService(states[|events|]) && id !in states[|events|].room.threads
    ensures Execution(states', events')
    ensures var s, s' := states[|events|], states'[|events'|];
            && s'.flags == s.flags.(connected := true) && s'.log == s.log + [Online, Other] && s'.main == s.main
            && s'.room == s.room.(threads := s.room.threads[id := Thread(ConnectEvent, Gone)])
  {
    states', events' := ConnectionComes(states, events, id);
    states', events' := Extend(states', events', EnterController(id));
    states', events' := Extend(states', events', Speak(id, Other));
    states', events' := Extend(states', events', LeaveController(id));
    states', events' := Extend(states', events', Leave(id));
  }

  lemma ConnectionComes(states: seq<State>, events: seq<Event>, id: nat)
    returns (states': seq<State>, events': seq<Event>)
    requires Execution(states, events) && InService(states[|events|]) && id !in states[|events|].room.threads
    ensures Execution(states', events')
    ensures var s, s' := states[|events|], states'[|events'|];
            && s'.flags == s.flags.(connected := true) && s'.log == s.log + [Online] && s'.main == s.main
            && s'.room == Room(s.room.threads[id := Thread(ConnectEvent, InMqtt)], s.room.wg, s.room.callbacks + 1)
  {
    states', events' := Extend(states, events, Link(true));
    states', events' := Extend(states', events', Arrive(id, ConnectEvent));
    states', events' := Extend(states', events', Enter(id));
    states', events' := Extend(states', events', Speak(id, Online));
  }

  /** A worker can publish whenever it runs, even while shutdown waits for it. */
  lemma WorkerPublishes(states: seq<State>, events: seq<Event>, id: nat)
    returns (states': seq<State>, events': seq<Event>)
    requires Execution(states, events) && states[|events|].room.At(id, InController)
    requires states[|events|].room.threads[id].role == Worker
    ensures Execution(states', events')
    ensures states'[|events'|] == states[|events|].(log := states[|events|].log + [Other])
  {
    states', events' := Extend(states, events, Speak(id, Other));
  }

  /** The main goroutine can publish while it serves, and a signal can come at any time. */
  lemma MainPublishesAndIsSignalled(states: seq<State>, events: seq<Event>)
    returns (states': seq<State>, events': seq<Event>)
    requires Execution(states, events) && states[|events|].main == Serving
    ensures Execution(states', events') && Signalled(events', |events'|)
    ensures var s, s' := states[|events|], states'[|events'|];
            s' == s.(log := s.log + [Other], flags := s.flags.(cancelled := true))
  {
    states', events' := Extend(states, events, MainSpeaks);
    states', events' := Extend(states', events', Signal);
    assert events'[|events'| - 1] == Signal;
  }
}
