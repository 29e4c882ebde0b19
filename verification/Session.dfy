/** Duplicate rejection across reconnects. Every connection starts a clean MQTT session
    (MQTT 3.1.1, section 3.1.2.4); its connect hook resets the duplicate cache and only then
    subscribes. Hooks run on their own, so an old one may still be subscribing when the
    connection has already been replaced. */
module Session {
  import opened Text
  import opened Wrappers
  import opened DuplicateCache

  // ---------- the connect hook ----------

  datatype Effect =
    | SessionHandler(n: int)
    | Subscribed(topic: string, granted: bool)
    | Online(delivered: bool)
    | ConnectHandler(n: int)

  class Client {
    var accepting: bool
    var callbacks: nat
    var subscribers: set<string>
    var onSession: nat
    var onConnect: nat
    var effects: seq<Effect>

    constructor ()
      ensures accepting && callbacks == 0 && subscribers == {} && effects == []
    {
      accepting, callbacks, subscribers, onSession, onConnect, effects := true, 0, {}, 0, 0, [];
    }

    method BeginCallback() returns (ok: bool)
      modifies this`callbacks
      ensures ok == accepting
      ensures callbacks == if ok then old(callbacks) + 1 else old(callbacks)
    {
      if !accepting {
        return false;
      }
      callbacks := callbacks + 1;
      return true;
    }

    /** Session handlers in order, then each subscription tried once in any order, then the online
        status, then connect handlers in order, whether or not subscriptions and the status
        succeed; nothing at all once shutdown has begun. */
    method HandleConnect() returns (ghost tries: seq<(string, bool)>, ghost online: bool)
      modifies this`callbacks, this`effects
      ensures callbacks == old(callbacks)
      ensures !accepting ==> effects == old(effects)
      ensures accepting ==>
                && Distinct(Tried(tries)) && Elems(Tried(tries)) == subscribers
                && effects == old(effects)
                     + seq(onSession, i => SessionHandler(i))
                     + Subscriptions(tries)
                     + [Online(online)]
                     + seq(onConnect, i => ConnectHandler(i))
    {
      tries, online := [], false;
      var ok := BeginCallback();
      if !ok {
        return;
      }
      for n := 0 to onSession
        invariant callbacks == old(callbacks) + 1
        invariant effects == old(effects) + seq(n, i => SessionHandler(i))
      {
        effects := effects + [SessionHandler(n)];
      }
      ghost var afterSession := effects;
      var left := subscribers;
      while left != {}
        invariant callbacks == old(callbacks) + 1
        invariant Distinct(Tried(tries)) && Elems(Tried(tries)) + left == subscribers && Elems(Tried(tries)) !! left
        invariant effects == afterSession + Subscriptions(tries)
        decreases left
      {
        var topic :| topic in left;
        var granted: bool := *;
        assert topic !in Elems(Tried(tries));
        TryOneMore(tries, topic, granted);
        Append(Tried(tries), topic);
        tries := tries + [(topic, granted)];
        effects := effects + [Subscribed(topic, granted)];
        left := left - {topic};
      }
      var delivered: bool := *;
      online := delivered;
      effects := effects + [Online(delivered)];
      ghost var afterOnline := effects;
      for n := 0 to onConnect
        invariant callbacks == old(callbacks) + 1
        invariant effects == afterOnline + seq(n, i => ConnectHandler(i))
      {
        effects := effects + [ConnectHandler(n)];
      }
      callbacks := callbacks - 1;
    }
  }

  /** The topics tried, and the attempts. */
  function Tried(tries: seq<(string, bool)>): (topics: seq<string>)
    ensures |topics| == |tries|
  {
    seq(|tries|, i requires 0 <= i < |tries| => tries[i].0)
  }

  function Subscriptions(tries: seq<(string, bool)>): (effects: seq<Effect>)
    ensures |effects| == |tries|
  {
    seq(|tries|, i requires 0 <= i < |tries| => Subscribed(tries[i].0, tries[i].1))
  }

  lemma TryOneMore(tries: seq<(string, bool)>, topic: string, granted: bool)
    ensures Tried(tries + [(topic, granted)]) == Tried(tries) + [topic]
    ensures Subscriptions(tries + [(topic, granted)]) == Subscriptions(tries) + [Subscribed(topic, granted)]
  {
  }

  // ---------- sessions, hooks and deliveries interleaved ----------

  datatype Recording = Recording(topic: string, id: nat, session: nat)

  function Keys(log: seq<Recording>): (keys: seq<string>)
    ensures |keys| == |log|
  {
    seq(|log|, i requires 0 <= i < |log| => Numbered(log[i].topic, log[i].id))
  }

  datatype Hook = Starting | Subscribing | Over

  /** log holds the recordings made since the last reset; inHand is the message callback
      between its delivery and its decision, with the session that delivered it. */
  datatype Link = Link(
    session: nat, up: bool, live: set<string>, log: seq<Recording>,
    hooks: map<nat, Hook>, inHand: Option<(Message, nat)>)

  const START := Link(0, false, {}, [], map[], None)

  datatype Event =
    | Connected
    | Lost
    | RunSessionHandlers(hook: nat)
    | Subscribe(hook: nat, topic: string)
    | Finish(hook: nat)
    | Deliver(message: Message)
    | Decide

  predicate Enabled(s: Link, e: Event) {
    match e
    case Connected => !s.up
    case Lost => s.up
    case RunSessionHandlers(h) => h in s.hooks && s.hooks[h] == Starting
    case Subscribe(h, _) => h in s.hooks && s.hooks[h] == Subscribing
    case Finish(h) => h in s.hooks && s.hooks[h] == Subscribing
    case Deliver(m) => s.up && m.topic in s.live && s.inHand == None
    case Decide => s.inHand.Some?
  }

  predicate Rejects(s: Link) {
    s.inHand.Some? && IsRedelivery(Keys(s.log), s.inHand.value.0)
  }

  /** A subscription goes to whatever connection is up, not to the one its hook belongs to; one
      that fails is no step at all. */
  function Apply(s: Link, e: Event): Link
    requires Enabled(s, e)
  {
    match e
    case Connected => s.(session := s.session + 1, up := true, live := {}, hooks := s.hooks[s.session + 1 := Starting])
    case Lost => s.(up := false, live := {})
    case RunSessionHandlers(h) => s.(log := [], hooks := s.hooks[h := Subscribing])
    case Subscribe(_, t) => if s.up then s.(live := s.live + {t}) else s
    case Finish(h) => s.(hooks := s.hooks[h := Over])
    case Deliver(m) => s.(inHand := Some((m, s.session)))
    case Decide =>
      var (m, n) := s.inHand.value;
      s.(inHand := None,
         log := if Tracks(m) && !Rejects(s) then s.log + [Recording(m.topic, m.id, n)] else s.log)
  }

  ghost predicate Execution(states: seq<Link>, events: seq<Event>) {
    && |states| == |events| + 1
    && states[0] == START
    && forall i :: 0 <= i < |events| ==> Enabled(states[i], events[i]) && states[i + 1] == Apply(states[i], events[i])
  }

  /** The log is the cache's history: deciding records exactly what the cache records. */
  lemma LogIsHistory(s: Link)
    requires s.inHand.Some?
    ensures Keys(Apply(s, Decide).log) == Recorded(Keys(s.log), s.inHand.value.0)
  {
    var (m, n) := s.inHand.value;
    assert Keys(s.log + [Recording(m.topic, m.id, n)]) == Keys(s.log) + [m.Key()];
  }

  /** Rejection is exact in topic and packet identifier, although keys are plain text. */
  lemma RejectedExactly(log: seq<Recording>, m: Message)
    ensures IsRedelivery(Keys(log), m) <==>
              !m.retained && m.qos > 0 && m.duplicate
              && exists i :: 0 <= i < |log| && |log| - i <= 256 && log[i].topic == m.topic && log[i].id == m.id
  {
    var start, w := WindowStart(Keys(log)), Window(Keys(log));
    if m.Key() in w {
      var i :| 0 <= i < |w| && w[i] == m.Key();
      NumberedInjective(log[start + i].topic, log[start + i].id, m.topic, m.id);
    }
    if i :| 0 <= i < |log| && |log| - i <= CACHE_SIZE && log[i].topic == m.topic && log[i].id == m.id {
      assert w[i - start] == m.Key();
    }
  }

  // ---------- when rejection stays within a session ----------

  /** Hooks do not overlap sessions: subscriptions come from the current session's hook, and no
      older message is still in hand when the current hook resets the cache. */
  predicate Disciplined(s: Link, e: Event) {
    && (e.Subscribe? ==> e.hook == s.session)
    && (e.RunSessionHandlers? && e.hook == s.session ==> s.inHand == None)
  }

  predicate Prepared(s: Link) {
    s.session in s.hooks && s.hooks[s.session] != Starting
  }

  /** Everything the cache knows, and anything in hand, comes from one session, and that is the
      current one once its hook has reset the cache. */
  predicate OneSession(s: Link, origin: nat) {
    && origin <= s.session
    && (forall r :: r in s.log ==> r.session == origin)
    && (s.inHand.Some? ==> s.inHand.value.1 == origin)
    && (Prepared(s) ==> origin == s.session)
    && (!Prepared(s) ==> s.live == {} && (s.log != [] || s.inHand.Some? ==> origin < s.session))
    && (s.up ==> s.session in s.hooks)
    && (forall h :: h in s.hooks ==> h <= s.session)
  }

  lemma StaysInOneSession(s: Link, e: Event, origin: nat)
    requires Enabled(s, e) && Disciplined(s, e) && OneSession(s, origin)
    ensures exists origin' :: OneSession(Apply(s, e), origin')
  {
    var origin' := if e == RunSessionHandlers(s.session) then s.session else origin;
    assert OneSession(Apply(s, e), origin');
  }

  lemma {:induction false} DisciplinedRun(states: seq<Link>, events: seq<Event>, i: nat)
    requires Execution(states, events) && i < |states|
    requires forall j :: 0 <= j < i ==> Disciplined(states[j], events[j])
    ensures exists origin :: OneSession(states[i], origin)
  {
    if i == 0 {
      assert OneSession(START, 0);
    } else {
      DisciplinedRun(states, events, i - 1);
      var origin :| OneSession(states[i - 1], origin);
      StaysInOneSession(states[i - 1], events[i - 1], origin);
      assert states[i - 1 + 1] == Apply(states[i - 1], events[i - 1]);
    }
  }

  predicate SameSessionEarlier(s: Link) {
    s.inHand.Some? &&
    var (m, n) := s.inHand.value;
    exists r :: r in s.log && r.topic == m.topic && r.id == m.id && r.session == n
  }

  /** Over every run of reconnects and deliveries in which hooks do not overlap sessions, a
      message is rejected only if the same packet was recorded earlier in the same session. */
  lemma RejectedOnlyWithinSession(states: seq<Link>, events: seq<Event>, i: nat)
    requires Execution(states, events) && i < |states|
    requires forall j :: 0 <= j < i ==> Disciplined(states[j], events[j])
    requires Rejects(states[i])
    ensures SameSessionEarlier(states[i])
  {
    DisciplinedRun(states, events, i);
    var s := states[i];
    RejectedExactly(s.log, s.inHand.value.0);
    var k :| 0 <= k < |s.log| && s.log[k].topic == s.inHand.value.0.topic && s.log[k].id == s.inHand.value.0.id;
    assert s.log[k] in s.log;
  }

  // ---------- exactly when a rejection is wrong ----------

  /** The cache still remembers a packet of another session, and none like it of this one. */
  predicate LeftOver(s: Link, k: nat) {
    && k < |s.log| && |s.log| - k <= CACHE_SIZE
    && s.log[k].session != s.session
    && forall r :: r in s.log && r.topic == s.log[k].topic && r.id == s.log[k].id ==> r.session != s.session
  }

  /** One delivery away from a rejection that its session does not justify. */
  ghost predicate Misdelivers(s: Link, m: Message) {
    && Enabled(s, Deliver(m))
    && Rejects(Apply(s, Deliver(m))) && !SameSessionEarlier(Apply(s, Deliver(m)))
  }

  function Redelivery(s: Link, k: nat): Message
    requires k < |s.log|
  {
    Message(s.log[k].topic, "", false, true, 1, s.log[k].id)
  }

  lemma LeftOverMisdelivers(s: Link, k: nat)
    requires s.up && s.inHand == None && LeftOver(s, k) && s.log[k].topic in s.live
    ensures Misdelivers(s, Redelivery(s, k))
  {
    RejectedExactly(s.log, Redelivery(s, k));
  }

  lemma MisdeliveryIsLeftOver(s: Link, m: Message) returns (k: nat)
    requires Misdelivers(s, m)
    ensures LeftOver(s, k) && s.log[k].topic in s.live
  {
    RejectedExactly(s.log, m);
    k :| 0 <= k < |s.log| && |s.log| - k <= CACHE_SIZE && s.log[k].topic == m.topic && s.log[k].id == m.id;
    assert s.log[k] in Apply(s, Deliver(m)).log;
  }

  /** In whatever state, the next delivery can be wrongly rejected exactly when the cache holds a
      left-over packet whose topic is subscribed. */
  lemma MisdeliversExactly(s: Link)
    requires s.up && s.inHand == None
    ensures (exists m :: Misdelivers(s, m)) <==> exists k: nat :: LeftOver(s, k) && s.log[k].topic in s.live
  {
    if m :| Misdelivers(s, m) {
      var k := MisdeliveryIsLeftOver(s, m);
    }
    if k: nat :| LeftOver(s, k) && s.log[k].topic in s.live {
      LeftOverMisdelivers(s, k);
    }
  }

  /** One subscription and one delivery away from a rejection that its session does not justify. */
  ghost predicate Misfires(s: Link, h: nat, m: Message) {
    Enabled(s, Subscribe(h, m.topic)) && Misdelivers(Apply(s, Subscribe(h, m.topic)), m)
  }

  predicate HookStillSubscribing(s: Link) {
    exists h :: h in s.hooks && s.hooks[h] == Subscribing
  }

  lemma SubscribingLeaves(s: Link, h: nat, topic: string, k: nat)
    requires s.up && Enabled(s, Subscribe(h, topic))
    ensures var s' := Apply(s, Subscribe(h, topic));
            s'.log == s.log && topic in s'.live && (LeftOver(s', k) <==> LeftOver(s, k))
  {
  }

  /** In whatever state, whichever discipline was broken before: one more subscription and one
      delivery lead to a wrong rejection exactly when the cache holds a left-over packet and some
      hook is still subscribing. */
  lemma MisfiresExactlyOnLeftOver(s: Link)
    requires s.up && s.inHand == None
    ensures (exists h, m :: Misfires(s, h, m)) <==> HookStillSubscribing(s) && exists k: nat :: LeftOver(s, k)
  {
    if h, m :| Misfires(s, h, m) {
      var k := MisdeliveryIsLeftOver(Apply(s, Subscribe(h, m.topic)), m);
      SubscribingLeaves(s, h, m.topic, k);
    }
    if k: nat :| LeftOver(s, k) && HookStillSubscribing(s) {
      var h :| h in s.hooks && s.hooks[h] == Subscribing;
      SubscribingLeaves(s, h, s.log[k].topic, k);
      LeftOverMisdelivers(Apply(s, Subscribe(h, s.log[k].topic)), k);
      assert Misfires(s, h, Redelivery(s, k));
    }
  }

  /** As long as hooks have not overlapped sessions, with something recorded that is exactly when
      the current hook has yet to reset the cache while an older one is still subscribing. */
  lemma MisfiresExactlyOnOverlap(states: seq<Link>, events: seq<Event>, i: nat)
    requires Execution(states, events) && i < |states|
    requires forall j :: 0 <= j < i ==> Disciplined(states[j], events[j])
    requires states[i].up && states[i].inHand == None && states[i].log != []
    ensures var s := states[i];
            && s.session in s.hooks
            && ((exists h, m :: Misfires(s, h, m)) <==> s.hooks[s.session] == Starting && HookStillSubscribing(s))
  {
    DisciplinedRun(states, events, i);
    var s := states[i];
    var origin :| OneSession(s, origin);
    MisfiresExactlyOnLeftOver(s);
    var last := |s.log| - 1;
    assert s.log[last] in s.log;
    if s.hooks[s.session] == Starting {
      assert LeftOver(s, last);
    }
  }

  // ---------- both ways to get there ----------

  predicate OwnSubscriptionsOnly(s: Link, e: Event) {
    e.Subscribe? ==> e.hook == s.session
  }

  lemma Extend(states: seq<Link>, events: seq<Event>, e: Event) returns (states': seq<Link>, events': seq<Event>)
    requires OwnRun(states, events) && Enabled(states[|events|], e) && OwnSubscriptionsOnly(states[|events|], e)
    ensures OwnRun(states', events') && states'[|events'|] == Apply(states[|events|], e)
  {
    states', events' := states + [Apply(states[|events|], e)], events + [e];
  }

  /** An execution in which every hook subscribes on its own connection only. */
  ghost predicate OwnRun(states: seq<Link>, events: seq<Event>) {
    && Execution(states, events)
    && forall j :: 0 <= j < |events| ==> OwnSubscriptionsOnly(states[j], events[j])
  }

  /** A message of the first session has been delivered. */
  lemma DeliveredOnce(m: Message) returns (states: seq<Link>, events: seq<Event>)
    ensures OwnRun(states, events)
    ensures states[|events|] == Link(1, true, {m.topic}, [], map[1 := Subscribing], Some((m, 1)))
  {
    states, events := Extend([START], [], Connected);
    states, events := Extend(states, events, RunSessionHandlers(1));
    states, events := Extend(states, events, Subscribe(1, m.topic));
    states, events := Extend(states, events, Deliver(m));
  }

  /** Without any overlap so far: a reconnect overtakes the first session's hook, and a wrong
      rejection is one subscription and one delivery away. */
  lemma OverlapIsReachable(topic: string, id: nat) returns (states: seq<Link>, events: seq<Event>)
    ensures OwnRun(states, events)
    ensures states[|events|]
         == Link(2, true, {}, [Recording(topic, id, 1)], map[1 := Subscribing, 2 := Starting], None)
    ensures exists h, m :: Misfires(states[|events|], h, m)
  {
    var m := Message(topic, "", false, false, 1, id);
    states, events := DeliveredOnce(m);
    states, events := Extend(states, events, Decide);
    states, events := Extend(states, events, Lost);
    states, events := Extend(states, events, Connected);
    var s := states[|events|];
    assert s == Link(2, true, {}, [Recording(topic, id, 1)], map[1 := Subscribing, 2 := Starting], None);
    MisfiresExactlyOnLeftOver(s);
    assert s.hooks[1] == Subscribing && LeftOver(s, 0);
  }

  /** A message of the first session is still in hand when the connection is lost. */
  lemma CaughtInHand(m: Message) returns (states: seq<Link>, events: seq<Event>)
    ensures OwnRun(states, events)
    ensures states[|events|] == Link(1, false, {}, [], map[1 := Subscribing], Some((m, 1)))
  {
    states, events := DeliveredOnce(m);
    states, events := Extend(states, events, Lost);
  }

  /** It is decided after the second session's reset, and so recorded in its cache. */
  lemma DecidedLate(m: Message) returns (states: seq<Link>, events: seq<Event>)
    requires Tracks(m) && !m.duplicate
    ensures OwnRun(states, events)
    ensures states[|events|]
         == Link(2, true, {}, [Recording(m.topic, m.id, 1)], map[1 := Subscribing, 2 := Subscribing], None)
  {
    states, events := CaughtInHand(m);
    states, events := Extend(states, events, Connected);
    states, events := Extend(states, events, RunSessionHandlers(2));
    assert states[|events|] == Link(2, true, {}, [], map[1 := Subscribing, 2 := Subscribing], Some((m, 1)));
    states, events := Extend(states, events, Decide);
  }

  /** The other half of the discipline is needed too: although no subscription ever overlapped,
      a redelivery in the second session is then wrongly rejected. */
  lemma LateDecisionMisfires(topic: string, id: nat) returns (states: seq<Link>, events: seq<Event>)
    ensures OwnRun(states, events)
    ensures Rejects(states[|events|]) && !SameSessionEarlier(states[|events|])
  {
    var m := Message(topic, "", false, false, 1, id);
    var again := m.(duplicate := true);
    states, events := DecidedLate(m);
    states, events := Extend(states, events, Subscribe(2, topic));
    states, events := Extend(states, events, Deliver(again));
    var s := states[|events|];
    assert s.log[0].topic == again.topic && s.log[0].id == again.id;
    RejectedExactly(s.log, again);
  }

  /** Over every run, a hook that has finished never subscribes or resets the cache again. */
  lemma {:induction false} FinishedForGood(states: seq<Link>, events: seq<Event>, j: nat, i: nat, h: nat)
    requires Execution(states, events) && j < i < |states| && events[j] == Finish(h)
    ensures h in states[i].hooks && h <= states[i].session && states[i].hooks[h] == Over
    ensures i < |events| ==> events[i] != RunSessionHandlers(h) && events[i] != Finish(h)
    ensures i < |events| && events[i].Subscribe? ==> events[i].hook != h
  {
    var k := i - 1;
    assert states[k + 1] == Apply(states[k], events[k]);
    if j < k { FinishedForGood(states, events, j, k, h); } else { HooksAreOld(states, events, j); }
  }

  lemma {:induction false} HooksAreOld(states: seq<Link>, events: seq<Event>, i: nat)
    requires Execution(states, events) && i < |states|
    ensures forall h :: h in states[i].hooks ==> h <= states[i].session
  {
    if i > 0 {
      HooksAreOld(states, events, i - 1);
      var k := i - 1;
      assert states[k + 1] == Apply(states[k], events[k]);
    }
  }
}
