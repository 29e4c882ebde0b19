/** The time shutdown may take: one ten-second deadline shared by every wait, on a clock that
    also moves while nothing is being waited for. Times are nanoseconds. */
module ShutdownBudget {
  import opened Wrappers

  const MILLISECOND := 1_000_000
  const SECOND := 1000 * MILLISECOND
  const SHUTDOWN_TIMEOUT := 10 * SECOND
  const PUBLISH_TIMEOUT := 5 * SECOND
  const QUIESCE := 500 * MILLISECOND

  function AtLeastZero(t: int): nat {
    if t < 0 then 0 else t
  }

  function Min(a: int, b: int): int {
    if a < b then a else b
  }

  /** waited is the time spent in waits with a timeout, computed everything in between. */
  class Clock {
    var now: int
    ghost var waited: int
    ghost var computed: int

    constructor (now: int)
      ensures this.now == now && waited == 0 && computed == 0
    {
      this.now, waited, computed := now, 0, 0;
    }

    method Tick()
      modifies this
      ensures now - old(now) == computed - old(computed) >= 0
      ensures waited == old(waited)
    {
      var d: nat :| 0 <= d;
      now, computed := now + d, computed + d;
    }

    /** Waits for something for at most timeout, and gives up only then; a timeout that is not
        positive fires at once. */
    method WaitUpTo(timeout: int) returns (happened: bool)
      modifies this
      ensures now - old(now) == waited - old(waited)
      ensures 0 <= waited - old(waited) <= AtLeastZero(timeout)
      ensures !happened ==> waited - old(waited) == AtLeastZero(timeout)
      ensures computed == old(computed)
    {
      var d: nat :| d <= AtLeastZero(timeout);
      happened := *;
      if !happened {
        d := AtLeastZero(timeout);
      }
      now, waited := now + d, waited + d;
    }
  }

  /** Spends: what a stage may add to the waits, however long it computes. */
  twostate predicate Spends(clock: Clock, budget: int)
    reads clock
  {
    && 0 <= clock.waited - old(clock.waited) <= AtLeastZero(budget)
    && old(clock.computed) <= clock.computed
    && clock.now - old(clock.now) == clock.waited - old(clock.waited) + clock.computed - old(clock.computed)
  }

  /** Fails only when the whole timeout has gone by. */
  method ControllerShutdown(clock: Clock, timeout: int) returns (ok: bool)
    modifies clock
    ensures Spends(clock, timeout)
    ensures !ok ==> clock.now - old(clock.now) >= timeout
  {
    clock.Tick();
    ok := clock.WaitUpTo(timeout);
  }

  /** What closing the client ran into: whether the callbacks finished, the time left then,
      whether publishing the offline status succeeded or was refused, and the time left after it. */
  datatype Closing = Closing(drained: bool, before: int, published: bool, refused: bool, after: int)

  /** Callback wait, offline publish and quiesce share one deadline. A disconnect happens only
      with time left, so the quiesce handed to the transport is never a wrapped negative: it is
      half a second, or what is left in whole milliseconds if that is less. Closing fails only
      when the time is used up or the offline status could not be published. */
  method MqttClose(clock: Clock, timeout: int, connected: bool)
    returns (ok: bool, quiesce: Option<int>, ghost c: Closing)
    modifies clock
    ensures Spends(clock, timeout)
    ensures ok <==> c.drained && (connected ==> c.before > 0 && c.published && c.after > 0)
    ensures quiesce == if c.drained && connected && c.before > 0 && c.after > 0
                       then Some(if c.after >= 500_000_000 then 500 else c.after / 1_000_000) else None
    ensures quiesce.Some? ==> 0 <= quiesce.value <= 500
    ensures !c.drained ==> clock.now - old(clock.now) >= timeout
    ensures c.drained && connected && (c.before <= 0 || c.after <= 0) ==> clock.now - old(clock.now) >= timeout
    ensures c.drained && connected && c.before > 0 && !c.published && !c.refused ==>
              c.before - c.after >= 5_000_000_000 || c.after <= 0
    ensures quiesce.Some? ==>
              timeout - c.after <= clock.now - old(clock.now) <= timeout - c.after + quiesce.value * 1_000_000
  {
    var deadline := clock.now + timeout;
    clock.Tick();
    var drained := clock.WaitUpTo(deadline - clock.now);
    if !drained {
      return false, None, Closing(false, 0, false, false, 0);
    }
    clock.Tick();
    if !connected {
      return true, None, Closing(true, 0, false, false, 0);
    }
    var remaining := deadline - clock.now;
    ghost var before := remaining;
    if remaining <= 0 {
      return false, None, Closing(true, before, false, false, 0);
    }
    var inTime := clock.WaitUpTo(Min(PUBLISH_TIMEOUT, remaining));
    var error: bool := *;
    var published := inTime && !error;
    clock.Tick();
    remaining := deadline - clock.now;
    ghost var after := remaining;
    if remaining <= 0 {
      return false, None, Closing(true, before, published, error, after);
    }
    var milliseconds := Min(QUIESCE, remaining) / MILLISECOND;
    var settled := clock.WaitUpTo(milliseconds * MILLISECOND);
    return published, Some(milliseconds), Closing(true, before, published, error, after);
  }

  /** Which stages of shutting down went well. */
  datatype Stages = Stages(controller: bool, mqtt: bool, gpio: bool)

  /** Everything shutdown waits for fits in ten seconds, however long it computes in between; it
      succeeds exactly when all three stages do, and a failing stage leaves the later resources
      alone. */
  method ShutdownService(clock: Clock, connected: bool)
    returns (ok: bool, gpioClosed: bool, quiesce: Option<int>, ghost went: Stages)
    modifies clock
    ensures Spends(clock, 10_000_000_000)
    ensures clock.now - old(clock.now) <= 10_000_000_000 + clock.computed - old(clock.computed)
    ensures ok <==> went.controller && went.mqtt && went.gpio
    ensures gpioClosed <==> went.controller && went.mqtt
    ensures !went.controller ==> clock.now - old(clock.now) >= 10_000_000_000 && quiesce == None
    ensures gpioClosed ==> (quiesce.Some? <==> connected)
    ensures quiesce.Some? ==> 0 <= quiesce.value <= 500
  {
    var deadline := clock.now + SHUTDOWN_TIMEOUT;
    clock.Tick();
    var done := ControllerShutdown(clock, deadline - clock.now);
    if !done {
      return false, false, None, Stages(false, false, false);
    }
    clock.Tick();
    ghost var c: Closing;
    done, quiesce, c := MqttClose(clock, deadline - clock.now, connected);
    if !done {
      return false, false, quiesce, Stages(true, false, false);
    }
    var closed: bool := *;
    return closed, true, quiesce, Stages(true, true, closed);
  }
}
