/** Handling one switch command under the switch's lock: run the actions, update the state in
    memory, and publish what can be observed. */
module SwitchHandler {
  import opened Wrappers
  import Executor

  datatype StateSource = Memory | Line | Unsupported

  /** What a command's actions, the later state read and its publication run into. A line that is
      not open cannot be read; a state that is not delivered is lost. */
  datatype Surroundings = Surroundings(fates: seq<Executor.Fate>, line: Option<bool>, delivered: bool)

  class SwitchRuntime {
    const source: StateSource
    const on: seq<Executor.Action>
    const off: seq<Executor.Action>
    var state: bool
    var published: seq<bool>
    ghost var completed: seq<bool>

    constructor (source: StateSource, on: seq<Executor.Action>, off: seq<Executor.Action>, initial: bool)
      ensures this.source == source && this.on == on && this.off == off
      ensures state == initial && published == [] && completed == []
    {
      this.source, this.on, this.off := source, on, off;
      state, published, completed := initial, [], [];
    }

    function Actions(target: bool): seq<Executor.Action> {
      if target then on else off
    }

    function Observe(line: Option<bool>): Option<bool>
      reads this
    {
      match source
      case Memory => Some(state)
      case Line => line
      case Unsupported => None
    }

    /** The last completed target, or the initial state: what a memory switch remembers. */
    static function Remembered(initial: bool, completed: seq<bool>): bool {
      if completed == [] then initial else completed[|completed| - 1]
    }

    /** target is the parsed payload. An invalid payload changes nothing. Otherwise the state
        moves to the target exactly when every action passed, it stays the fold of completed
        commands, and whatever is observable afterwards is published, on success and on failure
        alike, unless the publication fails; then nothing is, and the state stays as it is. */
    method HandleSwitch(target: Option<bool>, s: Surroundings, ghost initial: bool) returns (ok: bool)
      requires target.Some? ==> |s.fates| == |Actions(target.value)|
      requires source == Memory ==> state == Remembered(initial, completed)
      modifies this
      ensures source == Memory ==> state == Remembered(initial, completed)
      ensures source != Memory ==> state == old(state)
      ensures target == None ==> !ok && published == old(published) && completed == old(completed)
      ensures target.Some? ==>
                && var actions := if target.value then on else off;
                && (ok <==> forall k :: 0 <= k < |actions| ==>
                              !s.fates[k].cancelledBefore && (s.fates[k].succeeds || actions[k].ignoreError))
                && completed == (if ok then old(completed) + [target.value] else old(completed))
                && published == match Observe(s.line)
                                case Some(value) => if s.delivered then old(published) + [value] else old(published)
                                case None => old(published)
      ensures target.Some? && source == Memory ==>
                && state == (if ok then target.value else old(state))
                && published == (if s.delivered then old(published) + [state] else old(published))
      ensures target.Some? && source == Line ==>
                published == if s.line.Some? && s.delivered then old(published) + [s.line.value] else old(published)
      ensures source == Unsupported ==> published == old(published)
    {
      if target == None {
        return false;
      }
      var ending, started := Executor.Execute(Actions(target.value), s.fates);
      ok := ending == Executor.Completed;
      if ok {
        completed := completed + [target.value];
        if source == Memory {
          state := target.value;
        }
      } else {
        assert !Executor.Passes(Actions(target.value)[if ending.Failed? then |started| - 1 else |started|],
                                s.fates[if ending.Failed? then |started| - 1 else |started|]);
      }
      var current := Observe(s.line);
      if current.Some? && s.delivered {
        published := published + [current.value];
      }
    }
  }
}
