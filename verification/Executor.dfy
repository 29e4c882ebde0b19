/** Running an action list under errors and cancellation, and capturing a command's output in
    a fixed amount of memory. */
module Executor {
  // ---------- action lists ----------

  /** What the surroundings do to one action: whether cancellation is visible when the loop
      reaches it, and whether it succeeds once started. */
  datatype Fate = Fate(cancelledBefore: bool, succeeds: bool)

  datatype Action = Action(ignoreError: bool)

  /** The loop goes past an action: it is started and does not fail for good. */
  predicate Passes(a: Action, f: Fate) {
    !f.cancelledBefore && (f.succeeds || a.ignoreError)
  }

  datatype Ending = Completed | Cancelled | Failed

  /** Started actions form a prefix. The list ends at the first action it cannot pass: without
      starting it when cancelled, having started it when it fails. */
  predicate EndsProperly(actions: seq<Action>, fates: seq<Fate>, started: seq<nat>, ending: Ending)
    requires |fates| == |actions|
  {
    && (forall k :: 0 <= k < |started| ==> started[k] == k)
    && |started| <= |actions|
    && match ending
       case Completed => |started| == |actions| && forall k :: 0 <= k < |actions| ==> Passes(actions[k], fates[k])
       case Cancelled =>
         && |started| < |actions| && fates[|started|].cancelledBefore
         && forall k :: 0 <= k < |started| ==> Passes(actions[k], fates[k])
       case Failed =>
         && |started| > 0
         && var last := |started| - 1;
            && !fates[last].cancelledBefore && !fates[last].succeeds && !actions[last].ignoreError
            && forall k :: 0 <= k < last ==> Passes(actions[k], fates[k])
  }

  method Execute(actions: seq<Action>, fates: seq<Fate>) returns (ending: Ending, started: seq<nat>)
    requires |fates| == |actions|
    ensures EndsProperly(actions, fates, started, ending)
    ensures forall k :: 0 <= k < |started| ==>
              started[k] == k && !fates[k].cancelledBefore
              && (k + 1 < |started| ==> fates[k].succeeds || actions[k].ignoreError)
    ensures ending == Completed <==>
              forall k :: 0 <= k < |actions| ==>
                !fates[k].cancelledBefore && (fates[k].succeeds || actions[k].ignoreError)
    ensures ending == Cancelled ==> |started| < |actions| && fates[|started|].cancelledBefore
    ensures ending == Failed ==>
              |started| > 0 && !fates[|started| - 1].succeeds && !actions[|started| - 1].ignoreError
  {
    started := [];
    for i := 0 to |actions|
      invariant |started| == i && forall k :: 0 <= k < i ==> started[k] == k
      invariant forall k :: 0 <= k < i ==> Passes(actions[k], fates[k])
    {
      if fates[i].cancelledBefore {
        return Cancelled, started;
      }
      started := started + [i];
      if !fates[i].succeeds {
        if actions[i].ignoreError {
          continue;
        }
        return Failed, started;
      }
    }
    return Completed, started;
  }

  /** The first action the list does not get past. */
  function StopIndex(started: seq<nat>, ending: Ending): int {
    if ending.Failed? then |started| - 1 else |started|
  }

  lemma StopsNoLater(actions: seq<Action>, fates: seq<Fate>, s: seq<nat>, e: Ending, s': seq<nat>, e': Ending)
    requires |fates| == |actions|
    requires EndsProperly(actions, fates, s, e) && EndsProperly(actions, fates, s', e')
    ensures StopIndex(s', e') <= StopIndex(s, e)
  {
    var stop := StopIndex(s, e);
    assert stop < |actions| ==> !Passes(actions[stop], fates[stop]);
  }

  /** The ending and the started prefix are determined by the fates: there is one way to stop. */
  lemma EndingIsDetermined(actions: seq<Action>, fates: seq<Fate>, s: seq<nat>, e: Ending, s': seq<nat>, e': Ending)
    requires |fates| == |actions|
    requires EndsProperly(actions, fates, s, e) && EndsProperly(actions, fates, s', e')
    ensures s == s' && e == e'
  {
    StopsNoLater(actions, fates, s, e, s', e');
    StopsNoLater(actions, fates, s', e', s, e);
  }

  /** Cancellation is sticky, so once it is visible nothing later starts. */
  lemma NothingStartsOnceVisible(actions: seq<Action>, fates: seq<Fate>, started: seq<nat>, ending: Ending, c: nat)
    requires |fates| == |actions| && EndsProperly(actions, fates, started, ending)
    requires c < |actions| && forall k :: c <= k < |actions| ==> fates[k].cancelledBefore
    ensures |started| <= c && ending != Completed
  {
    assert !Passes(actions[c], fates[c]);
    assert ending.Failed? ==> !fates[|started| - 1].cancelledBefore;
  }

  // ---------- bounded capture ----------

  newtype uint64 = x: int | 0 <= x < 0x1_0000_0000_0000_0000

  const MAX_UINT64: uint64 := 0xFFFF_FFFF_FFFF_FFFF
  const OUTPUT_LIMIT: nat := 64 * 1024

  function Least(a: int, b: int): int {
    if a < b then a else b
  }

  /** What remains of everything written: its length, saturated, its first bytes, and whether
      bytes were dropped. */
  datatype Stats = Stats(total: int, data: seq<bv8>, truncated: bool)

  function Captured(written: seq<bv8>): Stats {
    Stats(Least(MAX_UINT64 as int, |written|),
          written[..Least(OUTPUT_LIMIT, |written|)],
          |written| > OUTPUT_LIMIT)
  }

  /** The first 64 KiB and nothing else; the total is exact until it saturates; truncation is
      reported exactly when something is missing. */
  lemma CapturedIsPrefix(written: seq<bv8>)
    ensures var c := Captured(written);
            && c.data <= written && |c.data| <= 65536
            && (c.truncated <==> c.data != written) && (c.truncated ==> |c.data| == 65536)
            && (c.total == |written| <= 0xFFFF_FFFF_FFFF_FFFF || c.total == 0xFFFF_FFFF_FFFF_FFFF < |written|)
  {
    assert |written| <= 65536 ==> written[..|written|] == written;
  }

  function Flatten(chunks: seq<seq<bv8>>): seq<bv8> {
    if chunks == [] then [] else Flatten(chunks[..|chunks| - 1]) + chunks[|chunks| - 1]
  }

  class BoundedOutput {
    var total: uint64
    var data: seq<bv8>
    var truncated: bool
    ghost var written: seq<bv8>

    constructor ()
      ensures written == [] && Snapshot() == Captured([])
    {
      total, data, truncated, written := 0, [], false, [];
    }

    function Snapshot(): Stats
      reads this
    {
      Stats(total as int, data, truncated)
    }

    /** Every write reports its full length; what is kept depends only on all bytes written so
        far, never on how they were cut into writes. Totals saturate instead of wrapping. */
    method Write(p: seq<bv8>) returns (n: int)
      requires |p| <= MAX_UINT64 as int
      requires Snapshot() == Captured(written)
      modifies this
      ensures n == |p|
      ensures written == old(written) + p
      ensures Snapshot() == Captured(written)
    {
      var amount := |p| as uint64;
      if MAX_UINT64 - total < amount {
        total := MAX_UINT64;
        truncated := true;
      } else {
        total := total + amount;
      }
      var remaining := OUTPUT_LIMIT - |data|;
      var captured := |p|;
      if captured > remaining {
        captured := remaining;
        truncated := true;
      }
      assert (written + p)[..Least(OUTPUT_LIMIT, |written| + |p|)] == data + p[..captured] by {
        assert data == written[..|data|];
      }
      data := data + p[..captured];
      written := written + p;
      n := |p|;
    }

    /** A command's whole output, in whatever chunks it arrives. */
    method Drain(chunks: seq<seq<bv8>>)
      requires forall c :: c in chunks ==> |c| <= MAX_UINT64 as int
      requires Snapshot() == Captured(written)
      modifies this
      ensures written == old(written) + Flatten(chunks)
      ensures Snapshot() == Captured(old(written) + Flatten(chunks))
    {
      assert old(written) + [] == written;
      for i := 0 to |chunks|
        invariant written == old(written) + Flatten(chunks[..i])
        invariant Snapshot() == Captured(written)
      {
        assert chunks[..i + 1][..i] == chunks[..i];
        var n := Write(chunks[i]);
        assert old(written) + Flatten(chunks[..i]) + chunks[i] == old(written) + Flatten(chunks[..i + 1]);
      }
      assert chunks[..|chunks|] == chunks;
    }
  }
}
