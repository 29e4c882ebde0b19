/** The discovery manifest: which topics a device has on the broker, and which client owns
    the list. */
module Manifest {
  import opened Text
  import opened DiscoveryTopics
  import opened Config

  const STATE_VERSION := 1
  const MAX_STATE_SIZE := 64 * 1024

  datatype DiscoveryState = DiscoveryState(version: int, ownerID: string, deviceID: string, topics: seq<string>)

  const NO_STATE := DiscoveryState(0, "", "", [])

  predicate ValidState(s: DiscoveryState) {
    || s == NO_STATE
    || (&& s.version == STATE_VERSION
        && s.ownerID != ""
        && MatchesIdPattern(s.deviceID)
        && Distinct(s.topics)
        && forall t :: t in s.topics ==> OwnedDiscoveryTopic(t, s.deviceID))
  }

  method ValidateDiscoveryState(state: DiscoveryState) returns (ok: bool)
    ensures ok <==> ValidState(state)
  {
    if state.version == 0 && state.ownerID == "" && state.deviceID == "" && |state.topics| == 0 {
      return true;
    }
    if state.version != STATE_VERSION || state.ownerID == "" {
      return false;
    }
    var known := ValidDiscoveryID(state.deviceID);
    if !known {
      return false;
    }
    var seen: set<string> := {};
    for i := 0 to |state.topics|
      invariant seen == Elems(state.topics[..i])
      invariant Distinct(state.topics[..i])
      invariant forall t :: t in state.topics[..i] ==> OwnedDiscoveryTopic(t, state.deviceID)
    {
      var topic := state.topics[i];
      assert topic in state.topics;
      if !OwnedDiscoveryTopic(topic, state.deviceID) {
        return false;
      }
      if topic in seen {
        var j :| 0 <= j < i && state.topics[..i][j] == topic;
        assert state.topics[j] == state.topics[i];
        return false;
      }
      seen := seen + {topic};
      assert state.topics[..i + 1] == state.topics[..i] + [topic];
    }
    assert state.topics[..|state.topics|] == state.topics;
    return true;
  }

  // ---------- unions and differences of topic lists ----------

  function Unique(s: seq<string>): (r: seq<string>)
    ensures Distinct(r) && Elems(r) == Elems(s)
  {
    if s == [] then [] else
      var init, last := s[..|s| - 1], s[|s| - 1];
      var rest := Unique(init);
      assert s == init + [last];
      Append(init, last);
      Append(rest, last);
      assert last in rest <==> last in Elems(rest);
      if last in rest then rest else rest + [last]
  }

  function Union(first: seq<string>, second: seq<string>): seq<string> {
    Sort(Unique(first + second))
  }

  function Without(s: seq<string>, keep: set<string>): (r: seq<string>)
    ensures Elems(r) == Elems(s) - keep
    ensures Distinct(s) ==> Distinct(r)
  {
    if s == [] then [] else
      var init, last := s[..|s| - 1], s[|s| - 1];
      var rest := Without(init, keep);
      assert s == init + [last];
      Append(init, last);
      Append(rest, last);
      assert last in rest <==> last in Elems(rest);
      if last in keep then rest else rest + [last]
  }

  function Difference(previous: seq<string>, desired: seq<string>): seq<string> {
    Sort(Without(previous, Elems(desired)))
  }

  /** A union lists every topic of both sides exactly once. */
  lemma UnionFacts(first: seq<string>, second: seq<string>)
    ensures Elems(Union(first, second)) == Elems(first) + Elems(second)
    ensures Distinct(Union(first, second))
  {
    SortKeeps(Unique(first + second));
    assert Elems(first + second) == Elems(first) + Elems(second);
  }

  lemma DifferenceFacts(previous: seq<string>, desired: seq<string>)
    ensures Elems(Difference(previous, desired)) == Elems(previous) - Elems(desired)
    ensures Distinct(previous) ==> Distinct(Difference(previous, desired))
  {
    SortKeeps(Without(previous, Elems(desired)));
  }

  lemma {:induction false} SameElementsSameMultiset(a: seq<string>, b: seq<string>)
    requires Distinct(a) && Distinct(b) && Elems(a) == Elems(b)
    ensures multiset(a) == multiset(b)
  {
    DistinctMultiset(a);
    DistinctMultiset(b);
    assert forall x :: x in a <==> x in Elems(a);
    assert forall x :: x in b <==> x in Elems(b);
  }

  /** Collects both lists into a set, walks the set in an order nobody chooses, and sorts: the
      answer does not depend on that order. */
  method UnionTopics(first: seq<string>, second: seq<string>) returns (result: seq<string>)
    ensures result == Union(first, second)
  {
    var pool: set<string> := {};
    var both := first + second;
    for i := 0 to |both|
      invariant pool == Elems(both[..i])
    {
      pool := pool + {both[i]};
      assert both[..i + 1] == both[..i] + [both[i]];
    }
    assert both[..|both|] == both;
    var names: seq<string> := [];
    var left := pool;
    while left != {}
      invariant Elems(names) + left == pool && Elems(names) !! left
      invariant Distinct(names)
      decreases left
    {
      var topic :| topic in left;
      assert topic !in Elems(names);
      names := names + [topic];
      left := left - {topic};
    }
    SameElementsSameMultiset(names, Unique(both));
    SortDeterminedByElements(names, Unique(both));
    result := Sort(names);
  }

  method DifferenceTopics(previous: seq<string>, desired: seq<string>) returns (result: seq<string>)
    ensures result == Difference(previous, desired)
  {
    var keep: set<string> := {};
    for i := 0 to |desired|
      invariant keep == Elems(desired[..i])
    {
      keep := keep + {desired[i]};
      assert desired[..i + 1] == desired[..i] + [desired[i]];
    }
    assert desired[..|desired|] == desired;
    var stale: seq<string> := [];
    for i := 0 to |previous|
      invariant stale == Without(previous[..i], keep)
    {
      assert previous[..i + 1][..i] == previous[..i];
      if previous[i] !in keep {
        stale := stale + [previous[i]];
      }
    }
    assert previous[..|previous|] == previous;
    result := Sort(stale);
  }

  // ---------- the three manifests a reconcile writes ----------

  function Listing(s: Settings, topics: seq<string>): DiscoveryState {
    DiscoveryState(STATE_VERSION, s.clientID, s.deviceID, Sort(topics))
  }

  function Blank(s: Settings): DiscoveryState {
    Listing(s, [])
  }

  function Pending(s: Settings, previous: DiscoveryState): DiscoveryState {
    Listing(s, Union(previous.topics, DesiredTopics(s)))
  }

  function Exact(s: Settings): DiscoveryState {
    Listing(s, DesiredTopics(s))
  }

  predicate Foreign(s: Settings, m: DiscoveryState) {
    m.ownerID != "" && m.ownerID != s.clientID
  }

  predicate Moved(s: Settings, m: DiscoveryState) {
    m.deviceID != "" && m.deviceID != s.deviceID
  }

  /** What a reconcile works from once it has dealt with a device-ID change. */
  function Inherited(s: Settings, m: DiscoveryState): DiscoveryState {
    if Moved(s, m) then NO_STATE else m
  }

  /** Every manifest written under an accepted configuration is valid and belongs to the same
      client, whatever valid manifest it started from. */
  lemma WrittenManifestsAreValid(s: Settings, loaded: DiscoveryState)
    requires Accepted(s) && ValidState(loaded)
    ensures ValidState(Blank(s)) && !Foreign(s, Blank(s))
    ensures ValidState(Pending(s, Inherited(s, loaded))) && !Foreign(s, Pending(s, Inherited(s, loaded)))
    ensures ValidState(Exact(s)) && !Foreign(s, Exact(s))
  {
    var previous := Inherited(s, loaded);
    DesiredTopicsAreOwned(s);
    SortKeeps([]);
    SortKeeps(DesiredTopics(s));
    var union := Union(previous.topics, DesiredTopics(s));
    UnionFacts(previous.topics, DesiredTopics(s));
    SortKeeps(union);
    forall t | t in Pending(s, previous).topics ensures OwnedDiscoveryTopic(t, s.deviceID) {
      assert t in Elems(Pending(s, previous).topics);
      assert t in Elems(previous.topics) || t in Elems(DesiredTopics(s));
    }
    forall t | t in Exact(s).topics ensures OwnedDiscoveryTopic(t, s.deviceID) {
      assert t in Elems(Exact(s).topics);
    }
  }

  /** The pending list covers both sides; the exact list is the desired set. */
  lemma PendingTopics(s: Settings, previous: DiscoveryState)
    ensures Elems(Pending(s, previous).topics) == Elems(previous.topics) + Elems(DesiredTopics(s))
  {
    UnionFacts(previous.topics, DesiredTopics(s));
    SortKeeps(Union(previous.topics, DesiredTopics(s)));
  }

  lemma ExactTopics(s: Settings)
    ensures Elems(Exact(s).topics) == Elems(DesiredTopics(s))
  {
    SortKeeps(DesiredTopics(s));
  }
}
