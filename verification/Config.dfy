/** The part of the configuration that discovery rests on: the defaults written in place
    after decoding, and the checks that follow. Everything the daemon runs with has been
    through both. */
module Config {
  import opened Wrappers
  import opened Text
  import opened DiscoveryTopics

  const DEFAULT_PREFIX := "homeassistant"
  const DEFAULT_STATE_FILE := "/var/lib/mqtt-raspberry-controller/discovery-state.json"

  /** An entity; body is its encoded discovery document, opaque here except that an encoded
      document is never empty. sound says whether the checks on its name and actions pass. */
  datatype Entity = Entity(id: string, kind: string, body: string, sound: bool)

  datatype Settings = Settings(
    clientID: string, deviceID: string, baseTopic: string, discovery: Option<bool>,
    prefix: string, stateFile: string, entities: seq<Entity>)
  {
    predicate DiscoveryEnabled() {
      discovery == None || discovery.value
    }
  }

  // ---------- defaults ----------

  function TrimLeft(s: string, c: char): string {
    if s != "" && s[0] == c then TrimLeft(s[1..], c) else s
  }

  function TrimRight(s: string, c: char): string {
    if s != "" && s[|s| - 1] == c then TrimRight(s[..|s| - 1], c) else s
  }

  function Trim(s: string, c: char): string {
    TrimRight(TrimLeft(s, c), c)
  }

  function OrElse(value: string, default: string): string {
    if value == "" then default else value
  }

  function Defaulted(s: Settings): Settings {
    s.(clientID := OrElse(s.clientID, s.deviceID),
       baseTopic := Trim(OrElse(s.baseTopic, s.deviceID), '/'),
       prefix := Trim(OrElse(s.prefix, DEFAULT_PREFIX), '/'),
       stateFile := OrElse(s.stateFile, DEFAULT_STATE_FILE))
  }

  // ---------- checks ----------

  predicate DistinctIds(entities: seq<Entity>) {
    forall i, j :: 0 <= i < j < |entities| ==> entities[i].id != entities[j].id
  }

  predicate ValidEntity(e: Entity) {
    MatchesIdPattern(e.id) && Discoverable(e.kind) && e.sound
  }

  predicate ValidSettings(s: Settings) {
    && MatchesIdPattern(s.deviceID)
    && s.clientID != ""
    && ValidPrefix(s.baseTopic)
    && (s.DiscoveryEnabled() ==> ValidPrefix(s.prefix))
    && s.entities != []
    && DistinctIds(s.entities)
    && (forall e :: e in s.entities ==> ValidEntity(e))
  }

  lemma EntitiesAreValid(entities: seq<Entity>)
    ensures (forall e :: e in entities ==> ValidEntity(e)) <==>
              forall i :: 0 <= i < |entities| ==>
                && MatchesIdPattern(entities[i].id) && entities[i].sound
                && entities[i].kind in ["switch", "button", "binary_sensor"]
  {
    if forall e :: e in entities ==> ValidEntity(e) {
      forall i | 0 <= i < |entities|
        ensures MatchesIdPattern(entities[i].id) && entities[i].sound
                && entities[i].kind in ["switch", "button", "binary_sensor"]
      {
        assert ValidEntity(entities[i]);
      }
    }
  }

  /** What the daemon runs with: defaulted, then accepted. */
  predicate Accepted(s: Settings) {
    ValidSettings(s) && s.stateFile != "" && forall e :: e in s.entities ==> |e.body| > 0
  }

  /** The decoded configuration, whose fields the loader overwrites in place. */
  class ConfigFile {
    var clientID: string
    var deviceID: string
    var baseTopic: string
    var discovery: Option<bool>
    var prefix: string
    var stateFile: string
    var entities: seq<Entity>

    constructor (s: Settings)
      ensures View() == s
    {
      clientID, deviceID, baseTopic, discovery := s.clientID, s.deviceID, s.baseTopic, s.discovery;
      prefix, stateFile, entities := s.prefix, s.stateFile, s.entities;
    }

    function View(): Settings
      reads this
    {
      Settings(clientID, deviceID, baseTopic, discovery, prefix, stateFile, entities)
    }

    /** Each empty field gets its default, no other is replaced; slashes at either end of the
        base topic and of the prefix go. */
    method ApplyDefaults()
      modifies this
      ensures View() == Defaulted(old(View()))
      ensures clientID == if |old(clientID)| > 0 then old(clientID) else old(deviceID)
      ensures Trimmed(if |old(baseTopic)| > 0 then old(baseTopic) else old(deviceID), '/', baseTopic)
      ensures Trimmed(if |old(prefix)| > 0 then old(prefix) else "homeassistant", '/', prefix)
      ensures stateFile == if |old(stateFile)| > 0 then old(stateFile)
                           else "/var/lib/mqtt-raspberry-controller/discovery-state.json"
      ensures deviceID == old(deviceID) && discovery == old(discovery) && entities == old(entities)
    {
      TrimIsTrimmed(OrElse(baseTopic, deviceID), '/');
      TrimIsTrimmed(OrElse(prefix, DEFAULT_PREFIX), '/');
      if clientID == "" {
        clientID := deviceID;
      }
      if baseTopic == "" {
        baseTopic := deviceID;
      }
      baseTopic := Trim(baseTopic, '/');
      if prefix == "" {
        prefix := DEFAULT_PREFIX;
      }
      prefix := Trim(prefix, '/');
      if stateFile == "" {
        stateFile := DEFAULT_STATE_FILE;
      }
    }

    /** Checks in the source's order; the entity loop rejects a repeated id through a set of
        the ids seen so far. */
    method Validate() returns (ok: bool)
      ensures ok <==> ValidSettings(View())
      ensures ok <==>
                && MatchesIdPattern(deviceID) && |clientID| > 0
                && |baseTopic| > 0 && '+' !in baseTopic && '#' !in baseTopic
                && (discovery != Some(false) ==> |prefix| > 0 && '+' !in prefix && '#' !in prefix)
                && |entities| > 0
                && (forall i, j :: 0 <= i < j < |entities| ==> entities[i].id != entities[j].id)
                && (forall i :: 0 <= i < |entities| ==>
                      && MatchesIdPattern(entities[i].id) && entities[i].sound
                      && entities[i].kind in ["switch", "button", "binary_sensor"])
    {
      EntitiesAreValid(entities);
      if !MatchesIdPattern(deviceID) || clientID == "" || !ValidPrefix(baseTopic) {
        return false;
      }
      if View().DiscoveryEnabled() && !ValidPrefix(prefix) {
        return false;
      }
      if |entities| == 0 {
        return false;
      }
      var seen: set<string> := {};
      for i := 0 to |entities|
        invariant forall e :: e in entities[..i] ==> ValidEntity(e)
        invariant DistinctIds(entities[..i])
        invariant forall j :: 0 <= j < i ==> entities[j].id in seen
        invariant forall id :: id in seen ==> exists j :: 0 <= j < i && entities[j].id == id
      {
        var entity := entities[i];
        assert entity in View().entities;
        if !MatchesIdPattern(entity.id) {
          return false;
        }
        if entity.id in seen {
          assert exists j :: 0 <= j < i && entities[j].id == entity.id;
          return false;
        }
        seen := seen + {entity.id};
        if !entity.sound || !Discoverable(entity.kind) {
          return false;
        }
        assert entities[..i + 1] == entities[..i] + [entity];
      }
      assert entities[..|entities|] == entities;
      return true;
    }

    /** Defaults, then checks. Success leaves a configuration discovery can rely on: a state
        file, a client identity, and a prefix without a slash at either end. */
    method Load() returns (ok: bool)
      requires forall e :: e in entities ==> |e.body| > 0
      modifies this
      ensures View() == Defaulted(old(View()))
      ensures ok <==> ValidSettings(View())
      ensures ok ==> Accepted(View())
    {
      ApplyDefaults();
      ok := Validate();
    }
  }

  /** r is what is left of s when every c at its start and at its end is cut off. */
  ghost predicate Trimmed(s: string, c: char, r: string) {
    exists i, j ::
      && 0 <= i <= j <= |s| && r == s[i..j]
      && (forall k :: 0 <= k < i ==> s[k] == c)
      && (forall k :: j <= k < |s| ==> s[k] == c)
      && (i < j ==> s[i] != c && s[j - 1] != c)
  }

  lemma {:induction false} TrimLeftCuts(s: string, c: char) returns (i: nat)
    ensures i <= |s| && TrimLeft(s, c) == s[i..] && (i < |s| ==> s[i] != c)
    ensures forall k :: 0 <= k < i ==> s[k] == c
  {
    if s != "" && s[0] == c {
      i := TrimLeftCuts(s[1..], c);
      assert forall k :: 0 <= k < i ==> s[1..][k] == s[k + 1];
      i := i + 1;
    } else {
      i := 0;
    }
  }

  lemma {:induction false} TrimRightCuts(s: string, c: char) returns (j: nat)
    ensures j <= |s| && TrimRight(s, c) == s[..j] && (j > 0 ==> s[j - 1] != c)
    ensures forall k :: j <= k < |s| ==> s[k] == c
  {
    if s != "" && s[|s| - 1] == c {
      j := TrimRightCuts(s[..|s| - 1], c);
    } else {
      j := |s|;
    }
  }

  lemma TrimIsTrimmed(s: string, c: char)
    ensures Trimmed(s, c, Trim(s, c))
  {
    var i := TrimLeftCuts(s, c);
    var j := TrimRightCuts(s[i..], c);
    assert forall k :: i + j <= k < |s| ==> s[i..][k - i] == s[k];
    assert Trim(s, c) == s[i..i + j];
  }

  /** A configuration without a state path or client identity never leaves the loader, and no
      prefix keeps the separator at either end. */
  lemma DefaultsFillTheGaps(s: Settings)
    ensures Defaulted(s).stateFile != ""
    ensures s.deviceID != "" ==> Defaulted(s).clientID != ""
    ensures var p := Defaulted(s).prefix; p != "" ==> p[0] != '/' && p[|p| - 1] != '/'
  {
    TrimIsTrimmed(OrElse(s.prefix, DEFAULT_PREFIX), '/');
  }

  // ---------- what should be on the broker ----------

  datatype Publication = Publication(entityID: string, topic: string, payload: string)

  function TopicOf(s: Settings, e: Entity): string {
    DiscoveryTopic(s.prefix, e.kind, s.deviceID, e.id)
  }

  function DesiredPublications(s: Settings): seq<Publication> {
    if !s.DiscoveryEnabled() then []
    else
      seq(|s.entities|, i requires 0 <= i < |s.entities| =>
        Publication(s.entities[i].id, TopicOf(s, s.entities[i]), s.entities[i].body))
  }

  function DesiredTopics(s: Settings): (topics: seq<string>)
    ensures |topics| == |DesiredPublications(s)|
    ensures forall i :: 0 <= i < |topics| ==> topics[i] == DesiredPublications(s)[i].topic
  {
    seq(|DesiredPublications(s)|, i requires 0 <= i < |DesiredPublications(s)| =>
      DesiredPublications(s)[i].topic)
  }

  /** Distinct entities publish to distinct topics, every one of them owned by the device. */
  lemma DesiredTopicsAreOwned(s: Settings)
    requires Accepted(s)
    ensures Distinct(DesiredTopics(s))
    ensures forall t :: t in DesiredTopics(s) ==> OwnedDiscoveryTopic(t, s.deviceID)
  {
    var topics := DesiredTopics(s);
    forall i | 0 <= i < |topics| ensures OwnedDiscoveryTopic(topics[i], s.deviceID) {
      var e := s.entities[i];
      assert e in s.entities;
      ParserAcceptsPrinter(s.prefix, e.kind, s.deviceID, e.id, s.deviceID);
    }
    forall i, j | 0 <= i < j < |topics| ensures topics[i] != topics[j] {
      var e, f := s.entities[i], s.entities[j];
      assert e in s.entities && f in s.entities;
      if topics[i] == topics[j] {
        PrinterInjective(s.prefix, e.kind, s.deviceID, e.id, s.prefix, f.kind, s.deviceID, f.id);
      }
    }
  }
}
