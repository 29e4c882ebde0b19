/** Home Assistant discovery topics: how the daemon builds them from its configuration and
    how it recognises its own topics when it reads them back from the manifest. */
module DiscoveryTopics {
  import opened Text

  predicate IdHead(c: char) {
    'a' <= c <= 'z' || '0' <= c <= '9'
  }

  predicate IdTail(c: char) {
    IdHead(c) || c == '_' || c == '-'
  }

  /** The language of the configuration's identifier pattern ^[a-z0-9][a-z0-9_-]*$. */
  predicate MatchesIdPattern(s: string) {
    s != "" && IdHead(s[0]) && forall c :: c in s[1..] ==> IdTail(c)
  }

  /** The manifest's own hand-written scanner accepts exactly the configuration's pattern. */
  method ValidDiscoveryID(value: string) returns (ok: bool)
    ensures ok <==> MatchesIdPattern(value)
    ensures ok <==>
              && |value| > 0 && ('a' <= value[0] <= 'z' || '0' <= value[0] <= '9')
              && forall j :: 1 <= j < |value| ==>
                   'a' <= value[j] <= 'z' || '0' <= value[j] <= '9' || value[j] == '_' || value[j] == '-'
  {
    assert forall j :: 1 <= j < |value| ==> value[1..][j - 1] == value[j];
    if value == "" || ((value[0] < 'a' || value[0] > 'z') && (value[0] < '0' || value[0] > '9')) {
      return false;
    }
    for i := 1 to |value|
      invariant forall j :: 1 <= j < i ==> IdTail(value[j])
    {
      var c := value[i];
      if (c < 'a' || c > 'z') && (c < '0' || c > '9') && c != '_' && c != '-' {
        assert value[1..][i - 1] == c && c in value[1..] && !IdTail(c);
        return false;
      }
    }
    return true;
  }

  predicate Discoverable(kind: string) {
    kind == "switch" || kind == "button" || kind == "binary_sensor"
  }

  predicate HasWildcard(s: string) {
    '+' in s || '#' in s
  }

  predicate ValidPrefix(prefix: string) {
    prefix != "" && !HasWildcard(prefix)
  }

  function TopicTail(kind: string, device: string, entity: string): string {
    kind + "/" + device + "/" + entity + "/" + "config"
  }

  function DiscoveryTopic(prefix: string, kind: string, device: string, entity: string): string {
    prefix + "/" + TopicTail(kind, device, entity)
  }

  predicate OwnedDiscoveryTopic(topic: string, device: string) {
    var parts := Split(topic, '/');
    var n := |parts|;
    && n >= 5
    && parts[n - 1] == "config"
    && parts[n - 3] == device
    && MatchesIdPattern(parts[n - 2])
    && Discoverable(parts[n - 4])
    && ValidPrefix(Join(parts[..n - 4], '/'))
  }

  lemma IdsHaveNoSlash(id: string)
    requires MatchesIdPattern(id)
    ensures '/' !in id
  {
    assert id == [id[0]] + id[1..];
  }

  lemma TailParts(kind: string, device: string, entity: string)
    requires '/' !in kind && '/' !in device && '/' !in entity
    ensures Split(TopicTail(kind, device, entity), '/') == [kind, device, entity, "config"]
  {
    SplitPlain(kind, '/');
    SplitPlain(device, '/');
    SplitPlain(entity, '/');
    SplitPlain("config", '/');
    var a := kind + "/" + device;
    var b := a + "/" + entity;
    SplitConcat(kind, device, '/');
    SplitConcat(a, entity, '/');
    SplitConcat(b, "config", '/');
  }

  /** The last four components of a built topic are what it was built from. */
  lemma TopicParts(prefix: string, kind: string, device: string, entity: string)
    requires '/' !in kind && '/' !in device && '/' !in entity
    ensures Split(DiscoveryTopic(prefix, kind, device, entity), '/')
         == Split(prefix, '/') + [kind, device, entity, "config"]
  {
    TailParts(kind, device, entity);
    SplitConcat(prefix, TopicTail(kind, device, entity), '/');
  }

  /** A topic built for one device is accepted as owned by that device and by no other. */
  lemma ParserAcceptsPrinter(prefix: string, kind: string, device: string, entity: string, d: string)
    requires ValidPrefix(prefix) && Discoverable(kind)
    requires MatchesIdPattern(device) && MatchesIdPattern(entity)
    ensures OwnedDiscoveryTopic(DiscoveryTopic(prefix, kind, device, entity), d) <==> d == device
  {
    IdsHaveNoSlash(device);
    IdsHaveNoSlash(entity);
    TopicParts(prefix, kind, device, entity);
    var head := Split(prefix, '/');
    var parts := Split(DiscoveryTopic(prefix, kind, device, entity), '/');
    assert parts[..|parts| - 4] == head;
    JoinSplit(prefix, '/');
  }

  lemma JoinFour(kind: string, device: string, entity: string)
    ensures Join([kind, device, entity, "config"], '/') == TopicTail(kind, device, entity)
  {
    var last := ["config"];
    var three := [entity] + last;
    assert three[1..] == last;
    var two := [device] + three;
    assert two[1..] == three;
    var all := [kind] + two;
    assert all[1..] == two;
    assert all == [kind, device, entity, "config"];
    assert Join(three, '/') == entity + "/" + "config";
    assert Join(two, '/') == device + "/" + Join(three, '/');
    assert Join(all, '/') == kind + "/" + Join(two, '/');
  }

  /** An accepted topic is the topic built from its own components. */
  lemma OwnedTopicIsBuilt(topic: string, device: string)
    requires OwnedDiscoveryTopic(topic, device)
    ensures var parts := Split(topic, '/');
            var n := |parts|;
            topic == DiscoveryTopic(Join(parts[..n - 4], '/'), parts[n - 4], device, parts[n - 2])
  {
    var parts := Split(topic, '/');
    var n := |parts|;
    var head, tail := parts[..n - 4], [parts[n - 4], device, parts[n - 2], "config"];
    assert parts == head + tail;
    JoinSplit(topic, '/');
    JoinConcat(head, tail, '/');
    JoinFour(parts[n - 4], device, parts[n - 2]);
  }

  lemma TopicText(prefix: string, kind: string, device: string, entity: string)
    ensures DiscoveryTopic(prefix, kind, device, entity)
         == prefix + "/" + kind + "/" + device + "/" + entity + "/config"
  {
  }

  /** Only built topics are owned: the accepted language is the printer's image. */
  lemma OwnedTopicsAreTheBuiltOnes(topic: string, device: string)
    requires MatchesIdPattern(device)
    ensures OwnedDiscoveryTopic(topic, device) <==>
              exists prefix: string, kind, entity ::
                && |prefix| > 0 && '+' !in prefix && '#' !in prefix
                && kind in ["switch", "button", "binary_sensor"] && MatchesIdPattern(entity)
                && topic == prefix + "/" + kind + "/" + device + "/" + entity + "/config"
  {
    if OwnedDiscoveryTopic(topic, device) {
      OwnedTopicIsBuilt(topic, device);
      var parts := Split(topic, '/');
      var n := |parts|;
      TopicText(Join(parts[..n - 4], '/'), parts[n - 4], device, parts[n - 2]);
    }
    forall prefix: string, kind, entity
      | ValidPrefix(prefix) && kind in ["switch", "button", "binary_sensor"] && MatchesIdPattern(entity)
        && topic == prefix + "/" + kind + "/" + device + "/" + entity + "/config"
      ensures OwnedDiscoveryTopic(topic, device)
    {
      TopicText(prefix, kind, device, entity);
      ParserAcceptsPrinter(prefix, kind, device, entity, device);
    }
  }

  /** Distinct entities, kinds, devices or prefixes never share a topic. */
  lemma PrinterInjective(p1: string, k1: string, d1: string, e1: string,
                         p2: string, k2: string, d2: string, e2: string)
    requires Discoverable(k1) && MatchesIdPattern(d1) && MatchesIdPattern(e1)
    requires Discoverable(k2) && MatchesIdPattern(d2) && MatchesIdPattern(e2)
    requires DiscoveryTopic(p1, k1, d1, e1) == DiscoveryTopic(p2, k2, d2, e2)
    ensures p1 == p2 && k1 == k2 && d1 == d2 && e1 == e2
  {
    IdsHaveNoSlash(d1); IdsHaveNoSlash(e1);
    IdsHaveNoSlash(d2); IdsHaveNoSlash(e2);
    TopicParts(p1, k1, d1, e1);
    TopicParts(p2, k2, d2, e2);
    var x, y := Split(p1, '/') + [k1, d1, e1, "config"], Split(p2, '/') + [k2, d2, e2, "config"];
    assert x == y;
    assert |x| == |Split(p1, '/')| + 4 && |y| == |Split(p2, '/')| + 4;
    var n := |x|;
    assert x[n - 4] == k1 && x[n - 3] == d1 && x[n - 2] == e1;
    assert y[n - 4] == k2 && y[n - 3] == d2 && y[n - 2] == e2;
    assert x[..n - 4] == Split(p1, '/') && y[..n - 4] == Split(p2, '/');
    JoinSplit(p1, '/');
    JoinSplit(p2, '/');
  }
}
