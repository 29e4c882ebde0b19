/** Admission of MQTT commands: retained messages are refused, and a redelivery is refused
    when its key is in a bounded cache of generation-stamped entries. */
module DuplicateCache {
  import opened Text

  const CACHE_SIZE := 256
  const GENERATIONS: nat := 0x1_0000_0000_0000_0000

  datatype Message = Message(topic: string, payload: string, retained: bool, duplicate: bool, qos: nat, id: nat)
  {
    /** The key of a packet: its topic and its packet identifier (MQTT 3.1.1, section 2.3.1). */
    function Key(): string {
      Numbered(topic, id)
    }
  }

  // ---------- what the cache stands for ----------

  /** The last CACHE_SIZE recordings. */
  function Window(history: seq<string>): seq<string> {
    if |history| <= CACHE_SIZE then history else history[|history| - CACHE_SIZE..]
  }

  lemma WindowMembers(history: seq<string>, key: string)
    ensures key in Window(history) <==>
              exists i :: 0 <= i < |history| && |history| - i <= CACHE_SIZE && history[i] == key
  {
    var w := Window(history);
    var start := |history| - |w|;
    if key in w {
      var i :| 0 <= i < |w| && w[i] == key;
      assert history[start + i] == key;
    }
    if i :| 0 <= i < |history| && |history| - i <= CACHE_SIZE && history[i] == key {
      assert w[i - start] == key;
    }
  }

  /** A delivery that counts for duplicates: not retained, and at QoS 1 or 2. */
  predicate Tracks(m: Message) {
    !m.retained && m.qos > 0
  }

  predicate IsRedelivery(history: seq<string>, m: Message) {
    Tracks(m) && m.duplicate && m.Key() in Window(history)
  }

  function Recorded(history: seq<string>, m: Message): seq<string> {
    if Tracks(m) && !IsRedelivery(history, m) then history + [m.Key()] else history
  }

  // ---------- the cache ----------

  datatype Entry = Entry(key: string, generation: nat)

  /** The generation stamped on the n-th recording; the counter is 64 bits wide and wraps. */
  function Stamp(n: nat): nat {
    n % GENERATIONS
  }

  lemma StampsDiffer(m: nat, n: nat)
    requires m < n <= m + CACHE_SIZE
    ensures Stamp(m) != Stamp(n)
  {
    var a, b := m / GENERATIONS, n / GENERATIONS;
    assert m == a * GENERATIONS + Stamp(m);
    assert n == b * GENERATIONS + Stamp(n);
    assert Stamp(n) - Stamp(m) == (n - m) - (b - a) * GENERATIONS;
    if a != b {
      assert b > a;
      assert (b - a) * GENERATIONS >= GENERATIONS;
    }
  }

  /** The queue that holds the recordings from number start on, each stamped with its number. */
  function Queue(history: seq<string>, start: nat): (order: seq<Entry>)
    requires start <= |history|
    ensures |order| == |history| - start
  {
    seq(|history| - start, i requires 0 <= i < |history| - start =>
      Entry(history[start + i], Stamp(start + i + 1)))
  }

  function WindowStart(history: seq<string>): nat {
    if |history| <= CACHE_SIZE then 0 else |history| - CACHE_SIZE
  }

  /** Each queued key with the stamp of its latest entry. */
  function Latest(order: seq<Entry>): map<string, nat> {
    if order == [] then map[]
    else
      var last := order[|order| - 1];
      Latest(order[..|order| - 1])[last.key := last.generation]
  }

  function Evicted(dedupe: map<string, nat>, oldest: Entry): map<string, nat> {
    if oldest.key in dedupe && dedupe[oldest.key] == oldest.generation then dedupe - {oldest.key} else dedupe
  }

  /** Evicting the oldest entry by its stamp forgets its key exactly when no later entry has it. */
  lemma {:induction false} EvictOldest(order: seq<Entry>)
    requires order != [] && forall i :: 0 < i < |order| ==> order[i].generation != order[0].generation
    ensures Latest(order[1..]) == Evicted(Latest(order), order[0])
  {
    var n := |order| - 1;
    if n == 0 {
      assert order[..0] == [];
      assert Latest(order) == map[order[0].key := order[0].generation];
    } else {
      EvictOldest(order[..n]);
      assert order[..n][1..] == order[1..][..n - 1];
      assert order[1..][n - 1] == order[n];
    }
  }

  lemma {:induction false} LatestKeys(order: seq<Entry>, key: string)
    ensures key in Latest(order) <==> exists i :: 0 <= i < |order| && order[i].key == key
  {
    if order != [] {
      var n := |order| - 1;
      LatestKeys(order[..n], key);
      if i :| 0 <= i < n && order[..n][i].key == key { assert order[i].key == key; }
      if i :| 0 <= i < n && order[i].key == key { assert order[..n][i].key == key; }
    }
  }

  /** The map's keys are exactly the keys among the last CACHE_SIZE recordings. */
  lemma KeysAreTheWindow(history: seq<string>, key: string)
    ensures key in Latest(Queue(history, WindowStart(history))) <==> key in Window(history)
  {
    var order := Queue(history, WindowStart(history));
    LatestKeys(order, key);
    if key in Latest(order) {
      var i :| 0 <= i < |order| && order[i].key == key;
      assert Window(history)[i] == key;
    }
    if key in Window(history) {
      var i :| 0 <= i < |Window(history)| && Window(history)[i] == key;
      assert order[i].key == key;
    }
  }

  lemma RecordOne(history: seq<string>, key: string, start: nat)
    requires start <= |history|
    ensures var e := Entry(key, Stamp(|history| + 1));
            && Queue(history + [key], start) == Queue(history, start) + [e]
            && Latest(Queue(history + [key], start)) == Latest(Queue(history, start))[key := e.generation]
  {
    var e, order := Entry(key, Stamp(|history| + 1)), Queue(history, start);
    assert Queue(history + [key], start) == order + [e];
    assert (order + [e])[..|order|] == order;
  }

  lemma EvictOne(history: seq<string>, start: nat)
    requires start < |history| <= start + CACHE_SIZE + 1
    ensures var order := Queue(history, start);
            && Queue(history, start + 1) == order[1..]
            && Latest(order[1..]) == Evicted(Latest(order), order[0])
  {
    var order := Queue(history, start);
    forall i | 0 < i < |order| ensures order[i].generation != order[0].generation {
      StampsDiffer(start + 1, start + i + 1);
    }
    EvictOldest(order);
  }

  lemma NextStamp(n: nat)
    ensures (Stamp(n) + 1) % GENERATIONS == Stamp(n + 1)
  {
  }

  class Admission {
    var accepting: bool
    var cancelled: bool
    var dedupe: map<string, nat>
    var dedupeOrder: seq<Entry>
    var dedupeSeq: nat
    ghost var history: seq<string>

    ghost predicate Valid()
      reads this
    {
      Holds(WindowStart(history))
    }

    ghost predicate Holds(start: nat)
      reads this
    {
      && start <= |history|
      && dedupeOrder == Queue(history, start)
      && dedupe == Latest(dedupeOrder)
      && dedupeSeq == Stamp(|history|)
    }

    constructor ()
      ensures Valid() && history == [] && accepting && !cancelled
    {
      accepting, cancelled := true, false;
      dedupe, dedupeOrder, dedupeSeq := map[], [], 0;
      history := [];
    }

    /** Session start: everything recorded before is forgotten. */
    method ResetDedupe()
      modifies this`dedupe, this`dedupeOrder, this`dedupeSeq, this`history
      ensures Valid() && history == []
    {
      dedupe, dedupeOrder, dedupeSeq := map[], [], 0;
      history := [];
    }

    /** Decides about one message exactly as the last 256 recordings would. */
    method AcceptMessage(message: Message) returns (ok: bool)
      requires Valid()
      modifies this`dedupe, this`dedupeOrder, this`dedupeSeq, this`history
      ensures Valid()
      ensures var open := accepting && !cancelled;
              && history == (if open then Recorded(old(history), message) else old(history))
              && (ok <==> open && !message.retained && !IsRedelivery(old(history), message))
      ensures !accepting || cancelled || message.retained ==> !ok && history == old(history)
      ensures accepting && !cancelled && !message.retained && message.qos == 0 ==> ok && history == old(history)
      ensures accepting && !cancelled && !message.retained && message.qos > 0 ==>
                var key := message.topic + ":" + Decimal(message.id);
                var seen := exists i :: 0 <= i < |old(history)| && |old(history)| - i <= 256 && old(history)[i] == key;
                && (ok <==> !(message.duplicate && seen))
                && history == if ok then old(history) + [key] else old(history)
    {
      if !accepting || cancelled || message.retained {
        return false;
      }
      if message.qos > 0 {
        var key := message.Key();
        WindowMembers(history, key);
        KeysAreTheWindow(history, key);
        var seen := key in dedupe;
        if !message.duplicate || !seen {
          Record(key);
        }
        if message.duplicate && seen {
          return false;
        }
      }
      return true;
    }

    method Record(key: string)
      requires Valid()
      modifies this`dedupe, this`dedupeOrder, this`dedupeSeq, this`history
      ensures Valid() && history == old(history) + [key]
      ensures dedupeSeq == (old(dedupeSeq) + 1) % 0x1_0000_0000_0000_0000
    {
      ghost var start: nat := WindowStart(history);
      RecordOne(history, key, start);
      NextStamp(|history|);
      dedupeSeq := (dedupeSeq + 1) % GENERATIONS;
      dedupe := dedupe[key := dedupeSeq];
      dedupeOrder := dedupeOrder + [Entry(key, dedupeSeq)];
      history := history + [key];
      assert Holds(start);
      Trim(start);
    }

    method DropOldest(ghost start: nat)
      requires Holds(start) && start < |history| <= start + CACHE_SIZE + 1
      modifies this`dedupe, this`dedupeOrder
      ensures Holds(start + 1)
    {
      EvictOne(history, start);
      var oldest := dedupeOrder[0];
      dedupeOrder := dedupeOrder[1..];
      if oldest.key in dedupe && dedupe[oldest.key] == oldest.generation {
        dedupe := dedupe - {oldest.key};
      }
    }

    /** Drops the oldest entries until the queue fits. */
    method Trim(ghost start: nat)
      requires Holds(start) && start <= WindowStart(history) <= start + 1
      modifies this`dedupe, this`dedupeOrder
      ensures Valid()
    {
      ghost var from: nat := start;
      while |dedupeOrder| > CACHE_SIZE
        invariant Holds(from) && from <= WindowStart(history) <= from + 1
        decreases |dedupeOrder|
      {
        DropOldest(from);
        from := from + 1;
      }
    }
  }
}
