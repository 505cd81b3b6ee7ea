/** The in-process broker of `src/kafka/memory.py`: append-only logs, groups with committed
    offsets, and sources that hold an assignment and read positions. A `_Topic` and a `_Group`
    are only ever reached through the broker's dictionaries, so they are values stored there. */
module Broker {
  import opened Prelude
  import opened Records
  import opened Assignment
  import opened Groups
  import opened GroupRuns

  /** Append-only logs, and the round-robin cursor for records without a key. */
  datatype Topic = Topic(logs: seq<seq<Record>>, cursor: nat)

  datatype ConsumerError = NotStarted | NotAssigned(partition: Partition) | BadLimit | BadRecord

  function NewTopic(partitions: nat): Topic {
    Topic(seq(partitions, _ => []), 0)
  }

  function CountIn(topics: map<string, Topic>, dflt: nat, name: string): nat {
    if name in topics then |topics[name].logs| else dflt
  }

  function LogIn(topics: map<string, Topic>, p: Partition): seq<Record> {
    if p.topic in topics && p.number < |topics[p.topic].logs| then topics[p.topic].logs[p.number] else []
  }

  /** `topic()` for each of `names`: the ones nobody declared get the default count. */
  function WithTopics(topics: map<string, Topic>, dflt: nat, names: seq<string>): map<string, Topic>
    decreases |names|
  {
    if names == [] then topics
    else
      var rest := if names[0] in topics then topics else topics[names[0] := NewTopic(dflt)];
      WithTopics(rest, dflt, names[1..])
  }

  /** Declaring topics on first use changes no partition count and no log. */
  lemma {:induction false} WithTopicsKeeps(topics: map<string, Topic>, dflt: nat, names: seq<string>)
    ensures forall n :: CountIn(WithTopics(topics, dflt, names), dflt, n) == CountIn(topics, dflt, n)
    ensures forall p :: LogIn(WithTopics(topics, dflt, names), p) == LogIn(topics, p)
    ensures forall n :: n in topics || n in names <==> n in WithTopics(topics, dflt, names)
    ensures forall n :: n in topics ==> n in WithTopics(topics, dflt, names) && WithTopics(topics, dflt, names)[n] == topics[n]
    ensures forall n :: n in WithTopics(topics, dflt, names) && n !in topics ==> WithTopics(topics, dflt, names)[n] == NewTopic(dflt)
    decreases |names|
  {
    if names != [] {
      var rest := if names[0] in topics then topics else topics[names[0] := NewTopic(dflt)];
      WithTopicsKeeps(rest, dflt, names[1..]);
      assert forall n :: n in names <==> n == names[0] || n in names[1..];
    }
  }

  /** `_starting_position`. */
  function StartFrom(fromEarliest: bool, committed: map<Partition, nat>, topics: map<string, Topic>, p: Partition): nat {
    if p in committed then committed[p] else if fromEarliest then 0 else |LogIn(topics, p)|
  }

  lemma SameCountsSameShare(names: seq<string>, c: string -> nat, d: string -> nat, n: nat, i: nat)
    requires n > 0 && forall t :: c(t) == d(t)
    ensures Share(names, c, n, i) == Share(names, d, n, i)
  {
    SameCountsSameList(Sort(names), c, d);
  }

  lemma {:induction false} SameCountsSameList(names: seq<string>, c: string -> nat, d: string -> nat)
    requires forall n :: c(n) == d(n)
    ensures Concat(names, c) == Concat(names, d)
  {
    if names != [] {
      SameCountsSameList(names[1..], c, d);
    }
  }

  /** A topic has partitions, and records with one key share one of them. */
  predicate TopicValid(t: Topic, hash: string -> nat) {
    && |t.logs| >= 1
    && forall i, o :: 0 <= i < |t.logs| && 0 <= o < |t.logs[i]| && t.logs[i][o].key.Some? ==>
         i == hash(t.logs[i][o].key.value) % |t.logs|
  }

  /** `partition_for`. */
  function PartitionFor(t: Topic, hash: string -> nat, key: Option<string>): (i: nat)
    requires |t.logs| >= 1
    ensures i < |t.logs|
  {
    (if key.Some? then hash(key.value) else t.cursor) % |t.logs|
  }

  /** `append`. */
  function AppendTo(t: Topic, hash: string -> nat, record: Record): Topic
    requires |t.logs| >= 1
  {
    var i := PartitionFor(t, hash, record.key);
    Topic(t.logs[i := t.logs[i] + [record]], if record.key.Some? then t.cursor else t.cursor + 1)
  }

  lemma AppendKeepsKeys(t: Topic, hash: string -> nat, record: Record)
    requires TopicValid(t, hash)
    ensures TopicValid(AppendTo(t, hash, record), hash)
  {
  }

  lemma NextTurn(c: nat, n: nat)
    requires n > 0
    ensures (c + 1) % n == (c % n + 1) % n
  {
    Turned(n, c / n, c % n, c);
  }

  lemma Turned(n: nat, q: nat, r: nat, c: nat)
    requires r < n && c == n * q + r
    ensures (c + 1) % n == (r + 1) % n
  {
    if r + 1 == n {
      OneMore(n, q);
      Remainder(n, q + 1, 0);
      Remainder(n, 1, 0);
    } else {
      Remainder(n, q, r + 1);
      Remainder(n, 0, r + 1);
    }
  }

  lemma OneMore(n: int, q: int)
    ensures n * q + n == n * (q + 1)
  {
  }

  lemma Remainder(n: nat, k: nat, r: nat)
    requires r < n
    ensures (n * k + r) % n == r
  {
    var q := (n * k + r) / n;
    assert n * k + r == n * q + (n * k + r) % n;
    Difference(n, k, q);
    Bigger(n, k - q);
  }

  lemma Difference(n: int, k: int, q: int)
    ensures n * k - n * q == n * (k - q)
  {
  }

  lemma Bigger(n: int, d: int)
    requires n > 0
    ensures d >= 1 ==> n * d >= n
    ensures d <= -1 ==> n * d <= 0 - n
  {
  }

  /** Records without a key go round the partitions one after another, and only they take a turn. */
  lemma KeylessTakeTurns(t: Topic, hash: string -> nat, record: Record)
    requires |t.logs| >= 1
    ensures var turn, after := PartitionFor(t, hash, None), AppendTo(t, hash, record);
            && |after.logs| == |t.logs|
            && PartitionFor(after, hash, None) == (if record.key.None? then (turn + 1) % |t.logs| else turn)
            && (record.key.None? ==> after.logs == t.logs[turn := t.logs[turn] + [record]])
  {
    NextTurn(t.cursor, |t.logs|);
  }

  /** Where a partition is read from first: past what the group has committed, and without that at the
      start of the log or at its end as the source was told. */
  lemma StartsWhereToldTo(committed: map<Partition, nat>, topics: map<string, Topic>, p: Partition)
    ensures p in committed ==> forall earliest :: StartFrom(earliest, committed, topics, p) == committed[p]
    ensures p !in committed ==> StartFrom(true, committed, topics, p) == 0
    ensures p !in committed ==> StartFrom(false, committed, topics, p) == |LogIn(topics, p)|
  {
  }

  class InMemoryBroker {
    const dflt: nat
    /** The stable string hash keys are placed by. */
    const hash: string -> nat
    var topics: map<string, Topic>
    var committed: map<string, map<Partition, nat>>
    var members: map<string, seq<InMemoryMessageSource>>

    constructor (dflt: nat, hash: string -> nat)
      requires dflt >= 1
      ensures Valid() && topics == map[] && committed == map[] && members == map[]
      ensures this.dflt == dflt && this.hash == hash
    {
      this.dflt, this.hash := dflt, hash;
      topics, committed, members := map[], map[], map[];
    }

    function Counts(): string -> nat
      reads this
    {
      var current, d := topics, dflt;
      (name: string) => CountIn(current, d, name)
    }

    function Committed(group: string): map<Partition, nat>
      reads this
    {
      if group in committed then committed[group] else map[]
    }

    function Members(group: string): seq<InMemoryMessageSource>
      reads this
    {
      if group in members then members[group] else []
    }

    predicate LogsValid()
      reads this
    {
      dflt >= 1 && forall name :: name in topics ==> TopicValid(topics[name], hash)
    }

    /** A group's members are the started sources that name it, each once. */
    ghost predicate Valid()
      reads this, set g, s | g in members && s in members[g] :: s
    {
      && LogsValid()
      && forall g :: g in members ==>
           && Distinct(members[g])
           && forall s :: s in members[g] ==> s.broker == this && s.groupId == g && s.started
    }

    /** `topic(name)`: declared topics stay as they are, unknown ones appear. */
    method DeclareTopics(names: seq<string>)
      requires LogsValid()
      modifies this`topics
      ensures LogsValid() && topics == WithTopics(old(topics), dflt, names)
    {
      for k := 0 to |names|
        invariant WithTopics(topics, dflt, names[k..]) == WithTopics(old(topics), dflt, names)
        invariant LogsValid()
      {
        assert names[k..][1..] == names[k + 1..];
        if names[k] !in topics {
          topics := topics[names[k] := NewTopic(dflt)];
        }
      }
      assert names[|names|..] == [];
    }

    /** `create_topic`, false for the `ValueError`s. */
    method CreateTopic(name: string, partitions: nat) returns (created: bool)
      requires LogsValid()
      modifies this`topics
      ensures LogsValid()
      ensures created <==> name !in old(topics) && partitions >= 1
      ensures topics == if created then old(topics)[name := NewTopic(partitions)] else old(topics)
    {
      created := name !in topics && partitions >= 1;
      if created {
        topics := topics[name := NewTopic(partitions)];
      }
    }

    /** `publish`: exactly one log grows, by exactly this record, at its end. */
    method Publish(topic: string, record: Record, started: bool) returns (r: Result<(Partition, nat), ConsumerError>)
      requires LogsValid()
      modifies this`topics
      ensures LogsValid()
      ensures r.Ok? <==> started && Publishable(topic, record)
      ensures r.Err? ==> topics == old(topics)
      ensures r.Ok? ==>
                && r.value.0.topic == topic && r.value.0.number < Counts()(topic)
                && r.value.1 == |LogIn(old(topics), r.value.0)|
                && LogIn(topics, r.value.0) == LogIn(old(topics), r.value.0) + [record]
                && (record.key.Some? ==> r.value.0.number == hash(record.key.value) % Counts()(topic))
                && forall q :: q != r.value.0 ==> LogIn(topics, q) == LogIn(old(topics), q)
      ensures forall n :: Counts()(n) == old(Counts())(n)
    {
      if !started {
        return Err(NotStarted);
      }
      if !Publishable(topic, record) {
        return Err(BadRecord);
      }
      if topic !in topics {
        topics := topics[topic := NewTopic(dflt)];
      }
      var t := topics[topic];
      AppendKeepsKeys(t, hash, record);
      var index := PartitionFor(t, hash, record.key);
      r := Ok((Partition(topic, index), |t.logs[index]|));
      topics := topics[topic := AppendTo(t, hash, record)];
    }
  }

  class InMemoryMessageSource {
    const broker: InMemoryBroker
    const topics: seq<string>
    const groupId: string
    const fromEarliest: bool
    var started: bool
    var assignment: seq<Partition>
    var positions: map<Partition, nat>

    constructor (broker: InMemoryBroker, topics: seq<string>, groupId: string, fromEarliest: bool)
      ensures this.broker == broker && this.topics == topics && this.groupId == groupId && this.fromEarliest == fromEarliest
      ensures !started && assignment == [] && positions == map[]
    {
      this.broker, this.topics, this.groupId, this.fromEarliest := broker, topics, groupId, fromEarliest;
      started, assignment, positions := false, [], map[];
    }

    /** This source as the member the step functions speak of. */
    function View(): Member
      reads this
    {
      Member(topics, started, assignment, positions, Idle)
    }

    predicate Assigned()
      reads this
    {
      HasPositions(View())
    }

    /** The log ends a drain can see. */
    function Ends(): map<Partition, nat>
      reads this, broker
    {
      map p | p in assignment :: |LogIn(broker.topics, p)|
    }

    /** `_apply_assignment`. */
    method Apply(share: seq<Partition>)
      modifies this`assignment, this`positions
      ensures assignment == share && Assigned()
      ensures positions == map p | p in share :: StartFrom(fromEarliest, broker.Committed(groupId), broker.topics, p)
      ensures fromEarliest ==> View() == Applied(old(View()), share, broker.Committed(groupId))
    {
      assignment := share;
      positions := map p | p in share :: StartFrom(fromEarliest, broker.Committed(groupId), broker.topics, p);
    }

    /** `_drain`: what the positions say is next, in assignment order, up to `max` records. */
    method Drain(max: nat) returns (batch: seq<Message>)
      requires Assigned()
      modifies this`positions
      ensures var d := Groups.Drain(assignment, Drained(old(positions), []), Ends(), max);
              positions == d.positions && Grouped(batch) == d.queues
      ensures Consecutive(batch) && |batch| <= max
      ensures FromLogs(broker.topics, batch)
      ensures Assigned()
    {
      hide AddRun, Grouped, Consecutive, Groups.Drain, FromLogs, QueuesEndAtPositions;
      ghost var ends := Ends();
      ghost var all := Groups.Drain(assignment, Drained(positions, []), ends, max);
      batch := [];
      EmptyBatch(broker.topics);
      var k := 0;
      assert assignment[0..] == assignment;
      while k < |assignment| && |batch| < max
        invariant k <= |assignment| && |batch| <= max
        invariant positions.Keys == old(positions).Keys
        invariant Groups.Drain(assignment[k..], Drained(positions, Grouped(batch)), ends, max - |batch|) == all
        invariant Consecutive(batch) && FromLogs(broker.topics, batch)
        invariant QueuesEndAtPositions(Grouped(batch), positions)
      {
        var p := assignment[k];
        var at := positions[p];
        var log := LogIn(broker.topics, p);
        var n := Available(at, |log|, max - |batch|);
        var records := RecordsAt(p, log, at, n);
        DrainUnfolds(assignment[k..], Drained(positions, Grouped(batch)), ends, max - |batch|);
        assert assignment[k..][1..] == assignment[k + 1..];
        assert n > 0 ==> FromLogs(broker.topics, records) by { RecordsFromLog(broker.topics, p, at, n); }
        if n > 0 {
          ReadOn(broker.topics, batch, positions, p, records);
          positions := positions[p := at + n];
        } else {
          assert batch + records == batch;
        }
        batch := batch + records;
        k := k + 1;
      }
      DrainUnfolds(assignment[k..], Drained(positions, Grouped(batch)), ends, max - |batch|);
    }

    /** `poll`, without the wait for an append. */
    method Poll(max: int) returns (r: Result<seq<Message>, ConsumerError>)
      requires Assigned()
      modifies this`positions
      ensures Assigned()
      ensures r.Ok? <==> started && max >= 1
      ensures r.Err? ==> positions == old(positions)
      ensures r.Ok? ==>
                && (var d := Groups.Drain(assignment, Drained(old(positions), []), Ends(), max);
                    positions == d.positions && Grouped(r.value) == d.queues)
                && Consecutive(r.value) && |r.value| <= max
                && FromLogs(broker.topics, r.value)
                && FullOrExhausted(|r.value|, max, assignment, positions, broker.topics)
    {
      if !started {
        return Err(NotStarted);
      }
      if max < 1 {
        return Err(BadLimit);
      }
      hide Groups.Drain, Grouped, Consecutive, FromLogs, FullOrExhausted, LogIn;
      ghost var before, ends := View(), Ends();
      var batch := Drain(max);
      DrainIsThorough(before, broker.topics, ends, max, batch);
      r := Ok(batch);
    }

    /** `commit`: stops at the first partition that is not this member's; what it stored before
        that stays. */
    method Commit(offsets: Offsets) returns (r: Option<ConsumerError>)
      modifies broker`committed
      ensures r.None? <==> started && forall i :: 0 <= i < |offsets| ==> offsets[i].0 in assignment
      ensures broker.Committed(groupId) ==
              if started then CommitAll(old(broker.Committed(groupId)), assignment, offsets) else old(broker.Committed(groupId))
      ensures forall g :: g != groupId ==> broker.Committed(g) == old(broker.Committed(g))
    {
      if !started {
        return Some(NotStarted);
      }
      var current: map<Partition, nat> := broker.Committed(groupId);
      var k := 0;
      assert offsets[0..] == offsets;
      while k < |offsets|
        invariant k <= |offsets|
        invariant forall i :: 0 <= i < k ==> offsets[i].0 in assignment
        invariant CommitAll(current, assignment, offsets[k..]) == CommitAll(old(broker.Committed(groupId)), assignment, offsets)
      {
        assert offsets[k..][0] == offsets[k] && offsets[k..][1..] == offsets[k + 1..];
        if offsets[k].0 !in assignment {
          broker.committed := broker.committed[groupId := current];
          return Some(NotAssigned(offsets[k].0));
        }
        current := current[offsets[k].0 := offsets[k].1];
        k := k + 1;
      }
      broker.committed := broker.committed[groupId := current];
      r := None;
    }

    /** `seek`. */
    method Seek(p: Partition, offset: nat) returns (r: Option<ConsumerError>)
      requires Assigned()
      modifies this`positions
      ensures Assigned()
      ensures r.None? <==> p in assignment
      ensures View() == Sought(old(View()), p, offset)
    {
      if p !in assignment {
        return Some(NotAssigned(p));
      }
      positions := positions[p := offset];
      r := None;
    }

    /** `start`: join the group and redistribute its partitions. Idempotent. */
    method Start()
      requires broker.Valid() && (started <==> this in broker.Members(groupId))
      modifies this, broker, broker.Members(groupId)
      ensures broker.Valid() && started
      ensures old(started) ==> broker.members == old(broker.members) && assignment == old(assignment) && positions == old(positions)
      ensures !old(started) ==>
                && broker.Members(groupId) == old(broker.Members(groupId)) + [this]
                && FairlyDealt(broker, groupId, old(broker.Counts()), old(broker.topics))
      ensures broker.committed == old(broker.committed)
      ensures forall p :: LogIn(broker.topics, p) == old(LogIn(broker.topics, p))
    {
      if started {
        return;
      }
      started := true;
      broker.members := broker.members[groupId := broker.Members(groupId) + [this]];
      assert broker.Valid();
      Rebalance(broker, groupId);
    }

    /** `stop`: leave the group, giving its partitions to whoever is left. Idempotent. */
    method Stop()
      requires broker.Valid() && (started <==> this in broker.Members(groupId))
      modifies this, broker, broker.Members(groupId)
      ensures broker.Valid() && !started && this !in broker.Members(groupId)
      ensures old(started) ==> assignment == [] && positions == map[] && FairlyDealt(broker, groupId, old(broker.Counts()), old(broker.topics))
      ensures !old(started) ==> broker.members == old(broker.members) && assignment == old(assignment) && positions == old(positions)
      ensures old(started) ==>
                exists i :: 0 <= i < |old(broker.Members(groupId))| && old(broker.Members(groupId))[i] == this
                            && broker.Members(groupId) == old(broker.Members(groupId))[..i] + old(broker.Members(groupId))[i + 1..]
      ensures broker.committed == old(broker.committed)
      ensures forall p :: LogIn(broker.topics, p) == old(LogIn(broker.topics, p))
    {
      if !started {
        return;
      }
      started := false;
      assignment, positions := [], map[];
      var current := broker.members[groupId];
      var i: nat :| i < |current| && current[i] == this;
      var left := current[..i] + current[i + 1..];
      RemovedOne(current, i);
      broker.members := broker.members[groupId := left];
      assert broker.Valid();
      Rebalance(broker, groupId);
    }
  }

  lemma RemovedOne<T>(s: seq<T>, i: nat)
    requires i < |s| && Distinct(s)
    ensures Distinct(s[..i] + s[i + 1..])
    ensures forall x :: x in s[..i] + s[i + 1..] <==> x in s && x != s[i]
  {
    var left := s[..i] + s[i + 1..];
    assert forall j :: 0 <= j < |left| ==> left[j] == if j < i then s[j] else s[j + 1];
    assert s == s[..i] + [s[i]] + s[i + 1..];
  }

  /** `s` holds the `i`-th of `n` shares and reads each partition from where the group's commits,
      or else its reset rule, say. */
  ghost predicate Holds(s: InMemoryMessageSource, counts: string -> nat, n: nat, i: nat,
                        committed: map<Partition, nat>, topics: map<string, Topic>)
    requires n > 0
    reads s
  {
    && s.assignment == Share(s.topics, counts, n, i)
    && s.positions == map p | p in s.assignment :: StartFrom(s.fromEarliest, committed, topics, p)
  }

  /** For a member that reads from earliest this is the step function's assignment. */
  lemma HeldIsApplied(s: InMemoryMessageSource, counts: string -> nat, n: nat, i: nat,
                      committed: map<Partition, nat>, topics: map<string, Topic>)
    requires n > 0 && s.fromEarliest && Holds(s, counts, n, i, committed, topics)
    ensures s.View() == Applied(s.View(), Share(s.topics, counts, n, i), committed)
  {
    hide Share;
    assert forall p :: p in s.assignment ==> StartFrom(true, committed, topics, p) == StartAt(committed, p);
  }

  /** The group's partitions are dealt out over its members. */
  ghost predicate FairlyDealt(broker: InMemoryBroker, group: string, counts: string -> nat, topics: map<string, Topic>)
    reads broker, broker.Members(group)
  {
    var all := broker.Members(group);
    forall i :: 0 <= i < |all| ==> Holds(all[i], counts, |all|, i, broker.Committed(group), topics)
  }

  /** `_rebalance`. */
  method Rebalance(broker: InMemoryBroker, group: string)
    requires broker.Valid()
    modifies broker`topics, broker.Members(group)
    ensures broker.Valid() && broker.members == old(broker.members)
    ensures FairlyDealt(broker, group, old(broker.Counts()), old(broker.topics))
    ensures forall p :: LogIn(broker.topics, p) == old(LogIn(broker.topics, p))
    ensures forall s :: s in broker.Members(group) ==> s.started == old(s.started)
  {
    hide Share, Sort, WithTopics, LogIn, TopicValid;
    var all := broker.Members(group);
    ghost var counts, before := broker.Counts(), broker.topics;
    for i := 0 to |all|
      invariant broker.Valid() && broker.members == old(broker.members)
      invariant forall n :: CountIn(broker.topics, broker.dflt, n) == counts(n)
      invariant forall p :: LogIn(broker.topics, p) == LogIn(before, p)
      invariant forall j :: 0 <= j < i ==> Holds(all[j], counts, |all|, j, broker.Committed(group), before)
    {
      WithTopicsKeeps(broker.topics, broker.dflt, Sort(all[i].topics));
      broker.DeclareTopics(Sort(all[i].topics));
      SameCountsSameShare(all[i].topics, broker.Counts(), counts, |all|, i);
      all[i].Apply(Share(all[i].topics, broker.Counts(), |all|, i));
    }
  }

  // Grouping a batch.

  /** `read`: `n` records on from `at`. */
  function RecordsAt(p: Partition, log: seq<Record>, at: nat, n: nat): seq<Message>
    requires n > 0 ==> at + n <= |log|
  {
    seq(n, i requires 0 <= i < n => Message(p, at + i, log[at + i]))
  }

  lemma RecordsFromLog(topics: map<string, Topic>, p: Partition, at: nat, n: nat)
    requires n > 0 ==> at + n <= |LogIn(topics, p)|
    ensures FromLogs(topics, RecordsAt(p, LogIn(topics, p), at, n))
  {
  }

  /** Every message is the record its log holds at that offset. */
  predicate FromLogs(topics: map<string, Topic>, batch: seq<Message>) {
    forall k :: 0 <= k < |batch| ==>
      var log := LogIn(topics, batch[k].partition);
      batch[k].offset < |log| && batch[k].record == log[batch[k].offset]
  }

  lemma FromLogsAppend(topics: map<string, Topic>, a: seq<Message>, b: seq<Message>)
    requires FromLogs(topics, a) && FromLogs(topics, b)
    ensures FromLogs(topics, a + b)
  {
  }

  lemma EmptyBatch(topics: map<string, Topic>)
    ensures Grouped([]) == [] && Consecutive([]) && FromLogs(topics, [])
    ensures forall positions :: QueuesEndAtPositions([], positions)
  {
  }

  lemma DrainUnfolds(rest: seq<Partition>, d: Drained, ends: map<Partition, nat>, room: nat)
    requires forall p :: p in rest ==> p in d.positions
    ensures rest == [] || room == 0 ==> Groups.Drain(rest, d, ends, room) == d
    ensures rest != [] && room > 0 ==>
              var p := rest[0];
              var at := d.positions[p];
              var n := Available(at, EndOf(ends, p), room);
              Groups.Drain(rest, d, ends, room) ==
              if n == 0 then Groups.Drain(rest[1..], d, ends, room)
              else
                assert forall x :: x in rest[1..] ==> x in d.positions[p := at + n];
                Groups.Drain(rest[1..], Drained(d.positions[p := at + n], AddRun(d.queues, p, at, at + n)), ends, room - n)
  {
  }

  /** The runs `consume_once` groups a batch into, in order of first appearance. */
  function Grouped(batch: seq<Message>): seq<Queue> {
    if batch == [] then []
    else
      var m := batch[|batch| - 1];
      AddRun(Grouped(batch[..|batch| - 1]), m.partition, m.offset, m.offset + 1)
  }

  /** Each message follows on from what its partition's run already holds. */
  predicate Follows(queues: seq<Queue>, m: Message) {
    forall i :: 0 <= i < |queues| && queues[i].partition == m.partition ==> queues[i].end == m.offset
  }

  predicate Consecutive(batch: seq<Message>) {
    forall k :: 0 <= k < |batch| ==> Follows(Grouped(batch[..k]), batch[k])
  }

  predicate QueuesEndAtPositions(queues: seq<Queue>, positions: map<Partition, nat>) {
    forall i :: 0 <= i < |queues| ==> queues[i].partition in positions && queues[i].end == positions[queues[i].partition]
  }

  lemma {:induction false} AddRunTwice(queues: seq<Queue>, p: Partition, a: nat, b: nat, c: nat)
    ensures AddRun(AddRun(queues, p, a, b), p, b, c) == AddRun(queues, p, a, c)
  {
    if queues != [] && queues[0].partition != p {
      AddRunTwice(queues[1..], p, a, b, c);
      assert AddRun(queues, p, a, b)[1..] == AddRun(queues[1..], p, a, b);
    } else if queues != [] {
      assert AddRun(queues, p, a, b)[1..] == queues[1..];
    }
  }

  lemma AddRunDistinct(queues: seq<Queue>, p: Partition, a: nat, b: nat)
    requires DistinctQueues(queues)
    ensures DistinctQueues(AddRun(queues, p, a, b))
    ensures forall i :: 0 <= i < |AddRun(queues, p, a, b)| ==>
              if AddRun(queues, p, a, b)[i].partition == p then AddRun(queues, p, a, b)[i].end == b
              else i < |queues| && AddRun(queues, p, a, b)[i] == queues[i]
  {
    hide AddRun;
    if HasQueue(queues, p) {
      var i :| 0 <= i < |queues| && queues[i].partition == p;
      AddRunExtends(queues, p, a, b, i);
    } else {
      AddRunAppends(queues, p, a, b);
    }
  }

  lemma {:induction false} GroupedDistinct(batch: seq<Message>)
    ensures DistinctQueues(Grouped(batch))
  {
    if batch != [] {
      var m := batch[|batch| - 1];
      GroupedDistinct(batch[..|batch| - 1]);
      AddRunDistinct(Grouped(batch[..|batch| - 1]), m.partition, m.offset, m.offset + 1);
    }
  }

  lemma GroupedAppend(batch: seq<Message>, m: Message)
    ensures Grouped(batch + [m]) == AddRun(Grouped(batch), m.partition, m.offset, m.offset + 1)
  {
    assert (batch + [m])[..|batch|] == batch;
  }

  lemma {:induction false} BatchTotal(batch: seq<Message>)
    requires Consecutive(batch)
    ensures Total(Grouped(batch)) == |batch|
  {
    hide AddRun, Total;
    if batch == [] {
      NothingTotal();
    } else {
      var n := |batch| - 1;
      forall k | 0 <= k < n ensures Follows(Grouped(batch[..n][..k]), batch[..n][k]) {
        assert batch[..n][..k] == batch[..k];
      }
      BatchTotal(batch[..n]);
      AddRunTotal(Grouped(batch[..n]), batch[n].partition, batch[n].offset, batch[n].offset + 1);
    }
  }

  lemma NothingTotal()
    ensures Total([]) == 0
  {
  }

  /** Either the batch is full or nothing assigned is left unread. */
  predicate FullOrExhausted(size: nat, max: nat, assignment: seq<Partition>, positions: map<Partition, nat>, topics: map<string, Topic>) {
    size == max || forall p :: p in assignment ==> p in positions && positions[p] >= |LogIn(topics, p)|
  }

  lemma DrainIsThorough(mem: Member, topics: map<string, Topic>, ends: map<Partition, nat>, max: nat, batch: seq<Message>)
    requires HasPositions(mem) && Consecutive(batch)
    requires forall p :: p in mem.assignment ==> EndOf(ends, p) == |LogIn(topics, p)|
    requires Grouped(batch) == Groups.Drain(mem.assignment, Drained(mem.positions, []), ends, max).queues
    ensures FullOrExhausted(|batch|, max, mem.assignment, Groups.Drain(mem.assignment, Drained(mem.positions, []), ends, max).positions, topics)
  {
    hide Groups.Drain, LogIn, Grouped, Consecutive;
    BatchTotal(batch);
    NothingTotal();
    DrainFills(mem.assignment, mem.positions, Drained(mem.positions, []), ends, max);
  }

  lemma ConsecutiveAppend(batch: seq<Message>, m: Message)
    requires Consecutive(batch) && Follows(Grouped(batch), m)
    ensures Consecutive(batch + [m])
  {
    hide Follows, Grouped;
    var all := batch + [m];
    forall k | 0 <= k < |all| ensures Follows(Grouped(all[..k]), all[k]) {
      assert all[..k] == batch[..k];
      assert batch[..|batch|] == batch;
    }
  }

  /** Reading `records` on from `at` grows one run of the batch, in line. */
  lemma {:induction false} GroupedRun(batch: seq<Message>, p: Partition, at: nat, records: seq<Message>)
    requires Consecutive(batch) && records != []
    requires forall i :: 0 <= i < |records| ==> records[i].partition == p && records[i].offset == at + i
    requires Follows(Grouped(batch), records[0])
    ensures Grouped(batch + records) == AddRun(Grouped(batch), p, at, at + |records|)
    ensures Consecutive(batch + records)
    decreases |records|
  {
    hide AddRun, Follows, Grouped, Consecutive;
    var n := |records| - 1;
    var front := batch + records[..n];
    assert batch + records == front + [records[n]];
    if n == 0 {
      assert front == batch;
    } else {
      GroupedRun(batch, p, at, records[..n]);
      GroupedDistinct(batch);
      AddRunTwice(Grouped(batch), p, at, at + n, at + n + 1);
      FollowsRun(Grouped(batch), p, at, records[n]);
    }
    GroupedAppend(front, records[n]);
    ConsecutiveAppend(front, records[n]);
  }

  /** One turn of the drain loop. */
  lemma ReadOn(topics: map<string, Topic>, batch: seq<Message>, positions: map<Partition, nat>, p: Partition, records: seq<Message>)
    requires Consecutive(batch) && FromLogs(topics, batch) && QueuesEndAtPositions(Grouped(batch), positions)
    requires p in positions && records != [] && FromLogs(topics, records)
    requires forall i :: 0 <= i < |records| ==> records[i].partition == p && records[i].offset == positions[p] + i
    ensures var to := positions[p] + |records|;
            && Grouped(batch + records) == AddRun(Grouped(batch), p, positions[p], to)
            && Consecutive(batch + records) && FromLogs(topics, batch + records)
            && QueuesEndAtPositions(Grouped(batch + records), positions[p := to])
  {
    hide AddRun, Grouped, Consecutive, FromLogs;
    GroupedRun(batch, p, positions[p], records);
    GroupedDistinct(batch);
    AddRunDistinct(Grouped(batch), p, positions[p], positions[p] + |records|);
    FromLogsAppend(topics, batch, records);
  }

  lemma FollowsRun(queues: seq<Queue>, p: Partition, at: nat, m: Message)
    requires DistinctQueues(queues) && m.partition == p
    ensures Follows(AddRun(queues, p, at, m.offset), m)
  {
    hide AddRun;
    AddRunDistinct(queues, p, at, m.offset);
  }
}
