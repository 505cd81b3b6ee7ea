/** The poll-handle-commit cycle of `src/kafka/runner.py`. */
module Runner {
  import opened Prelude
  import opened Records
  import opened Groups
  import opened GroupRuns
  import opened SoleMember
  import opened Broker

  /** What one record's handler did. */
  datatype Outcome = Done | Failed | Deferred(delay: real)

  /** `ConsumeResult`, and the runner's `_failures`, as the loop accumulates them. */
  datatype Tally = Tally(
    polled: nat,
    delivered: nat,
    failed: nat,
    deferred: nat,
    retryDelay: real,
    deferDelay: real,
    failures: map<Partition, nat>)

  function Count(t: Tally, p: Partition, outcome: Outcome, backoff: nat -> real): (t': Tally)
    ensures t'.polled == t.polled
  {
    match outcome
    case Done => t.(delivered := t.delivered + 1, failures := t.failures - {p})
    case Deferred(delay) =>
      var soonest := if t.deferDelay == 0.0 || delay < t.deferDelay then delay else t.deferDelay;
      t.(deferred := t.deferred + 1, deferDelay := soonest)
    case Failed =>
      var attempts := (if p in t.failures then t.failures[p] else 0) + 1;
      var longest := if backoff(attempts) > t.retryDelay then backoff(attempts) else t.retryDelay;
      t.(failed := t.failed + 1, retryDelay := longest, failures := t.failures[p := attempts])
  }

  function Weight(todo: seq<Queue>): nat {
    if todo == [] then 0
    else (if todo[0].next < todo[0].end then todo[0].end - todo[0].next else 0) + 1 + Weight(todo[1..])
  }

  type Verdict = (Partition, nat) -> Outcome

  /** The steps of a batch from where `mem` is to its end: a return or a halt for each record in
      turn, as the group's step functions take them. */
  function Settle(mem: Member, t: Tally, v: Verdict, backoff: nat -> real): (end: (Member, Tally))
    requires mem.phase.Busy?
    ensures end.0.phase.Busy? && end.0.phase.todo == []
    ensures end.0.started == mem.started && end.0.assignment == mem.assignment
    decreases Weight(mem.phase.todo)
  {
    if mem.phase.todo == [] then (mem, t)
    else
      var q := mem.phase.todo[0];
      var outcome := v(q.partition, q.next);
      PopShrinks(mem.phase.todo);
      Settle(if outcome.Done? then Succeeded(mem) else Halted(mem), Count(t, q.partition, outcome, backoff), v, backoff)
  }

  lemma SettleUnfolds(mem: Member, t: Tally, v: Verdict, backoff: nat -> real)
    requires mem.phase.Busy? && mem.phase.todo != []
    ensures var q := mem.phase.todo[0];
            var outcome := v(q.partition, q.next);
            Settle(mem, t, v, backoff) ==
            Settle(if outcome.Done? then Succeeded(mem) else Halted(mem), Count(t, q.partition, outcome, backoff), v, backoff)
  {
  }

  lemma PopShrinks(todo: seq<Queue>)
    requires todo != []
    ensures Weight(Pop(todo)) < Weight(todo) && Weight(todo[1..]) < Weight(todo)
  {
    if todo[0].next + 1 < todo[0].end {
      assert Pop(todo)[1..] == todo[1..];
    }
  }

  /** The first offset the handler would not get past, or `end`. */
  function StopAt(v: Verdict, p: Partition, from: nat, end: nat): (o: nat)
    ensures o >= from && (from <= end ==> o <= end)
    ensures forall k :: from <= k < o ==> v(p, k).Done?
    ensures o < end ==> !v(p, o).Done?
    decreases end - from
  {
    if from >= end || !v(p, from).Done? then from else StopAt(v, p, from + 1, end)
  }

  predicate Runs(todo: seq<Queue>, assignment: seq<Partition>) {
    && DistinctQueues(todo)
    && forall q :: q in todo ==> q.next < q.end && q.partition in assignment
  }

  /** What a cycle leaves `mem` with for partition `x`: its batch is handled in order up to the
      first record that is not done, that is where it commits and where it reads on, and what
      happens on one partition does not touch another. */
  predicate StopsAtFirst(mem: Member, end: Member, v: Verdict, x: Partition)
    requires mem.phase.Busy? && end.phase.Busy?
  {
    && (!HasQueue(mem.phase.todo, x) ==>
          && Lookup(end.phase.commits, x) == Lookup(mem.phase.commits, x)
          && (x in end.positions <==> x in mem.positions)
          && (x in mem.positions ==> end.positions[x] == mem.positions[x]))
    && (forall q :: q in mem.phase.todo && q.partition == x && x in mem.positions ==>
          var stop := StopAt(v, x, q.next, q.end);
          && Lookup(end.phase.commits, x) == (if stop > q.next then Some(stop) else Lookup(mem.phase.commits, x))
          && x in end.positions
          && end.positions[x] == if stop < q.end then stop else mem.positions[x])
  }

  lemma {:induction false} SettleStopsAtFirst(mem: Member, t: Tally, v: Verdict, backoff: nat -> real, x: Partition)
    requires mem.phase.Busy? && Runs(mem.phase.todo, mem.assignment)
    ensures StopsAtFirst(mem, Settle(mem, t, v, backoff).0, v, x)
    decreases Weight(mem.phase.todo)
  {
    hide Count, SetOffset, Weight, StopsAtFirst, Runs, Pop;
    var todo := mem.phase.todo;
    if todo == [] {
      NothingLeft(mem, v, x);
    } else {
      var q := todo[0];
      var outcome := v(q.partition, q.next);
      var end := Settle(mem, t, v, backoff).0;
      PopShrinks(todo);
      QueueGone(todo, mem.assignment, x);
      if outcome.Done? {
        SettleStopsAtFirst(Succeeded(mem), Count(t, q.partition, outcome, backoff), v, backoff, x);
        ReturnThenStops(mem, end, v, x);
      } else {
        SettleStopsAtFirst(Halted(mem), Count(t, q.partition, outcome, backoff), v, backoff, x);
        HaltThenStops(mem, end, v, x);
      }
    }
  }

  lemma NothingLeft(mem: Member, v: Verdict, x: Partition)
    requires mem.phase.Busy? && mem.phase.todo == []
    ensures StopsAtFirst(mem, mem, v, x)
  {
  }

  lemma ReturnThenStops(mem: Member, end: Member, v: Verdict, x: Partition)
    requires mem.phase.Busy? && end.phase.Busy? && mem.phase.todo != [] && Runs(mem.phase.todo, mem.assignment)
    requires v(mem.phase.todo[0].partition, mem.phase.todo[0].next).Done?
    requires StopsAtFirst(Succeeded(mem), end, v, x)
    ensures StopsAtFirst(mem, end, v, x)
  {
    hide SetOffset, Lookup, Runs;
    var todo := mem.phase.todo;
    var q := todo[0];
    QueueGone(todo, mem.assignment, x);
    LookupSet(mem.phase.commits, q.partition, q.next + 1, x);
    FirstRuns(todo, mem.assignment);
    if x == q.partition && q.next + 1 < q.end {
      assert Pop(todo)[0] in Pop(todo);
      assert HasQueue(Pop(todo), x);
    }
  }

  lemma FirstRuns(todo: seq<Queue>, assignment: seq<Partition>)
    requires Runs(todo, assignment) && todo != []
    ensures todo[0].next < todo[0].end && todo[0].partition in assignment
  {
    assert todo[0] in todo;
  }

  lemma HaltThenStops(mem: Member, end: Member, v: Verdict, x: Partition)
    requires mem.phase.Busy? && end.phase.Busy? && mem.phase.todo != [] && Runs(mem.phase.todo, mem.assignment)
    requires !v(mem.phase.todo[0].partition, mem.phase.todo[0].next).Done?
    requires StopsAtFirst(Halted(mem), end, v, x)
    ensures StopsAtFirst(mem, end, v, x)
  {
    hide Lookup, Runs;
    FirstRuns(mem.phase.todo, mem.assignment);
    QueueGone(mem.phase.todo, mem.assignment, x);
  }

  lemma QueueGone(todo: seq<Queue>, assignment: seq<Partition>, x: Partition)
    requires todo != [] && Runs(todo, assignment)
    ensures Runs(Pop(todo), assignment) && Runs(todo[1..], assignment)
    ensures x == todo[0].partition ==> !HasQueue(todo[1..], x) && forall q :: q in todo && q.partition == x ==> q == todo[0]
    ensures x != todo[0].partition ==> (HasQueue(todo, x) <==> HasQueue(todo[1..], x)) && (HasQueue(todo, x) <==> HasQueue(Pop(todo), x))
    ensures x != todo[0].partition ==> forall q :: q in todo && q.partition == x ==> q in todo[1..] && q in Pop(todo)
  {
    assert forall i :: 1 <= i < |todo| ==> todo[i] == todo[1..][i - 1];
    if todo[0].next + 1 < todo[0].end {
      assert forall i :: 1 <= i < |todo| ==> todo[i] == Pop(todo)[i];
    }
  }

  lemma {:induction false} SettleAccounted(mem: Member, t: Tally, v: Verdict, backoff: nat -> real, committed: map<Partition, nat>)
    requires mem.phase.Busy? && Accounted(mem, committed)
    ensures Accounted(Settle(mem, t, v, backoff).0, committed)
    decreases Weight(mem.phase.todo)
  {
    hide Accounted, Count, SetOffset, Weight;
    var todo := mem.phase.todo;
    if todo != [] {
      var q := todo[0];
      var outcome := v(q.partition, q.next);
      PopShrinks(todo);
      if outcome.Done? {
        ReturnAccounted(mem, committed);
        SettleAccounted(Succeeded(mem), Count(t, q.partition, outcome, backoff), v, backoff, committed);
      } else {
        HaltAccounted(mem, committed);
        SettleAccounted(Halted(mem), Count(t, q.partition, outcome, backoff), v, backoff, committed);
      }
    }
  }

  /** A whole cycle keeps a sole member's positions where its committed offsets say they are. */
  lemma CycleAccounted(mem: Member, ends: map<Partition, nat>, room: nat, t: Tally, v: Verdict, backoff: nat -> real,
                       committed: map<Partition, nat>)
    requires mem.phase.Idle? && Accounted(mem, committed)
    ensures var polled := Polled(mem, ends, room);
            if polled.phase.Busy? then
              var end := Settle(polled, t, v, backoff).0;
              Accounted(end.(phase := Idle), CommitAll(committed, end.assignment, end.phase.commits))
            else Accounted(polled, committed)
  {
    hide Accounted, CommitAll, Settle, Polled;
    AccountedTracks(mem, committed);
    PollAccounted(mem, committed, ends, room);
    var polled := Polled(mem, ends, room);
    if polled.phase.Busy? {
      SettleAccounted(polled, t, v, backoff, committed);
      var end := Settle(polled, t, v, backoff).0;
      StartedWhileBusy(end, committed);
      CommitAccounted(end, committed);
    }
  }

  lemma AccountedTracks(mem: Member, committed: map<Partition, nat>)
    requires Accounted(mem, committed)
    ensures HasPositions(mem)
  {
  }

  /** What the handler says of the record a log holds. */
  function VerdictOf(handler: Message -> Outcome, topics: map<string, Topic>): Verdict {
    (p: Partition, o: nat) => if o < |LogIn(topics, p)| then handler(Message(p, o, LogIn(topics, p)[o])) else Failed
  }

  /** A batch grouped by partition, as `consume_once` holds it. */
  type Piles = seq<(Partition, seq<Message>)>

  function AddMessage(groups: Piles, m: Message): Piles {
    if groups == [] then [(m.partition, [m])]
    else if groups[0].0 == m.partition then [(m.partition, groups[0].1 + [m])] + groups[1..]
    else [groups[0]] + AddMessage(groups[1..], m)
  }

  /** One partition's records, in offset order without a gap. */
  predicate InLine(g: (Partition, seq<Message>)) {
    && g.1 != []
    && forall i :: 0 <= i < |g.1| ==> g.1[i].partition == g.0 && g.1[i].offset == g.1[0].offset + i
  }

  predicate AllInLine(groups: Piles) {
    forall i :: 0 <= i < |groups| ==> InLine(groups[i])
  }

  function QueueOf(g: (Partition, seq<Message>)): Queue
    requires InLine(g)
  {
    Queue(g.0, g.1[0].offset, g.1[0].offset + |g.1|)
  }

  function QueuesOf(groups: Piles): seq<Queue>
    requires AllInLine(groups)
  {
    seq(|groups|, i requires 0 <= i < |groups| => QueueOf(groups[i]))
  }

  lemma {:induction false} AddMessageAddsRun(groups: Piles, m: Message)
    requires AllInLine(groups) && Follows(QueuesOf(groups), m)
    ensures AllInLine(AddMessage(groups, m))
    ensures QueuesOf(AddMessage(groups, m)) == AddRun(QueuesOf(groups), m.partition, m.offset, m.offset + 1)
  {
    if groups != [] {
      assert QueuesOf(groups)[0] == QueueOf(groups[0]);
      assert QueuesOf(groups)[1..] == QueuesOf(groups[1..]);
      if groups[0].0 == m.partition {
        var grown := (m.partition, groups[0].1 + [m]);
        assert QueuesOf(groups)[0].end == m.offset;
        assert InLine(grown) && QueueOf(grown) == QueuesOf(groups)[0].(end := m.offset + 1);
      } else {
        forall i | 0 <= i < |QueuesOf(groups[1..])| && QueuesOf(groups[1..])[i].partition == m.partition
          ensures QueuesOf(groups[1..])[i].end == m.offset
        {
          assert QueuesOf(groups)[i + 1] == QueuesOf(groups[1..])[i];
        }
        AddMessageAddsRun(groups[1..], m);
      }
    } else {
      assert InLine((m.partition, [m]));
    }
  }

  /** The grouping loop. */
  method GroupUp(messages: seq<Message>, topics: map<string, Topic>) returns (groups: Piles)
    requires Consecutive(messages) && FromLogs(topics, messages)
    ensures AllInLine(groups) && QueuesOf(groups) == Grouped(messages)
    ensures forall i :: 0 <= i < |groups| ==> FromLogs(topics, groups[i].1)
  {
    hide AddMessage, AddRun, Follows, LogIn;
    groups := [];
    for k := 0 to |messages|
      invariant AllInLine(groups) && QueuesOf(groups) == Grouped(messages[..k])
      invariant forall i :: 0 <= i < |groups| ==> FromLogs(topics, groups[i].1)
    {
      AddMessageAddsRun(groups, messages[k]);
      AddMessageFromLogs(groups, messages[k], topics);
      assert messages[..k + 1][..k] == messages[..k] && messages[..k + 1][k] == messages[k];
      groups := AddMessage(groups, messages[k]);
    }
    assert messages[..|messages|] == messages;
  }

  lemma {:induction false} AddMessageFromLogs(groups: Piles, m: Message, topics: map<string, Topic>)
    requires forall i :: 0 <= i < |groups| ==> FromLogs(topics, groups[i].1)
    requires FromLogs(topics, [m])
    ensures forall i :: 0 <= i < |AddMessage(groups, m)| ==> FromLogs(topics, AddMessage(groups, m)[i].1)
  {
    if groups != [] {
      FromLogsAppend(topics, groups[0].1, [m]);
      AddMessageFromLogs(groups[1..], m, topics);
    }
  }

  class ConsumerRunner {
    const source: InMemoryMessageSource
    const maxRecords: int
    const backoff: nat -> real
    var failures: map<Partition, nat>

    constructor (source: InMemoryMessageSource, maxRecords: int, backoff: nat -> real)
      ensures this.source == source && this.maxRecords == maxRecords && this.backoff == backoff && failures == map[]
    {
      this.source, this.maxRecords, this.backoff, failures := source, maxRecords, backoff, map[];
    }

    /** `_seek_back`: the refusal for a partition that has moved on is swallowed. */
    method SeekBack(m: Message)
      requires source.Assigned()
      modifies source`positions
      ensures source.Assigned() && source.View() == Sought(old(source.View()), m.partition, m.offset)
    {
      var _ := source.Seek(m.partition, m.offset);
    }

    /** The inner loop: one partition's records, up to the first that is not done. */
    method HandlePartition(g: (Partition, seq<Message>), handler: Message -> Outcome, ghost mem: Member, t: Tally, commits: Offsets)
      returns (ghost after: Member, t': Tally, commits': Offsets)
      requires InLine(g) && FromLogs(source.broker.topics, g.1) && source.Assigned()
      requires mem.phase.Busy? && mem.phase.todo != [] && mem.phase.todo[0] == QueueOf(g)
      requires mem.phase.commits == commits && mem.(phase := Idle) == source.View()
      modifies source`positions
      ensures source.Assigned()
      ensures after.phase.Busy? && after.phase.todo == mem.phase.todo[1..]
      ensures after.phase.commits == commits' && after.(phase := Idle) == source.View()
      ensures t'.polled == t.polled
      ensures var v := VerdictOf(handler, source.broker.topics);
              Settle(after, t', v, backoff) == Settle(mem, t, v, backoff)
    {
      hide LogIn, Count, SetOffset, Settle;
      ghost var v := VerdictOf(handler, source.broker.topics);
      after, t', commits' := mem, t, commits;
      var j := 0;
      while j < |g.1|
        invariant j <= |g.1|
        invariant source.Assigned() && source.positions == old(source.positions)
        invariant after.phase.Busy? && after.(phase := Idle) == source.View() && after.phase.commits == commits'
        invariant after.phase.todo ==
                  (if j < |g.1| then [Queue(g.0, g.1[0].offset + j, g.1[0].offset + |g.1|)] else []) + mem.phase.todo[1..]
        invariant Settle(after, t', v, backoff) == Settle(mem, t, v, backoff) && t'.polled == t.polled
      {
        var record := g.1[j];
        assert after.phase.todo[1..] == mem.phase.todo[1..];
        assert v(g.0, record.offset) == handler(record);
        var outcome := handler(record);
        SettleUnfolds(after, t', v, backoff);
        t' := Count(t', g.0, outcome, backoff);
        if outcome.Done? {
          commits' := SetOffset(commits', g.0, record.NextOffset());
          after := Succeeded(after);
          j := j + 1;
        } else {
          SeekBack(record);
          after := Halted(after);
          return;
        }
      }
    }

    /** `consume_once`. */
    method ConsumeOnce(handler: Message -> Outcome) returns (r: Result<Tally, ConsumerError>)
      requires source.Assigned()
      modifies this`failures, source`positions, source.broker`committed
      ensures source.Assigned()
      ensures r.Ok? <==> source.started && maxRecords >= 1
      ensures r.Err? ==> source.positions == old(source.positions) && failures == old(failures)
                         && source.broker.Committed(source.groupId) == old(source.broker.Committed(source.groupId))
      ensures r.Ok? ==>
                var polled := Polled(old(source.View()), old(source.Ends()), maxRecords);
                var t0 := Tally(r.value.polled, 0, 0, 0, 0.0, 0.0, old(failures));
                if polled.phase.Idle? then
                  && source.View() == polled && r.value == t0 && r.value.polled == 0
                  && failures == old(failures)
                  && source.broker.Committed(source.groupId) == old(source.broker.Committed(source.groupId))
                else
                  var (end, t) := Settle(polled, t0, VerdictOf(handler, source.broker.topics), backoff);
                  && source.View() == end.(phase := Idle) && r.value == t && failures == t.failures
                  && r.value.polled == Total(polled.phase.todo)
                  && source.broker.Committed(source.groupId) ==
                     CommitAll(old(source.broker.Committed(source.groupId)), source.assignment, end.phase.commits)
    {
      hide LogIn, Count, SetOffset, Groups.Drain, Grouped, Consecutive, FromLogs, Total;
      var polled := source.Poll(maxRecords);
      if polled.Err? {
        return Err(polled.error);
      }
      var t := Tally(|polled.value|, 0, 0, 0, 0.0, 0.0, failures);
      if polled.value == [] {
        EmptyBatch(source.broker.topics);
        EmptyDrain(old(source.View()), source.Ends(), maxRecords);
        return Ok(t);
      }
      NonEmptyBatch(polled.value);
      BatchTotal(polled.value);
      var groups := GroupUp(polled.value, source.broker.topics);
      var commits: Offsets := [];
      ghost var v := VerdictOf(handler, source.broker.topics);
      ghost var start := Polled(old(source.View()), old(source.Ends()), maxRecords);
      ghost var mem := start;
      ghost var t0 := t;
      for i := 0 to |groups|
        invariant source.Assigned() && source.broker.committed == old(source.broker.committed)
        invariant mem.phase.Busy? && mem.phase.todo == QueuesOf(groups)[i..] && mem.phase.commits == commits
        invariant mem.(phase := Idle) == source.View()
        invariant Settle(mem, t, v, backoff) == Settle(start, t0, v, backoff)
        invariant t.polled == t0.polled
      {
        assert QueuesOf(groups)[i..][0] == QueueOf(groups[i]);
        assert QueuesOf(groups)[i..][1..] == QueuesOf(groups)[i + 1..];
        mem, t, commits := HandlePartition(groups[i], handler, mem, t, commits);
      }
      failures := t.failures;
      if commits != [] {
        var _ := source.Commit(commits);
      }
      r := Ok(t);
    }
  }

  lemma EmptyDrain(mem: Member, ends: map<Partition, nat>, room: nat)
    requires HasPositions(mem)
    ensures var d := Groups.Drain(mem.assignment, Drained(mem.positions, []), ends, room);
            d.queues == [] ==> d.positions == mem.positions
  {
    hide Groups.Drain;
    DrainIsABatch(mem.assignment, mem.positions, Drained(mem.positions, []), ends, room);
  }

  lemma NonEmptyBatch(batch: seq<Message>)
    requires batch != []
    ensures Grouped(batch) != []
  {
  }
}
