/** What the numbers a cycle reports mean (`ConsumeResult` and `_failures` in `src/kafka/runner.py`),
    told from where each partition's batch stopped and what the handler said there. */
module CycleTally {
  import opened Records
  import opened Groups
  import opened GroupRuns
  import opened Runner

  function StopOf(q: Queue, v: Verdict): nat {
    StopAt(v, q.partition, q.next, q.end)
  }

  predicate StopsFailed(q: Queue, v: Verdict) {
    StopOf(q, v) < q.end && v(q.partition, StopOf(q, v)).Failed?
  }

  predicate StopsDeferred(q: Queue, v: Verdict) {
    StopOf(q, v) < q.end && v(q.partition, StopOf(q, v)).Deferred?
  }

  predicate MadeProgress(q: Queue, v: Verdict) {
    StopOf(q, v) > q.next
  }

  // A cycle taken a partition at a time.

  /** The tally after one partition's records. */
  function AfterQueue(t: Tally, q: Queue, v: Verdict, backoff: nat -> real): Tally {
    var stop := StopOf(q, v);
    var t1 := if stop > q.next then t.(delivered := t.delivered + (stop - q.next), failures := t.failures - {q.partition}) else t;
    if stop < q.end then Count(t1, q.partition, v(q.partition, stop), backoff) else t1
  }

  function AfterAll(t: Tally, todo: seq<Queue>, v: Verdict, backoff: nat -> real): Tally
    decreases |todo|
  {
    if todo == [] then t else AfterAll(AfterQueue(t, todo[0], v, backoff), todo[1..], v, backoff)
  }

  lemma OneDone(t: Tally, q: Queue, v: Verdict, backoff: nat -> real)
    requires q.next < q.end && v(q.partition, q.next).Done?
    ensures var t1 := Count(t, q.partition, Done, backoff);
            if q.next + 1 < q.end then AfterQueue(t1, q.(next := q.next + 1), v, backoff) == AfterQueue(t, q, v, backoff)
            else t1 == AfterQueue(t, q, v, backoff)
  {
    assert t.failures - {q.partition} - {q.partition} == t.failures - {q.partition};
  }

  lemma {:induction false} SettleByPartition(mem: Member, t: Tally, v: Verdict, backoff: nat -> real)
    requires mem.phase.Busy? && forall q :: q in mem.phase.todo ==> q.next < q.end
    ensures Settle(mem, t, v, backoff).1 == AfterAll(t, mem.phase.todo, v, backoff)
    decreases Weight(mem.phase.todo)
  {
    hide SetOffset, Weight, Count, AfterQueue;
    var todo := mem.phase.todo;
    if todo != [] {
      var q := todo[0];
      var outcome := v(q.partition, q.next);
      PopShrinks(todo);
      assert q in todo;
      if outcome.Done? {
        OneDone(t, q, v, backoff);
        SettleByPartition(Succeeded(mem), Count(t, q.partition, outcome, backoff), v, backoff);
        assert q.next + 1 < q.end ==> Pop(todo)[1..] == todo[1..];
      } else {
        StopsAtOnce(t, q, v, backoff);
        SettleByPartition(Halted(mem), Count(t, q.partition, outcome, backoff), v, backoff);
      }
    }
  }

  lemma StopsAtOnce(t: Tally, q: Queue, v: Verdict, backoff: nat -> real)
    requires q.next < q.end && !v(q.partition, q.next).Done?
    ensures AfterQueue(t, q, v, backoff) == Count(t, q.partition, v(q.partition, q.next), backoff)
  {
  }

  // The counts.

  function Progress(todo: seq<Queue>, v: Verdict): nat {
    if todo == [] then 0 else StopOf(todo[0], v) - todo[0].next + Progress(todo[1..], v)
  }

  function FailedRuns(todo: seq<Queue>, v: Verdict): nat {
    if todo == [] then 0 else (if StopsFailed(todo[0], v) then 1 else 0) + FailedRuns(todo[1..], v)
  }

  function DeferredRuns(todo: seq<Queue>, v: Verdict): nat {
    if todo == [] then 0 else (if StopsDeferred(todo[0], v) then 1 else 0) + DeferredRuns(todo[1..], v)
  }

  lemma {:induction false} AllCounts(t: Tally, todo: seq<Queue>, v: Verdict, backoff: nat -> real)
    ensures var t' := AfterAll(t, todo, v, backoff);
            && t'.delivered == t.delivered + Progress(todo, v)
            && t'.failed == t.failed + FailedRuns(todo, v)
            && t'.deferred == t.deferred + DeferredRuns(todo, v)
    decreases |todo|
  {
    if todo != [] {
      AllCounts(AfterQueue(t, todo[0], v, backoff), todo[1..], v, backoff);
    }
  }

  // The failure table.

  function Entry(failures: map<Partition, nat>, p: Partition): nat {
    if p in failures then failures[p] else 0
  }

  /** What the cycle leaves in the table for partition `x`. */
  predicate TableAt(before: map<Partition, nat>, after: map<Partition, nat>, todo: seq<Queue>, v: Verdict, x: Partition) {
    && (!HasQueue(todo, x) ==> (x in after <==> x in before) && Entry(after, x) == Entry(before, x))
    && (forall q :: q in todo && q.partition == x ==>
          if StopsFailed(q, v) then x in after && after[x] == if MadeProgress(q, v) then 1 else Entry(before, x) + 1
          else if MadeProgress(q, v) then x !in after
          else (x in after <==> x in before) && Entry(after, x) == Entry(before, x))
  }

  lemma OneTable(t: Tally, q: Queue, v: Verdict, backoff: nat -> real, x: Partition)
    requires q.next < q.end
    ensures TableAt(t.failures, AfterQueue(t, q, v, backoff).failures, [q], v, x)
  {
    assert x == q.partition <==> HasQueue([q], x) by {
      assert [q][0].partition == q.partition;
    }
  }

  lemma {:induction false} AllTable(t: Tally, todo: seq<Queue>, v: Verdict, backoff: nat -> real, x: Partition)
    requires DistinctQueues(todo) && forall q :: q in todo ==> q.next < q.end
    ensures TableAt(t.failures, AfterAll(t, todo, v, backoff).failures, todo, v, x)
    decreases |todo|
  {
    hide AfterQueue, StopsFailed, MadeProgress;
    if todo != [] {
      var q, t1 := todo[0], AfterQueue(t, todo[0], v, backoff);
      OneTable(t, q, v, backoff, x);
      AllTable(t1, todo[1..], v, backoff, x);
      assert forall i :: 1 <= i < |todo| ==> todo[i] == todo[1..][i - 1];
      assert [q][0] == q && q in [q];
      if x == q.partition {
        assert !HasQueue(todo[1..], x);
        assert HasQueue([q], x) && HasQueue(todo, x);
        assert forall p :: p in todo && p.partition == x ==> p == q;
      } else {
        assert !HasQueue([q], x);
        assert HasQueue(todo, x) <==> HasQueue(todo[1..], x);
        assert forall p :: p in todo && p.partition == x ==> p in todo[1..];
      }
    }
  }

  // The waits.

  /** The backoff a failing partition asks for, by the table the cycle ends with. */
  predicate AsksFor(q: Queue, v: Verdict, failures: map<Partition, nat>, backoff: nat -> real, wait: real) {
    StopsFailed(q, v) && q.partition in failures && backoff(failures[q.partition]) == wait
  }

  lemma RestLeaves(t: Tally, todo: seq<Queue>, v: Verdict, backoff: nat -> real)
    requires todo != [] && DistinctQueues(todo) && forall q :: q in todo ==> q.next < q.end
    ensures var t1, x := AfterQueue(t, todo[0], v, backoff), todo[0].partition;
            var after := AfterAll(t1, todo[1..], v, backoff).failures;
            && (x in after <==> x in t1.failures) && Entry(after, x) == Entry(t1.failures, x)
  {
    hide AfterQueue, AfterAll, StopsFailed, MadeProgress, Entry;
    AllTable(AfterQueue(t, todo[0], v, backoff), todo[1..], v, backoff, todo[0].partition);
    assert !HasQueue(todo[1..], todo[0].partition);
  }

  lemma OneWait(t: Tally, q: Queue, v: Verdict, backoff: nat -> real)
    ensures var t1 := AfterQueue(t, q, v, backoff);
            && t1.retryDelay >= t.retryDelay
            && (StopsFailed(q, v) ==> q.partition in t1.failures && t1.retryDelay >= backoff(t1.failures[q.partition]))
            && (t1.retryDelay == t.retryDelay || AsksFor(q, v, t1.failures, backoff, t1.retryDelay))
  {
  }

  lemma {:induction false} LargestBackoff(t: Tally, todo: seq<Queue>, v: Verdict, backoff: nat -> real)
    requires DistinctQueues(todo) && forall q :: q in todo ==> q.next < q.end
    ensures var t' := AfterAll(t, todo, v, backoff);
            && t'.retryDelay >= t.retryDelay
            && (forall q :: q in todo && StopsFailed(q, v) ==> q.partition in t'.failures && t'.retryDelay >= backoff(t'.failures[q.partition]))
            && (t'.retryDelay == t.retryDelay || exists q :: q in todo && AsksFor(q, v, t'.failures, backoff, t'.retryDelay))
    decreases |todo|
  {
    hide AfterQueue, StopsFailed;
    if todo != [] {
      var q, t1 := todo[0], AfterQueue(t, todo[0], v, backoff);
      var t' := AfterAll(t, todo, v, backoff);
      OneWait(t, q, v, backoff);
      RestLeaves(t, todo, v, backoff);
      LargestBackoff(t1, todo[1..], v, backoff);
      assert q in todo;
      if t'.retryDelay != t1.retryDelay {
        var p :| p in todo[1..] && AsksFor(p, v, t'.failures, backoff, t'.retryDelay);
        assert p in todo;
      } else if t1.retryDelay != t.retryDelay {
        assert AsksFor(q, v, t'.failures, backoff, t'.retryDelay);
      }
    }
  }

  /** The delays asked for by the partitions that were put off, in the order they were met. */
  function Deferrals(todo: seq<Queue>, v: Verdict): seq<real> {
    if todo == [] then []
    else (if StopsDeferred(todo[0], v) then [v(todo[0].partition, StopOf(todo[0], v)).delay] else []) + Deferrals(todo[1..], v)
  }

  function Soonest(so: real, delays: seq<real>): real
    decreases |delays|
  {
    if delays == [] then so
    else Soonest(if so == 0.0 || delays[0] < so then delays[0] else so, delays[1..])
  }

  lemma {:induction false} DeferDelayIs(t: Tally, todo: seq<Queue>, v: Verdict, backoff: nat -> real)
    ensures AfterAll(t, todo, v, backoff).deferDelay == Soonest(t.deferDelay, Deferrals(todo, v))
    decreases |todo|
  {
    if todo != [] {
      DeferDelayIs(AfterQueue(t, todo[0], v, backoff), todo[1..], v, backoff);
      if StopsDeferred(todo[0], v) {
        var d := v(todo[0].partition, StopOf(todo[0], v)).delay;
        assert ([d] + Deferrals(todo[1..], v))[1..] == Deferrals(todo[1..], v);
      } else {
        assert [] + Deferrals(todo[1..], v) == Deferrals(todo[1..], v);
      }
    }
  }

  predicate IsSmallest(x: real, delays: seq<real>) {
    x in delays && forall d :: d in delays ==> x <= d
  }

  lemma {:induction false} SmallestPositive(so: real, delays: seq<real>)
    requires so > 0.0 && forall d :: d in delays ==> d > 0.0
    ensures IsSmallest(Soonest(so, delays), [so] + delays)
    decreases |delays|
  {
    if delays == [] {
      assert [so] + delays == [so];
    } else {
      assert delays[0] in delays && forall d :: d in delays[1..] ==> d in delays;
      var next := if delays[0] < so then delays[0] else so;
      SmallestPositive(next, delays[1..]);
      var x := Soonest(next, delays[1..]);
      assert Soonest(so, delays) == x;
      assert next in [next] + delays[1..];
      forall d | d in [so] + delays ensures x <= d {
        if d in delays[1..] {
          assert d in [next] + delays[1..];
        }
      }
    }
  }

  lemma {:induction false} SoonestEnds(so: real, delays: seq<real>)
    requires so >= 0.0 && delays != [] && forall d :: d in delays ==> d >= 0.0
    ensures Soonest(so, delays) == 0.0 <==> delays[|delays| - 1] == 0.0
    decreases |delays|
  {
    assert delays[0] in delays && forall d :: d in delays[1..] ==> d in delays;
    if |delays| > 1 {
      SoonestEnds(if so == 0.0 || delays[0] < so then delays[0] else so, delays[1..]);
    } else {
      assert delays[1..] == [];
    }
  }

  /** The wait reported for deferrals is the smallest of them exactly unless one of them was zero and the
      last was not: zero doubles as "none yet", so a later delay replaces it. */
  lemma SmallestDeferralIff(delays: seq<real>)
    requires delays != [] && forall d :: d in delays ==> d >= 0.0
    ensures IsSmallest(Soonest(0.0, delays), delays) <==> (0.0 in delays ==> delays[|delays| - 1] == 0.0)
  {
    SoonestEnds(0.0, delays);
    assert delays == [delays[0]] + delays[1..];
    assert delays[0] in delays && forall d :: d in delays[1..] ==> d in delays;
    if 0.0 !in delays {
      SmallestPositive(delays[0], delays[1..]);
      assert Soonest(0.0, delays) == Soonest(delays[0], delays[1..]);
    } else if delays[|delays| - 1] == 0.0 {
      assert delays[|delays| - 1] in delays;
    }
  }

  /** What a cycle over `todo` reports, in every number. */
  lemma CycleReports(mem: Member, t: Tally, v: Verdict, backoff: nat -> real)
    requires mem.phase.Busy? && DistinctQueues(mem.phase.todo) && forall q :: q in mem.phase.todo ==> q.next < q.end
    ensures var todo, t' := mem.phase.todo, Settle(mem, t, v, backoff).1;
            && t'.delivered == t.delivered + Progress(todo, v)
            && t'.failed == t.failed + FailedRuns(todo, v)
            && t'.deferred == t.deferred + DeferredRuns(todo, v)
            && (forall x :: TableAt(t.failures, t'.failures, todo, v, x))
            && t'.retryDelay >= t.retryDelay
            && (forall q :: q in todo && StopsFailed(q, v) ==> q.partition in t'.failures && t'.retryDelay >= backoff(t'.failures[q.partition]))
            && (t'.retryDelay == t.retryDelay || exists q :: q in todo && AsksFor(q, v, t'.failures, backoff, t'.retryDelay))
            && t'.deferDelay == Soonest(t.deferDelay, Deferrals(todo, v))
  {
    hide Settle, AfterAll, TableAt, AsksFor, StopsFailed, Soonest, Deferrals;
    var todo := mem.phase.todo;
    SettleByPartition(mem, t, v, backoff);
    AllCounts(t, todo, v, backoff);
    LargestBackoff(t, todo, v, backoff);
    DeferDelayIs(t, todo, v, backoff);
    forall x ensures TableAt(t.failures, AfterAll(t, todo, v, backoff).failures, todo, v, x) {
      AllTable(t, todo, v, backoff, x);
    }
  }

  /** `ConsumeResult.wait`: the shorter of the two waits that are set. */
  function Wait(t: Tally): (w: real)
    requires t.retryDelay >= 0.0 && t.deferDelay >= 0.0
    ensures w == 0.0 <==> t.retryDelay == t.deferDelay == 0.0
    ensures w > 0.0 ==> w == t.retryDelay || w == t.deferDelay
    ensures t.retryDelay > 0.0 ==> w <= t.retryDelay
    ensures t.deferDelay > 0.0 ==> w <= t.deferDelay
  {
    if t.retryDelay == 0.0 then t.deferDelay
    else if t.deferDelay == 0.0 || t.retryDelay < t.deferDelay then t.retryDelay
    else t.deferDelay
  }
}
