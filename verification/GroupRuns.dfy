/** What every run of a consumer group keeps. */
module GroupRuns {
  import opened Records
  import opened Assignment
  import opened Groups

  /** The handler has returned for every offset of `p` below `k`. */
  predicate AllBelow(history: seq<(Partition, nat)>, p: Partition, k: nat) {
    forall o: nat :: o < k ==> (p, o) in history
  }

  /** Nothing was handled before everything in front of it in its partition. */
  predicate InOrder(history: seq<(Partition, nat)>) {
    forall i :: 0 <= i < |history| ==> AllBelow(history[..i], history[i].0, history[i].1)
  }

  predicate CommitsSafe(history: seq<(Partition, nat)>, offsets: Offsets) {
    forall i :: 0 <= i < |offsets| ==> AllBelow(history, offsets[i].0, offsets[i].1)
  }

  predicate QueuesSafe(history: seq<(Partition, nat)>, ends: map<Partition, nat>, todo: seq<Queue>) {
    forall i :: 0 <= i < |todo| ==>
      && todo[i].next < todo[i].end <= EndOf(ends, todo[i].partition)
      && AllBelow(history, todo[i].partition, todo[i].next)
  }

  predicate Queued(todo: seq<Queue>, p: Partition, position: nat) {
    exists i :: 0 <= i < |todo| && todo[i].partition == p && position <= todo[i].end
  }

  /** A read position skips nothing unhandled, except what the current batch still holds. */
  predicate PositionsSafe(history: seq<(Partition, nat)>, positions: map<Partition, nat>, todo: seq<Queue>) {
    forall p :: p in positions ==> AllBelow(history, p, positions[p]) || Queued(todo, p, positions[p])
  }

  predicate MemberSafe(history: seq<(Partition, nat)>, ends: map<Partition, nat>, mem: Member) {
    && HasPositions(mem)
    && match mem.phase
       case Idle => PositionsSafe(history, mem.positions, [])
       case Busy(todo, commits) =>
         && PositionsSafe(history, mem.positions, todo)
         && QueuesSafe(history, ends, todo)
         && CommitsSafe(history, commits)
       case Cancelled => true
  }

  predicate BelowAll(history: seq<(Partition, nat)>, committed: map<Partition, nat>) {
    forall p :: p in committed ==> AllBelow(history, p, committed[p])
  }

  predicate CommittedSafe(g: Group) {
    BelowAll(g.history, g.committed)
  }

  /** The members in the group are the started ones, each once, and only they hold partitions. */
  predicate RosterSafe(g: Group) {
    && Distinct(g.order)
    && (forall m :: m in g.order ==> m in g.member && g.member[m].started)
    && (forall m :: m in g.member ==> if g.member[m].started then m in g.order else g.member[m].positions == map[])
  }

  /** Only records that exist have been handled. */
  predicate InLog(history: seq<(Partition, nat)>, ends: map<Partition, nat>) {
    forall i :: 0 <= i < |history| ==> history[i].1 < EndOf(ends, history[i].0)
  }

  predicate GroupSafe(g: Group, ends: map<Partition, nat>) {
    && RosterSafe(g)
    && InLog(g.history, ends)
    && CommittedSafe(g)
    && InOrder(g.history)
    && (forall m :: m in g.member ==> MemberSafe(g.history, ends, g.member[m]))
  }

  // Facts about the pieces.

  lemma AllBelowGrows(h: seq<(Partition, nat)>, more: seq<(Partition, nat)>, p: Partition, k: nat)
    requires AllBelow(h, p, k)
    ensures AllBelow(h + more, p, k)
  {
  }

  lemma AppliedSafe(g: Group, ends: map<Partition, nat>, mem: Member, share: seq<Partition>)
    requires CommittedSafe(g) && MemberSafe(g.history, ends, mem)
    ensures MemberSafe(g.history, ends, Applied(mem, share, g.committed))
  {
  }

  lemma RebalancedSafe(g: Group, ends: map<Partition, nat>, counts: string -> nat)
    requires GroupSafe(g, ends)
    ensures GroupSafe(Rebalanced(g, counts), ends)
  {
    hide MemberSafe, Share, CommittedSafe, InOrder;
    forall m | m in g.member ensures MemberSafe(g.history, ends, Rebalanced(g, counts).member[m]) {
      if m in g.order {
        AppliedSafe(g, ends, g.member[m], Share(g.member[m].topics, counts, |g.order|, IndexOf(g.order, m)));
      }
    }
    CommittedUntouched(g, Rebalanced(g, counts));
  }

  lemma CommittedUntouched(g: Group, g': Group)
    requires CommittedSafe(g) && g'.committed == g.committed && g'.history == g.history
    ensures CommittedSafe(g')
  {
  }

  // The drain loop.

  predicate HasQueue(queues: seq<Queue>, p: Partition) {
    exists i :: 0 <= i < |queues| && queues[i].partition == p
  }

  predicate DistinctQueues(queues: seq<Queue>) {
    forall i, j :: 0 <= i < j < |queues| ==> queues[i].partition != queues[j].partition
  }

  predicate RunOf(from: map<Partition, nat>, to: map<Partition, nat>, ends: map<Partition, nat>, q: Queue) {
    && q.partition in from && q.partition in to
    && q.next == from[q.partition] < q.end == to[q.partition] <= EndOf(ends, q.partition)
  }

  /** What the batch in `d` holds, relative to the positions `from` the drain started at: one
      contiguous run per partition, from the old position up to the new one. */
  predicate BatchOf(from: map<Partition, nat>, d: Drained, ends: map<Partition, nat>) {
    && d.positions.Keys == from.Keys
    && DistinctQueues(d.queues)
    && (forall i :: 0 <= i < |d.queues| ==> RunOf(from, d.positions, ends, d.queues[i]))
    && (forall p :: p in from && !HasQueue(d.queues, p) ==> d.positions[p] == from[p])
  }

  lemma {:induction false} AddRunAppends(queues: seq<Queue>, p: Partition, from: nat, to: nat)
    requires !HasQueue(queues, p)
    ensures AddRun(queues, p, from, to) == queues + [Queue(p, from, to)]
  {
    if queues != [] {
      forall i | 0 <= i < |queues[1..]| ensures queues[1..][i].partition != p {
        assert queues[i + 1].partition != p;
      }
      assert queues[0].partition != p;
      AddRunAppends(queues[1..], p, from, to);
    }
  }

  lemma {:induction false} AddRunExtends(queues: seq<Queue>, p: Partition, from: nat, to: nat, i: nat)
    requires i < |queues| && queues[i].partition == p && DistinctQueues(queues)
    ensures AddRun(queues, p, from, to) == queues[i := queues[i].(end := to)]
  {
    if i > 0 {
      assert queues[0].partition != p;
      AddRunExtends(queues[1..], p, from, to, i - 1);
    }
  }

  lemma DrainOpens(from: map<Partition, nat>, d: Drained, ends: map<Partition, nat>, p: Partition, to: nat)
    requires BatchOf(from, d, ends) && p in from && d.positions[p] < to <= EndOf(ends, p) && !HasQueue(d.queues, p)
    ensures BatchOf(from, Drained(d.positions[p := to], d.queues + [Queue(p, d.positions[p], to)]), ends)
  {
    var queues := d.queues + [Queue(p, d.positions[p], to)];
    forall j | 0 <= j < |queues| ensures RunOf(from, d.positions[p := to], ends, queues[j]) {
      if j < |d.queues| {
        assert RunOf(from, d.positions, ends, d.queues[j]) && d.queues[j].partition != p;
      }
    }
    KeepsQueues(d.queues, queues);
    assert queues[|d.queues|].partition == p;
  }

  lemma KeepsQueues(queues: seq<Queue>, more: seq<Queue>)
    requires |queues| <= |more| && forall j :: 0 <= j < |queues| ==> more[j].partition == queues[j].partition
    ensures forall x :: HasQueue(queues, x) ==> HasQueue(more, x)
  {
    forall x | HasQueue(queues, x) ensures HasQueue(more, x) {
      var j :| 0 <= j < |queues| && queues[j].partition == x;
      assert more[j].partition == x;
    }
  }

  lemma DrainExtends(from: map<Partition, nat>, d: Drained, ends: map<Partition, nat>, p: Partition, to: nat, i: nat)
    requires BatchOf(from, d, ends) && p in from && d.positions[p] < to <= EndOf(ends, p)
    requires i < |d.queues| && d.queues[i].partition == p
    ensures BatchOf(from, Drained(d.positions[p := to], d.queues[i := d.queues[i].(end := to)]), ends)
  {
    var queues := d.queues[i := d.queues[i].(end := to)];
    forall j | 0 <= j < |queues| ensures RunOf(from, d.positions[p := to], ends, queues[j]) {
      assert RunOf(from, d.positions, ends, d.queues[j]);
    }
    KeepsQueues(d.queues, queues);
    assert queues[i].partition == p;
  }

  lemma DrainTakes(from: map<Partition, nat>, d: Drained, ends: map<Partition, nat>, p: Partition, n: nat)
    requires BatchOf(from, d, ends) && p in from && p in d.positions && n > 0 && d.positions[p] + n <= EndOf(ends, p)
    ensures BatchOf(from, Drained(d.positions[p := d.positions[p] + n], AddRun(d.queues, p, d.positions[p], d.positions[p] + n)), ends)
  {
    hide BatchOf, AddRun, DistinctQueues;
    var at := d.positions[p];
    BatchShape(from, d, ends);
    if HasQueue(d.queues, p) {
      var i :| 0 <= i < |d.queues| && d.queues[i].partition == p;
      AddRunExtends(d.queues, p, at, at + n, i);
      DrainExtends(from, d, ends, p, at + n, i);
    } else {
      AddRunAppends(d.queues, p, at, at + n);
      DrainOpens(from, d, ends, p, at + n);
    }
  }

  lemma {:induction false} DrainIsABatch(assignment: seq<Partition>, from: map<Partition, nat>, d: Drained, ends: map<Partition, nat>, room: nat)
    requires forall p :: p in assignment ==> p in d.positions
    requires BatchOf(from, d, ends)
    ensures BatchOf(from, Drain(assignment, d, ends, room), ends)
    decreases |assignment|
  {
    hide BatchOf, AddRun;
    if assignment != [] && room > 0 {
      var p, at := assignment[0], d.positions[assignment[0]];
      var n := Available(at, EndOf(ends, p), room);
      BatchShape(from, d, ends);
      if n == 0 {
        DrainIsABatch(assignment[1..], from, d, ends, room);
      } else {
        DrainTakes(from, d, ends, p, n);
        DrainIsABatch(assignment[1..], from, Drained(d.positions[p := at + n], AddRun(d.queues, p, at, at + n)), ends, room - n);
      }
    }
  }

  lemma BatchShape(from: map<Partition, nat>, d: Drained, ends: map<Partition, nat>)
    requires BatchOf(from, d, ends)
    ensures d.positions.Keys == from.Keys && DistinctQueues(d.queues)
  {
  }

  /** How many records a batch holds. */
  function Total(todo: seq<Queue>): int {
    if todo == [] then 0 else todo[0].end - todo[0].next + Total(todo[1..])
  }

  lemma {:induction false} AddRunTotal(queues: seq<Queue>, p: Partition, from: nat, to: nat)
    requires from <= to && forall i :: 0 <= i < |queues| && queues[i].partition == p ==> queues[i].end == from
    ensures Total(AddRun(queues, p, from, to)) == Total(queues) + (to - from)
  {
    if queues != [] {
      if queues[0].partition == p {
        assert ([queues[0].(end := to)] + queues[1..])[1..] == queues[1..];
      } else {
        AddRunTotal(queues[1..], p, from, to);
        var rest := AddRun(queues[1..], p, from, to);
        assert ([queues[0]] + rest)[1..] == rest;
      }
    }
  }

  lemma QueuesEndAt(from: map<Partition, nat>, d: Drained, ends: map<Partition, nat>, p: Partition)
    requires BatchOf(from, d, ends) && p in d.positions
    ensures forall i :: 0 <= i < |d.queues| && d.queues[i].partition == p ==> d.queues[i].end == d.positions[p]
  {
    forall i | 0 <= i < |d.queues| && d.queues[i].partition == p ensures d.queues[i].end == d.positions[p] {
      assert RunOf(from, d.positions, ends, d.queues[i]);
    }
  }

  lemma {:induction false} DrainLeaves(assignment: seq<Partition>, d: Drained, ends: map<Partition, nat>, room: nat, p: Partition)
    requires (forall q :: q in assignment ==> q in d.positions) && p in d.positions
    ensures p in Drain(assignment, d, ends, room).positions
    ensures Drain(assignment, d, ends, room).positions[p] >= d.positions[p]
    ensures p !in assignment ==> Drain(assignment, d, ends, room).positions[p] == d.positions[p]
    decreases |assignment|
  {
    hide AddRun;
    if assignment != [] && room > 0 {
      var q, at := assignment[0], d.positions[assignment[0]];
      var n := Available(at, EndOf(ends, q), room);
      if n == 0 {
        DrainLeaves(assignment[1..], d, ends, room, p);
      } else {
        DrainLeaves(assignment[1..], Drained(d.positions[q := at + n], AddRun(d.queues, q, at, at + n)), ends, room - n, p);
      }
    }
  }

  /** A drain stops only when the batch is full or every assigned partition is read to its end. */
  lemma {:induction false} DrainFills(assignment: seq<Partition>, from: map<Partition, nat>, d: Drained, ends: map<Partition, nat>, room: nat)
    requires (forall p :: p in assignment ==> p in d.positions) && BatchOf(from, d, ends)
    ensures var r := Drain(assignment, d, ends, room);
            && Total(r.queues) <= Total(d.queues) + room
            && (Total(r.queues) == Total(d.queues) + room ||
                forall p :: p in assignment ==> p in r.positions && r.positions[p] >= EndOf(ends, p))
    decreases |assignment|
  {
    hide BatchOf, AddRun, Total;
    if assignment != [] && room > 0 {
      var p, at := assignment[0], d.positions[assignment[0]];
      var n := Available(at, EndOf(ends, p), room);
      BatchShape(from, d, ends);
      if n == 0 {
        DrainFills(assignment[1..], from, d, ends, room);
        DrainLeaves(assignment[1..], d, ends, room, p);
      } else {
        var d' := Drained(d.positions[p := at + n], AddRun(d.queues, p, at, at + n));
        DrainTakes(from, d, ends, p, n);
        QueuesEndAt(from, d, ends, p);
        AddRunTotal(d.queues, p, at, at + n);
        DrainFills(assignment[1..], from, d', ends, room - n);
        DrainLeaves(assignment[1..], d', ends, room - n, p);
      }
    }
  }

  /** And it reads in assignment order: behind a partition left short of its end nothing is read. */
  lemma {:induction false} DrainInOrder(assignment: seq<Partition>, d: Drained, ends: map<Partition, nat>, room: nat, i: nat, j: nat)
    requires (forall p :: p in assignment ==> p in d.positions) && Distinct(assignment) && i < j < |assignment|
    ensures var r := Drain(assignment, d, ends, room);
            && assignment[i] in r.positions && assignment[j] in r.positions
            && (r.positions[assignment[i]] < EndOf(ends, assignment[i]) ==> r.positions[assignment[j]] == d.positions[assignment[j]])
    decreases |assignment|
  {
    hide AddRun;
    DrainLeaves(assignment, d, ends, room, assignment[i]);
    DrainLeaves(assignment, d, ends, room, assignment[j]);
    if room > 0 {
      var p, at := assignment[0], d.positions[assignment[0]];
      var n := Available(at, EndOf(ends, p), room);
      var d' := if n == 0 then d else Drained(d.positions[p := at + n], AddRun(d.queues, p, at, at + n));
      assert Drain(assignment, d, ends, room) == Drain(assignment[1..], d', ends, room - n);
      assert assignment[1..][j - 1] == assignment[j];
      if i == 0 {
        assert p !in assignment[1..];
        DrainLeaves(assignment[1..], d', ends, room - n, p);
        DrainLeaves(assignment[1..], d', ends, room - n, assignment[j]);
      } else {
        assert assignment[1..][i - 1] == assignment[i];
        DrainInOrder(assignment[1..], d', ends, room - n, i - 1, j - 1);
      }
    }
  }

  // One step keeps the group safe.

  lemma PolledSafe(h: seq<(Partition, nat)>, ends: map<Partition, nat>, mem: Member, room: nat)
    requires MemberSafe(h, ends, mem)
    ensures MemberSafe(h, ends, Polled(mem, ends, room))
  {
    hide Drain, AllBelow;
    if mem.started && mem.phase.Idle? {
      var d := Drain(mem.assignment, Drained(mem.positions, []), ends, room);
      DrainIsABatch(mem.assignment, mem.positions, Drained(mem.positions, []), ends, room);
      forall p | p in d.positions ensures AllBelow(h, p, d.positions[p]) || Queued(d.queues, p, d.positions[p]) {
        if HasQueue(d.queues, p) {
          var i :| 0 <= i < |d.queues| && d.queues[i].partition == p;
          assert d.queues[i].end == d.positions[p];
        }
      }
    }
  }

  lemma {:induction false} SetOffsetSafe(h: seq<(Partition, nat)>, offsets: Offsets, p: Partition, o: nat)
    requires CommitsSafe(h, offsets) && AllBelow(h, p, o)
    ensures CommitsSafe(h, SetOffset(offsets, p, o))
  {
    hide AllBelow;
    if offsets != [] {
      assert CommitsSafe(h, offsets[1..]);
      if offsets[0].0 != p {
        SetOffsetSafe(h, offsets[1..], p, o);
      }
    }
  }

  lemma MemberGrows(h: seq<(Partition, nat)>, more: seq<(Partition, nat)>, ends: map<Partition, nat>, ends': map<Partition, nat>, mem: Member)
    requires MemberSafe(h, ends, mem)
    requires forall p :: EndOf(ends, p) <= EndOf(ends', p)
    ensures MemberSafe(h + more, ends', mem)
  {
    hide AllBelow, EndOf;
    forall p, k: nat | AllBelow(h, p, k) ensures AllBelow(h + more, p, k) {
      AllBelowGrows(h, more, p, k);
    }
  }

  lemma SucceededSafe(h: seq<(Partition, nat)>, ends: map<Partition, nat>, mem: Member)
    requires MemberSafe(h, ends, mem) && mem.phase.Busy? && mem.phase.todo != []
    ensures var q := mem.phase.todo[0];
            && AllBelow(h, q.partition, q.next)
            && q.next < EndOf(ends, q.partition)
            && MemberSafe(h + [(q.partition, q.next)], ends, Succeeded(mem))
  {
    var todo, q := mem.phase.todo, mem.phase.todo[0];
    var h' := h + [(q.partition, q.next)];
    MemberGrows(h, [(q.partition, q.next)], ends, ends, mem);
    assert AllBelow(h', q.partition, q.next + 1);
    SetOffsetSafe(h', mem.phase.commits, q.partition, q.next + 1);
    assert QueuesSafe(h', ends, Pop(todo));
    forall p | p in mem.positions
      ensures AllBelow(h', p, mem.positions[p]) || Queued(Pop(todo), p, mem.positions[p])
    {
      PoppedPosition(h', todo, p, mem.positions[p]);
    }
  }

  /** Handling a record takes its partition's position out of the batch only once everything
      below it is handled. */
  lemma PoppedPosition(h: seq<(Partition, nat)>, todo: seq<Queue>, p: Partition, position: nat)
    requires todo != [] && AllBelow(h, todo[0].partition, todo[0].next + 1)
    requires AllBelow(h, p, position) || Queued(todo, p, position)
    ensures AllBelow(h, p, position) || Queued(Pop(todo), p, position)
  {
    if !AllBelow(h, p, position) {
      var i :| 0 <= i < |todo| && todo[i].partition == p && position <= todo[i].end;
      if todo[0].next + 1 < todo[0].end {
        assert Pop(todo)[i].partition == p && position <= Pop(todo)[i].end;
      } else if i > 0 {
        assert Pop(todo)[i - 1] == todo[i];
      }
    }
  }

  lemma HaltedSafe(h: seq<(Partition, nat)>, ends: map<Partition, nat>, mem: Member)
    requires MemberSafe(h, ends, mem) && mem.phase.Busy? && mem.phase.todo != []
    ensures MemberSafe(h, ends, Halted(mem))
  {
    hide AllBelow;
    var todo, q := mem.phase.todo, mem.phase.todo[0];
    var halted := Halted(mem);
    forall p | p in halted.positions
      ensures AllBelow(h, p, halted.positions[p]) || Queued(todo[1..], p, halted.positions[p])
    {
      if !AllBelow(h, p, halted.positions[p]) {
        var i :| 0 <= i < |todo| && todo[i].partition == p && mem.positions[p] <= todo[i].end;
        assert todo[1..][i - 1] == todo[i];
      }
    }
  }

  lemma {:induction false} CommitAllSafe(h: seq<(Partition, nat)>, committed: map<Partition, nat>, assignment: seq<Partition>, offsets: Offsets)
    requires BelowAll(h, committed) && CommitsSafe(h, offsets)
    ensures BelowAll(h, CommitAll(committed, assignment, offsets))
    decreases |offsets|
  {
    hide AllBelow;
    if offsets != [] && offsets[0].0 in assignment {
      assert CommitsSafe(h, offsets[1..]);
      assert AllBelow(h, offsets[0].0, offsets[0].1);
      var committed' := committed[offsets[0].0 := offsets[0].1];
      CommitAllSafe(h, committed', assignment, offsets[1..]);
      assert CommitAll(committed, assignment, offsets) == CommitAll(committed', assignment, offsets[1..]);
    }
  }

  lemma InOrderExtends(h: seq<(Partition, nat)>, p: Partition, o: nat)
    requires InOrder(h) && AllBelow(h, p, o)
    ensures InOrder(h + [(p, o)])
  {
    var h' := h + [(p, o)];
    forall i | 0 <= i < |h'| ensures AllBelow(h'[..i], h'[i].0, h'[i].1) {
      assert h'[..i] == if i < |h| then h[..i] else h;
    }
  }

  /** Replacing one member by a safe one, with the history and the commits grown safely. */
  lemma ReplacedSafe(g: Group, ends: map<Partition, nat>, m: MemberId, mem: Member, more: seq<(Partition, nat)>, g': Group)
    requires GroupSafe(g, ends) && m in g.member
    requires g'.history == g.history + more && g'.member == g.member[m := mem] && g'.order == g.order
    requires mem.started == g.member[m].started && (mem.started || mem.positions == map[])
    requires InOrder(g'.history) && InLog(g'.history, ends) && CommittedSafe(g') && MemberSafe(g'.history, ends, mem)
    ensures GroupSafe(g', ends)
  {
    hide InOrder, CommittedSafe, MemberSafe;
    forall x | x in g'.member ensures MemberSafe(g'.history, ends, g'.member[x]) {
      if x != m {
        MemberGrows(g.history, more, ends, ends, g.member[x]);
      }
    }
  }

  lemma CommittedGrows(g: Group, more: seq<(Partition, nat)>)
    requires CommittedSafe(g)
    ensures forall g': Group :: g'.committed == g.committed && g'.history == g.history + more ==> CommittedSafe(g')
  {
    forall p | p in g.committed ensures AllBelow(g.history + more, p, g.committed[p]) {
      AllBelowGrows(g.history, more, p, g.committed[p]);
    }
  }

  lemma {:induction false} WithoutRemoves(order: seq<MemberId>, m: MemberId)
    requires Distinct(order)
    ensures Distinct(Without(order, m))
    ensures forall x :: x in Without(order, m) <==> x in order && x != m
  {
    if order != [] {
      assert Distinct(order[1..]);
      WithoutRemoves(order[1..], m);
      assert forall x :: x in order <==> x == order[0] || x in order[1..];
      assert order[0] !in order[1..];
      if order[0] != m {
        var rest := Without(order[1..], m);
        assert forall x :: x in [order[0]] + rest <==> x == order[0] || x in rest;
      }
    }
  }

  lemma SwappedSafe(g: Group, ends: map<Partition, nat>, m: MemberId, mem: Member, order: seq<MemberId>)
    requires GroupSafe(g, ends) && m in g.member && MemberSafe(g.history, ends, mem)
    requires RosterSafe(g.(member := g.member[m := mem], order := order))
    ensures GroupSafe(g.(member := g.member[m := mem], order := order), ends)
  {
    hide InOrder, CommittedSafe, MemberSafe, RosterSafe;
    CommittedUntouched(g, g.(member := g.member[m := mem], order := order));
  }

  lemma JoinedSafe(g: Group, ends: map<Partition, nat>, counts: string -> nat, m: MemberId)
    requires GroupSafe(g, ends) && m in g.member
    ensures GroupSafe(Joined(g, counts, m), ends)
  {
    hide Rebalanced, CommittedSafe, InOrder;
    if !g.member[m].started {
      var mem := g.member[m].(started := true);
      SwappedSafe(g, ends, m, mem, g.order + [m]);
      RebalancedSafe(g.(member := g.member[m := mem], order := g.order + [m]), ends, counts);
    }
  }

  lemma LeftSafe(g: Group, ends: map<Partition, nat>, counts: string -> nat, m: MemberId)
    requires GroupSafe(g, ends) && m in g.member
    ensures GroupSafe(Left(g, counts, m), ends)
    ensures m in Left(g, counts, m).member && Left(g, counts, m).member[m].positions == map[]
    ensures !Left(g, counts, m).member[m].started
  {
    hide CommittedSafe, InOrder, Share;
    if g.member[m].started {
      var gone := g.member[m].(started := false, assignment := [], positions := map[]);
      WithoutRemoves(g.order, m);
      SwappedSafe(g, ends, m, gone, Without(g.order, m));
      RebalancedSafe(g.(member := g.member[m := gone], order := Without(g.order, m)), ends, counts);
    }
  }

  /** Every step keeps the group safe. */
  lemma StepSafe(g: Group, ends: map<Partition, nat>, counts: string -> nat, step: Step)
    requires GroupSafe(g, ends)
    ensures GroupSafe(GroupNext(g, ends, counts, step), ends)
  {
    match step
    case Append(_) =>
    case Start(m) => if m in g.member { JoinedSafe(g, ends, counts, m); }
    case Stop(m) =>
      if m in g.member {
        LeftSafe(g, ends, counts, m);
        var left := Left(g, counts, m);
        if left.member[m].phase.Cancelled? {
          StopIdles(left, ends, m);
        }
      }
    case Poll(m, room) => if m in g.member && HasPositions(g.member[m]) { PollStepSafe(g, ends, counts, m, room); }
    case Return(m) => if Handling(g, m) { ReturnStepSafe(g, ends, counts, m); }
    case Halt(m) => if Handling(g, m) { HaltStepSafe(g, ends, counts, m); }
    case Commit(m) => if Finished(g, m) { CommitStepSafe(g, ends, counts, m); }
    case Cancel(m) =>
      if m in g.member {
        SwappedSafe(g, ends, m, g.member[m].(phase := Cancelled), g.order);
        assert g.(member := g.member[m := g.member[m].(phase := Cancelled)], order := g.order) == GroupNext(g, ends, counts, step);
      }
  }

  lemma StopIdles(g: Group, ends: map<Partition, nat>, m: MemberId)
    requires GroupSafe(g, ends) && m in g.member && g.member[m].positions == map[]
    ensures GroupSafe(g.(member := g.member[m := g.member[m].(phase := Idle)]), ends)
  {
    hide CommittedSafe, InOrder;
    SwappedSafe(g, ends, m, g.member[m].(phase := Idle), g.order);
  }

  lemma PollStepSafe(g: Group, ends: map<Partition, nat>, counts: string -> nat, m: MemberId, room: nat)
    requires GroupSafe(g, ends) && m in g.member && HasPositions(g.member[m])
    ensures GroupSafe(GroupNext(g, ends, counts, Poll(m, room)), ends)
  {
    hide CommittedSafe, InOrder, MemberSafe, Drain;
    PolledSafe(g.history, ends, g.member[m], room);
    SwappedSafe(g, ends, m, Polled(g.member[m], ends, room), g.order);
  }

  lemma ReturnStepSafe(g: Group, ends: map<Partition, nat>, counts: string -> nat, m: MemberId)
    requires GroupSafe(g, ends) && Handling(g, m)
    ensures GroupSafe(GroupNext(g, ends, counts, Return(m)), ends)
  {
    hide CommittedSafe, InOrder, MemberSafe, AllBelow;
    var q, g' := g.member[m].phase.todo[0], GroupNext(g, ends, counts, Return(m));
    SucceededSafe(g.history, ends, g.member[m]);
    InOrderExtends(g.history, q.partition, q.next);
    CommittedGrows(g, [(q.partition, q.next)]);
    ReplacedSafe(g, ends, m, Succeeded(g.member[m]), [(q.partition, q.next)], g');
  }

  lemma HaltStepSafe(g: Group, ends: map<Partition, nat>, counts: string -> nat, m: MemberId)
    requires GroupSafe(g, ends) && Handling(g, m)
    ensures GroupSafe(GroupNext(g, ends, counts, Halt(m)), ends)
  {
    hide CommittedSafe, InOrder, AllBelow;
    HaltedSafe(g.history, ends, g.member[m]);
    SwappedSafe(g, ends, m, Halted(g.member[m]), g.order);
  }

  lemma CommitStepSafe(g: Group, ends: map<Partition, nat>, counts: string -> nat, m: MemberId)
    requires GroupSafe(g, ends) && Finished(g, m)
    ensures GroupSafe(GroupNext(g, ends, counts, Commit(m)), ends)
  {
    hide InOrder, AllBelow, CommitAll, BelowAll;
    var mem, g' := g.member[m], GroupNext(g, ends, counts, Commit(m));
    CommitAllSafe(g.history, g.committed, mem.assignment, mem.phase.commits);
    assert g.history + [] == g.history;
    var committed := if mem.started then CommitAll(g.committed, mem.assignment, mem.phase.commits) else g.committed;
    assert g' == g.(committed := committed, member := g.member[m := mem.(phase := Idle)]);
    assert CommittedSafe(g');
    assert MemberSafe(g'.history, ends, mem.(phase := Idle));
    ReplacedSafe(g, ends, m, mem.(phase := Idle), [], g');
  }

  lemma EndsGrow(g: Group, ends: map<Partition, nat>, ends': map<Partition, nat>)
    requires GroupSafe(g, ends) && forall p :: EndOf(ends, p) <= EndOf(ends', p)
    ensures GroupSafe(g, ends')
  {
    hide MemberSafe, InOrder, CommittedSafe;
    assert g.history + [] == g.history;
    forall m | m in g.member ensures MemberSafe(g.history, ends', g.member[m]) {
      MemberGrows(g.history, [], ends, ends', g.member[m]);
    }
  }

  lemma {:induction false} RunSafe(w: World, counts: string -> nat, steps: seq<Step>)
    requires GroupSafe(w.group, w.ends)
    ensures var after := Run(w, counts, steps); GroupSafe(after.group, after.ends)
  {
    hide GroupSafe, GroupNext;
    if steps != [] {
      var before, step := Run(w, counts, steps[..|steps| - 1]), steps[|steps| - 1];
      RunSafe(w, counts, steps[..|steps| - 1]);
      StepSafe(before.group, before.ends, counts, step);
      if step.Append? {
        EndsGrow(Next(before, counts, step).group, before.ends, Next(before, counts, step).ends);
      }
    }
  }

  /** Commit safety. In every run, with members joining, leaving and being rebalanced in the
      middle of a batch, every offset below a committed one has had its handler return, and
      each return came after the returns for every earlier offset of its partition. */
  lemma CommitSafety(w: World, counts: string -> nat, steps: seq<Step>)
    requires Fresh(w)
    ensures var g := Run(w, counts, steps).group;
            && (forall p, o: nat :: p in g.committed && o < g.committed[p] ==> (p, o) in g.history)
            && (forall i, o: nat :: 0 <= i < |g.history| && o < g.history[i].1 ==> (g.history[i].0, o) in g.history[..i])
  {
    assert GroupSafe(w.group, w.ends);
    RunSafe(w, counts, steps);
  }
}
