/** Between cycles, a consumer that has its group to itself holds nothing but what the group has
    committed: its read positions are where a newly started member would begin. */
module SoleMember {
  import opened Prelude
  import opened Records
  import opened Assignment
  import opened Groups
  import opened GroupRuns

  /** Nobody but `m` acts, and `m` neither joins nor leaves in the middle of a batch. */
  predicate Undisturbed(w: World, counts: string -> nat, m: MemberId, steps: seq<Step>) {
    steps == [] ||
    var front, last := steps[..|steps| - 1], steps[|steps| - 1];
    && Undisturbed(w, counts, m, front)
    && (last.Append? || last.m == m)
    && (last.Start? || last.Stop? ==>
          var g := Run(w, counts, front).group; m in g.member ==> !g.member[m].phase.Busy?)
  }

  function Lookup(offsets: Offsets, p: Partition): Option<nat> {
    if offsets == [] then None else if offsets[0].0 == p then Some(offsets[0].1) else Lookup(offsets[1..], p)
  }

  predicate DistinctKeys(offsets: Offsets) {
    forall i, j :: 0 <= i < j < |offsets| ==> offsets[i].0 != offsets[j].0
  }

  /** What will be committed for `p` once the cycle ends. */
  function Pending(commits: Offsets, committed: map<Partition, nat>, p: Partition): nat {
    if Lookup(commits, p).Some? then Lookup(commits, p).value else StartAt(committed, p)
  }

  predicate BatchAccounted(mem: Member, todo: seq<Queue>, commits: Offsets, committed: map<Partition, nat>) {
    && mem.started
    && DistinctQueues(todo)
    && DistinctKeys(commits)
    && (forall i :: 0 <= i < |commits| ==> commits[i].0 in mem.assignment)
    && (forall i :: 0 <= i < |todo| ==>
          && todo[i].partition in mem.positions
          && mem.positions[todo[i].partition] == todo[i].end > todo[i].next
          && todo[i].next == Pending(commits, committed, todo[i].partition))
    && (forall p :: p in mem.positions && !HasQueue(todo, p) ==> mem.positions[p] == Pending(commits, committed, p))
  }

  /** `m`'s positions are accounted for by commits, pending commits and the batch in hand. */
  predicate Accounted(mem: Member, committed: map<Partition, nat>) {
    && HasPositions(mem)
    && (!mem.started ==> mem.positions == map[])
    && match mem.phase
       case Idle => forall p :: p in mem.positions ==> mem.positions[p] == StartAt(committed, p)
       case Busy(todo, commits) => BatchAccounted(mem, todo, commits, committed)
       case Cancelled => true
  }

  lemma {:induction false} LookupSet(offsets: Offsets, p: Partition, o: nat, x: Partition)
    ensures Lookup(SetOffset(offsets, p, o), x) == if x == p then Some(o) else Lookup(offsets, x)
  {
    if offsets != [] && offsets[0].0 != p {
      LookupSet(offsets[1..], p, o, x);
    }
  }

  lemma {:induction false} LookupNone(offsets: Offsets, p: Partition)
    ensures Lookup(offsets, p).None? <==> forall i :: 0 <= i < |offsets| ==> offsets[i].0 != p
  {
    if offsets != [] {
      LookupNone(offsets[1..], p);
    }
  }

  lemma {:induction false} SetOffsetKeys(offsets: Offsets, p: Partition, o: nat)
    requires DistinctKeys(offsets)
    ensures DistinctKeys(SetOffset(offsets, p, o))
    ensures forall i :: 0 <= i < |SetOffset(offsets, p, o)| ==>
              SetOffset(offsets, p, o)[i].0 == p || exists j :: 0 <= j < |offsets| && offsets[j].0 == SetOffset(offsets, p, o)[i].0
  {
    if offsets != [] && offsets[0].0 != p {
      SetOffsetKeys(offsets[1..], p, o);
      var rest := SetOffset(offsets[1..], p, o);
      forall i | 0 <= i < |rest|
        ensures rest[i].0 != offsets[0].0
        ensures rest[i].0 == p || exists j :: 0 <= j < |offsets| && offsets[j].0 == rest[i].0
      {
        if rest[i].0 != p {
          var j :| 0 <= j < |offsets[1..]| && offsets[1..][j].0 == rest[i].0;
          assert offsets[j + 1].0 == rest[i].0;
        }
      }
    }
  }

  lemma {:induction false} CommitAllStores(committed: map<Partition, nat>, assignment: seq<Partition>, offsets: Offsets, p: Partition)
    requires DistinctKeys(offsets)
    requires forall i :: 0 <= i < |offsets| ==> offsets[i].0 in assignment
    ensures StartAt(CommitAll(committed, assignment, offsets), p) == Pending(offsets, committed, p)
    decreases |offsets|
  {
    if offsets != [] {
      var committed' := committed[offsets[0].0 := offsets[0].1];
      CommitAllStores(committed', assignment, offsets[1..], p);
      LookupNone(offsets[1..], p);
    }
  }

  lemma PollAccounted(mem: Member, committed: map<Partition, nat>, ends: map<Partition, nat>, room: nat)
    requires Accounted(mem, committed)
    ensures Accounted(Polled(mem, ends, room), committed)
  {
    hide Drain;
    if mem.started && mem.phase.Idle? {
      DrainIsABatch(mem.assignment, mem.positions, Drained(mem.positions, []), ends, room);
    }
  }

  lemma PendingSet(commits: Offsets, committed: map<Partition, nat>, p: Partition, o: nat)
    ensures forall x :: Pending(SetOffset(commits, p, o), committed, x) == if x == p then o else Pending(commits, committed, x)
  {
    forall x ensures Pending(SetOffset(commits, p, o), committed, x) == if x == p then o else Pending(commits, committed, x) {
      LookupSet(commits, p, o, x);
    }
  }

  lemma ReturnAccounted(mem: Member, committed: map<Partition, nat>)
    requires Accounted(mem, committed) && mem.phase.Busy? && mem.phase.todo != []
    ensures Accounted(Succeeded(mem), committed)
  {
    hide SetOffset, Pending;
    var todo, commits := mem.phase.todo, mem.phase.commits;
    var q := todo[0];
    var todo', commits' := Pop(todo), SetOffset(commits, q.partition, q.next + 1);
    SetOffsetKeys(commits, q.partition, q.next + 1);
    PendingSet(commits, committed, q.partition, q.next + 1);
    assert q.next + 1 < q.end ==> todo'[0].partition == q.partition;
    forall p | p in mem.positions && !HasQueue(todo', p) ensures mem.positions[p] == Pending(commits', committed, p) {
      if p != q.partition {
        PopKeepsQueue(todo, p);
      }
    }
    PoppedQueues(mem, todo, commits, commits', committed);
  }

  lemma PoppedQueues(mem: Member, todo: seq<Queue>, commits: Offsets, commits': Offsets, committed: map<Partition, nat>)
    requires BatchAccounted(mem, todo, commits, committed) && todo != []
    requires forall x :: Pending(commits', committed, x) == if x == todo[0].partition then todo[0].next + 1 else Pending(commits, committed, x)
    ensures DistinctQueues(Pop(todo))
    ensures forall i :: 0 <= i < |Pop(todo)| ==>
              && Pop(todo)[i].partition in mem.positions
              && mem.positions[Pop(todo)[i].partition] == Pop(todo)[i].end > Pop(todo)[i].next
              && Pop(todo)[i].next == Pending(commits', committed, Pop(todo)[i].partition)
  {
    hide Pending;
  }

  lemma PopKeepsQueue(todo: seq<Queue>, p: Partition)
    requires todo != [] && todo[0].partition != p
    ensures HasQueue(todo, p) ==> HasQueue(Pop(todo), p)
    ensures HasQueue(todo, p) ==> HasQueue(todo[1..], p)
  {
    if HasQueue(todo, p) {
      var i :| 0 <= i < |todo| && todo[i].partition == p;
      assert todo[1..][i - 1] == todo[i];
      assert todo[0].next + 1 < todo[0].end ==> Pop(todo)[i] == todo[i];
    }
  }

  lemma HaltAccounted(mem: Member, committed: map<Partition, nat>)
    requires Accounted(mem, committed) && mem.phase.Busy? && mem.phase.todo != []
    ensures Accounted(Halted(mem), committed)
  {
    hide Pending;
    var todo, q := mem.phase.todo, mem.phase.todo[0];
    forall p | p in mem.positions && p != q.partition && !HasQueue(todo[1..], p) ensures !HasQueue(todo, p) {
      PopKeepsQueue(todo, p);
    }
  }

  lemma CommitAccounted(mem: Member, committed: map<Partition, nat>)
    requires Accounted(mem, committed) && mem.phase.Busy? && mem.phase.todo == []
    ensures Accounted(mem.(phase := Idle), CommitAll(committed, mem.assignment, mem.phase.commits))
  {
    forall p | p in mem.positions
      ensures mem.positions[p] == StartAt(CommitAll(committed, mem.assignment, mem.phase.commits), p)
    {
      CommitAllStores(committed, mem.assignment, mem.phase.commits, p);
    }
  }

  lemma JoinAccounted(g: Group, ends: map<Partition, nat>, counts: string -> nat, m: MemberId)
    requires GroupSafe(g, ends) && m in g.member && Accounted(g.member[m], g.committed)
    requires !g.member[m].phase.Busy?
    ensures Accounted(Joined(g, counts, m).member[m], g.committed)
    ensures Joined(g, counts, m).committed == g.committed
  {
    hide Share, CommittedSafe, InOrder, MemberSafe;
  }

  lemma LeaveAccounted(g: Group, ends: map<Partition, nat>, counts: string -> nat, m: MemberId)
    requires GroupSafe(g, ends) && m in g.member && Accounted(g.member[m], g.committed)
    requires !g.member[m].phase.Busy?
    ensures var g' := GroupNext(g, ends, counts, Stop(m)); m in g'.member && Accounted(g'.member[m], g'.committed)
  {
    hide CommittedSafe, InOrder, Share;
    LeftSafe(g, ends, counts, m);
  }

  lemma StepAccounted(g: Group, ends: map<Partition, nat>, counts: string -> nat, m: MemberId, step: Step)
    requires GroupSafe(g, ends) && m in g.member && Accounted(g.member[m], g.committed)
    requires step.Append? || step.m == m
    requires step.Start? || step.Stop? ==> !g.member[m].phase.Busy?
    ensures var g' := GroupNext(g, ends, counts, step); m in g'.member && Accounted(g'.member[m], g'.committed)
  {
    hide Accounted, GroupSafe;
    var mem := g.member[m];
    match step
    case Append(_) =>
    case Start(_) => JoinAccounted(g, ends, counts, m);
    case Stop(_) => LeaveAccounted(g, ends, counts, m);
    case Poll(_, room) => PollAccounted(mem, g.committed, ends, room);
    case Return(_) => if Handling(g, m) { ReturnAccounted(mem, g.committed); }
    case Halt(_) => if Handling(g, m) { HaltAccounted(mem, g.committed); }
    case Commit(_) => if Finished(g, m) { StartedWhileBusy(mem, g.committed); CommitAccounted(mem, g.committed); }
    case Cancel(_) => CancelAccounted(mem, g.committed);
  }

  lemma StartedWhileBusy(mem: Member, committed: map<Partition, nat>)
    requires Accounted(mem, committed) && mem.phase.Busy?
    ensures mem.started
  {
  }

  lemma CancelAccounted(mem: Member, committed: map<Partition, nat>)
    requires Accounted(mem, committed)
    ensures Accounted(mem.(phase := Cancelled), committed)
  {
  }

  lemma {:induction false} RunAccounted(w: World, counts: string -> nat, m: MemberId, steps: seq<Step>)
    requires GroupSafe(w.group, w.ends) && m in w.group.member && Accounted(w.group.member[m], w.group.committed)
    requires Undisturbed(w, counts, m, steps)
    ensures var g := Run(w, counts, steps).group; m in g.member && Accounted(g.member[m], g.committed)
  {
    hide GroupSafe, GroupNext, Accounted;
    if steps != [] {
      var before := Run(w, counts, steps[..|steps| - 1]);
      RunAccounted(w, counts, m, steps[..|steps| - 1]);
      RunSafe(w, counts, steps[..|steps| - 1]);
      StepAccounted(before.group, before.ends, counts, m, steps[|steps| - 1]);
    }
  }

  /** `m` has the group's roster, and so every partition of its topics, to itself. */
  ghost predicate HasItAll(g: Group, counts: string -> nat, m: MemberId)
    requires m in g.member
  {
    var mem := g.member[m];
    && (mem.started ==> g.order == [m] && mem.assignment == Share(mem.topics, counts, 1, 0))
    && (!mem.started ==> g.order == [] && mem.assignment == [])
  }

  lemma StepHasItAll(g: Group, ends: map<Partition, nat>, counts: string -> nat, m: MemberId, step: Step)
    requires m in g.member && HasItAll(g, counts, m) && (step.Append? || step.m == m)
    ensures m in GroupNext(g, ends, counts, step).member && HasItAll(GroupNext(g, ends, counts, step), counts, m)
  {
    hide Share, Drain, CommitAll, SetOffset;
    assert IndexOf([m], m) == 0 && Without([m], m) == [];
    assert [] + [m] == [m];
  }

  lemma {:induction false} RunHasItAll(w: World, counts: string -> nat, m: MemberId, steps: seq<Step>)
    requires m in w.group.member && HasItAll(w.group, counts, m) && Undisturbed(w, counts, m, steps)
    ensures m in Run(w, counts, steps).group.member && HasItAll(Run(w, counts, steps).group, counts, m)
  {
    hide GroupNext, HasItAll;
    if steps != [] {
      var before := Run(w, counts, steps[..|steps| - 1]);
      RunHasItAll(w, counts, m, steps[..|steps| - 1]);
      StepHasItAll(before.group, before.ends, counts, m, steps[|steps| - 1]);
    }
  }

  lemma RestartedMember(g: Group, ends: map<Partition, nat>, counts: string -> nat, m: MemberId)
    requires m in g.member && HasItAll(g, counts, m) && g.member[m].started && g.member[m].phase.Idle?
    ensures var after := GroupNext(GroupNext(g, ends, counts, Stop(m)), ends, counts, Start(m));
            && after.order == g.order && after.committed == g.committed && after.history == g.history
            && m in after.member && after.member[m] == Applied(g.member[m], g.member[m].assignment, g.committed)
  {
    hide Share;
    assert IndexOf([m], m) == 0 && Without([m], m) == [];
    assert [] + [m] == [m];
  }

  /** Batch-boundary equivalence: through any mix of successes, failures, deferrals and appends,
      whenever the sole member is between cycles, stopping and starting it gives back the member it
      was, with the assignment and the positions it had. */
  lemma RestartChangesNothing(w: World, counts: string -> nat, m: MemberId, steps: seq<Step>)
    requires Fresh(w) && m in w.group.member && Undisturbed(w, counts, m, steps)
    ensures var end := Run(w, counts, steps);
            && m in end.group.member
            && (end.group.member[m].started && end.group.member[m].phase.Idle? ==>
                  var again := Run(w, counts, steps + [Stop(m), Start(m)]).group;
                  && m in again.member && again.member[m] == end.group.member[m]
                  && again.order == end.group.order && again.committed == end.group.committed)
  {
    assert GroupSafe(w.group, w.ends);
    assert HasItAll(w.group, counts, m);
    RunHasItAll(w, counts, m, steps);
    RunAccounted(w, counts, m, steps);
    TwoMore(w, counts, m, steps);
    hide GroupNext, Run, Undisturbed, HasItAll;
    var end := Run(w, counts, steps);
    if end.group.member[m].started && end.group.member[m].phase.Idle? {
      RestartedMember(end.group, end.ends, counts, m);
      IdlePositions(end.group.member[m], end.group.committed);
    }
  }

  lemma IdlePositions(mem: Member, committed: map<Partition, nat>)
    requires Accounted(mem, committed) && mem.phase.Idle?
    ensures Applied(mem, mem.assignment, committed) == mem
  {
  }

  lemma TwoMore(w: World, counts: string -> nat, m: MemberId, steps: seq<Step>)
    ensures var end := Run(w, counts, steps);
            Run(w, counts, steps + [Stop(m), Start(m)]).group ==
            GroupNext(GroupNext(end.group, end.ends, counts, Stop(m)), end.ends, counts, Start(m))
  {
    hide GroupNext;
    var one, two := steps + [Stop(m)], steps + [Stop(m), Start(m)];
    assert two[..|two| - 1] == one && one[..|one| - 1] == steps;
  }
}
