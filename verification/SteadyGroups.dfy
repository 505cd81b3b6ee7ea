/** When a group's committed offsets only ever grow: its members name the same topics, and nobody
    joins or leaves while a batch is being handled. */
module SteadyGroups {
  import opened Prelude
  import opened Records
  import opened Assignment
  import opened Groups
  import opened GroupRuns
  import opened SoleMember

  /** Joins and leaves happen only between the cycles of every member. */
  predicate Calm(w: World, counts: string -> nat, steps: seq<Step>) {
    steps == [] ||
    var front, last := steps[..|steps| - 1], steps[|steps| - 1];
    && Calm(w, counts, front)
    && (last.Start? || last.Stop? ==> NobodyBusy(Run(w, counts, front).group))
  }

  predicate NobodyBusy(g: Group) {
    forall m :: m in g.member ==> !g.member[m].phase.Busy?
  }

  predicate AllName(g: Group, topics: seq<string>) {
    forall m :: m in g.member ==> multiset(g.member[m].topics) == multiset(topics)
  }

  /** No partition is assigned twice. */
  predicate Disjoint(g: Group) {
    forall m, n, p :: m in g.member && n in g.member && m != n && p in g.member[m].assignment ==> p !in g.member[n].assignment
  }

  /** Committing now would not take any partition back. */
  ghost predicate Ahead(mem: Member, committed: map<Partition, nat>) {
    mem.phase.Busy? ==> forall p: Partition :: StartAt(committed, p) <= Pending(mem.phase.commits, committed, p)
  }

  ghost predicate Fine(mem: Member, committed: map<Partition, nat>) {
    Accounted(mem, committed) && Ahead(mem, committed)
  }

  ghost predicate Steady(g: Group, topics: seq<string>) {
    && AllName(g, topics)
    && Disjoint(g)
    && forall m :: m in g.member ==> Fine(g.member[m], g.committed)
  }

  // A commit by one member leaves the others' accounts alone.

  lemma KeysAssigned(mem: Member, committed: map<Partition, nat>, p: Partition)
    requires Accounted(mem, committed) && mem.phase.Busy? && p !in mem.assignment
    ensures Lookup(mem.phase.commits, p).None?
  {
    LookupNone(mem.phase.commits, p);
  }

  lemma FineElsewhere(mem: Member, committed: map<Partition, nat>, committed': map<Partition, nat>)
    requires Fine(mem, committed)
    requires forall p :: p in mem.assignment ==> StartAt(committed', p) == StartAt(committed, p)
    ensures Fine(mem, committed')
  {
    hide Lookup;
    forall p: Partition ensures mem.phase.Busy? && p !in mem.assignment ==> Lookup(mem.phase.commits, p).None? {
      if mem.phase.Busy? && p !in mem.assignment {
        KeysAssigned(mem, committed, p);
      }
    }
    if mem.phase.Busy? {
      forall p: Partition ensures StartAt(committed', p) <= Pending(mem.phase.commits, committed', p) {
        assert StartAt(committed, p) <= Pending(mem.phase.commits, committed, p);
      }
    }
  }

  lemma CommitGrows(mem: Member, committed: map<Partition, nat>, p: Partition)
    requires Fine(mem, committed) && mem.phase.Busy?
    ensures var after := CommitAll(committed, mem.assignment, mem.phase.commits);
            && StartAt(committed, p) <= StartAt(after, p)
            && (p !in mem.assignment ==> StartAt(after, p) == StartAt(committed, p))
  {
    hide Lookup, CommitAll;
    CommitAllStores(committed, mem.assignment, mem.phase.commits, p);
    assert StartAt(committed, p) <= Pending(mem.phase.commits, committed, p);
    if p !in mem.assignment {
      KeysAssigned(mem, committed, p);
    }
  }

  lemma ReturnAhead(mem: Member, committed: map<Partition, nat>)
    requires Fine(mem, committed) && mem.phase.Busy? && mem.phase.todo != []
    ensures Fine(Succeeded(mem), committed)
  {
    ReturnAccounted(mem, committed);
    hide SetOffset, Pending;
    var q := mem.phase.todo[0];
    PendingSet(mem.phase.commits, committed, q.partition, q.next + 1);
    assert q.next == Pending(mem.phase.commits, committed, q.partition);
  }

  lemma PollAhead(mem: Member, committed: map<Partition, nat>, ends: map<Partition, nat>, room: nat)
    requires Fine(mem, committed)
    ensures HasPositions(mem) && Fine(Polled(mem, ends, room), committed)
  {
    hide Drain;
    PollAccounted(mem, committed, ends, room);
  }

  lemma HaltAhead(mem: Member, committed: map<Partition, nat>)
    requires Fine(mem, committed) && mem.phase.Busy? && mem.phase.todo != []
    ensures Fine(Halted(mem), committed)
  {
    HaltAccounted(mem, committed);
  }

  // Redistribution.

  lemma NothingHeld(mem: Member, committed: map<Partition, nat>)
    requires Fine(mem, committed)
    ensures mem.positions == map[] ==> forall p :: p !in mem.assignment
  {
  }

  lemma {:induction false} IndexOfDiffers(order: seq<MemberId>, m: MemberId, n: MemberId)
    requires m in order && n in order && m != n
    ensures IndexOf(order, m) != IndexOf(order, n)
  {
  }

  lemma SharesDisjoint(g: Group, counts: string -> nat, topics: seq<string>, m: MemberId, n: MemberId, p: Partition)
    requires RosterSafe(g) && AllName(g, topics) && Distinct(topics) && m in g.order && n in g.order && m != n
    ensures p in Share(g.member[m].topics, counts, |g.order|, IndexOf(g.order, m)) ==>
              p !in Share(g.member[n].topics, counts, |g.order|, IndexOf(g.order, n))
  {
    hide Share, IndexOf;
    var all := seq(|g.order|, i requires 0 <= i < |g.order| => g.member[g.order[i]].topics);
    EveryPartitionHasOneOwner(all, topics, counts, p);
    var i, j := IndexOf(g.order, m), IndexOf(g.order, n);
    assert all[i] == g.member[m].topics && all[j] == g.member[n].topics;
    IndexOfDiffers(g.order, m, n);
  }

  /** Dealing anew puts everybody at the committed offsets, on partitions of their own. */
  lemma RebalancedSteady(g: Group, counts: string -> nat, topics: seq<string>)
    requires RosterSafe(g) && AllName(g, topics) && Distinct(topics) && NobodyBusy(g)
    requires forall m :: m in g.member && m !in g.order ==> g.member[m].assignment == [] && Fine(g.member[m], g.committed)
    ensures Steady(Rebalanced(g, counts), topics)
  {
    hide Share, IndexOf;
    var g' := Rebalanced(g, counts);
    forall m, n, p | m in g'.member && n in g'.member && m != n && p in g'.member[m].assignment ensures p !in g'.member[n].assignment {
      if m in g.order && n in g.order {
        SharesDisjoint(g, counts, topics, m, n, p);
      }
    }
  }

  /** A member that is not in the roster holds nothing, so it may as well hold the empty list. */
  predicate OthersEmpty(g: Group) {
    forall m :: m in g.member && !g.member[m].started ==> g.member[m].assignment == []
  }

  lemma RebalancedOthersEmpty(g: Group, counts: string -> nat)
    requires (forall m :: m in g.order ==> m in g.member && g.member[m].started) && OthersEmpty(g)
    ensures OthersEmpty(Rebalanced(g, counts))
  {
    hide Share, IndexOf;
  }

  lemma JoinOthersEmpty(g: Group, counts: string -> nat, m: MemberId)
    requires RosterSafe(g) && OthersEmpty(g) && m in g.member
    ensures OthersEmpty(Joined(g, counts, m))
  {
    hide Rebalanced, Distinct;
    if !g.member[m].started {
      RebalancedOthersEmpty(g.(member := g.member[m := g.member[m].(started := true)], order := g.order + [m]), counts);
    }
  }

  lemma LeaveOthersEmpty(g: Group, counts: string -> nat, m: MemberId)
    requires RosterSafe(g) && OthersEmpty(g) && m in g.member
    ensures OthersEmpty(Left(g, counts, m))
  {
    hide Rebalanced;
    if g.member[m].started {
      WithoutRemoves(g.order, m);
      var gone := g.member[m].(started := false, assignment := [], positions := map[]);
      RebalancedOthersEmpty(g.(member := g.member[m := gone], order := Without(g.order, m)), counts);
    }
  }

  lemma StepOthersEmpty(g: Group, ends: map<Partition, nat>, counts: string -> nat, step: Step)
    requires RosterSafe(g) && OthersEmpty(g)
    ensures OthersEmpty(GroupNext(g, ends, counts, step))
  {
    hide Joined, Left, Drain, CommitAll, SetOffset, RosterSafe;
    if step.Start? && step.m in g.member {
      JoinOthersEmpty(g, counts, step.m);
    } else if step.Stop? && step.m in g.member {
      LeaveOthersEmpty(g, counts, step.m);
    }
  }

  lemma JoinSteady(g: Group, ends: map<Partition, nat>, counts: string -> nat, topics: seq<string>, m: MemberId)
    requires GroupSafe(g, ends) && Steady(g, topics) && OthersEmpty(g) && Distinct(topics) && NobodyBusy(g) && m in g.member
    ensures Steady(Joined(g, counts, m), topics) && Joined(g, counts, m).committed == g.committed
  {
    hide Rebalanced, CommittedSafe, InOrder, MemberSafe, Accounted;
    if !g.member[m].started {
      RebalancedSteady(g.(member := g.member[m := g.member[m].(started := true)], order := g.order + [m]), counts, topics);
      RebalancedKeeps(g.(member := g.member[m := g.member[m].(started := true)], order := g.order + [m]), counts);
    }
  }

  lemma RebalancedKeeps(g: Group, counts: string -> nat)
    ensures Rebalanced(g, counts).committed == g.committed && Rebalanced(g, counts).member.Keys == g.member.Keys
    ensures forall m :: m in g.member ==> Rebalanced(g, counts).member[m].phase == g.member[m].phase
    ensures forall m :: m in g.member && m !in g.order ==> Rebalanced(g, counts).member[m] == g.member[m]
  {
    hide Share;
  }

  lemma LeaveSteady(g: Group, ends: map<Partition, nat>, counts: string -> nat, topics: seq<string>, m: MemberId)
    requires GroupSafe(g, ends) && Steady(g, topics) && OthersEmpty(g) && Distinct(topics) && NobodyBusy(g) && m in g.member
    ensures var g' := GroupNext(g, ends, counts, Stop(m)); Steady(g', topics) && g'.committed == g.committed
  {
    hide Rebalanced, CommittedSafe, InOrder, MemberSafe;
    if g.member[m].started {
      var gone := g.member[m].(started := false, assignment := [], positions := map[]);
      var left := g.(member := g.member[m := gone], order := Without(g.order, m));
      WithoutRemoves(g.order, m);
      RebalancedSteady(left, counts, topics);
      RebalancedKeeps(left, counts);
      if g.member[m].phase.Cancelled? {
        IdleAgain(Rebalanced(left, counts), topics, m);
      }
    } else if g.member[m].phase.Cancelled? {
      IdleAgain(g, topics, m);
    }
  }

  lemma IdleAgain(g: Group, topics: seq<string>, m: MemberId)
    requires Steady(g, topics) && m in g.member && g.member[m].phase.Cancelled? && g.member[m].positions == map[]
    ensures Steady(g.(member := g.member[m := g.member[m].(phase := Idle)]), topics)
  {
  }

  // One step.

  lemma OneMemberSteady(g: Group, topics: seq<string>, m: MemberId, mem: Member, h: seq<(Partition, nat)>)
    requires Steady(g, topics) && m in g.member && Fine(mem, g.committed)
    requires mem.topics == g.member[m].topics && mem.assignment == g.member[m].assignment
    ensures Steady(g.(member := g.member[m := mem], history := h), topics)
  {
    hide Fine;
  }

  lemma CommitSteady(g: Group, ends: map<Partition, nat>, counts: string -> nat, topics: seq<string>, m: MemberId)
    requires Steady(g, topics) && Finished(g, m)
    ensures var g' := GroupNext(g, ends, counts, Commit(m));
            Steady(g', topics) && forall p :: StartAt(g.committed, p) <= StartAt(g'.committed, p)
  {
    hide CommitAll, Accounted, Ahead, StartAt;
    var mem, g' := g.member[m], GroupNext(g, ends, counts, Commit(m));
    assert Fine(mem, g.committed);
    StartedWhileBusy(mem, g.committed);
    CommitAccounted(mem, g.committed);
    forall p ensures StartAt(g.committed, p) <= StartAt(g'.committed, p) {
      CommitGrows(mem, g.committed, p);
    }
    IdleIsAhead(mem.(phase := Idle), g'.committed);
    forall n | n in g.member && n != m ensures Fine(g.member[n], g'.committed) {
      forall p | p in g.member[n].assignment ensures StartAt(g'.committed, p) == StartAt(g.committed, p) {
        CommitGrows(mem, g.committed, p);
      }
      FineElsewhere(g.member[n], g.committed, g'.committed);
    }
  }

  lemma IdleIsAhead(mem: Member, committed: map<Partition, nat>)
    requires !mem.phase.Busy?
    ensures Ahead(mem, committed)
  {
  }

  lemma StepSteady(g: Group, ends: map<Partition, nat>, counts: string -> nat, topics: seq<string>, step: Step)
    requires GroupSafe(g, ends) && Steady(g, topics) && OthersEmpty(g) && Distinct(topics)
    requires step.Start? || step.Stop? ==> NobodyBusy(g)
    ensures var g' := GroupNext(g, ends, counts, step);
            Steady(g', topics) && forall p :: StartAt(g.committed, p) <= StartAt(g'.committed, p)
  {
    hide GroupSafe, Steady, OthersEmpty, Joined, Left, Polled, Succeeded, Halted, CommitAll;
    match step
    case Append(_) =>
    case Start(m) => if m in g.member { JoinSteady(g, ends, counts, topics, m); }
    case Stop(m) => if m in g.member { LeaveSteady(g, ends, counts, topics, m); }
    case Commit(m) => if Finished(g, m) { CommitSteady(g, ends, counts, topics, m); }
    case _ => if step.m in g.member { OwnStepSteady(g, ends, counts, topics, step); }
  }

  lemma OwnStepSteady(g: Group, ends: map<Partition, nat>, counts: string -> nat, topics: seq<string>, step: Step)
    requires Steady(g, topics) && (step.Poll? || step.Return? || step.Halt? || step.Cancel?) && step.m in g.member
    ensures var g' := GroupNext(g, ends, counts, step); Steady(g', topics) && g'.committed == g.committed
  {
    hide Drain, Accounted, Ahead, SetOffset, Disjoint, AllName;
    var m, mem := step.m, g.member[step.m];
    assert Fine(mem, g.committed);
    match step
    case Poll(_, room) =>
      if HasPositions(mem) {
        PollAhead(mem, g.committed, ends, room);
        OneMemberSteady(g, topics, m, Polled(mem, ends, room), g.history);
      }
    case Return(_) =>
      if Handling(g, m) {
        ReturnAhead(mem, g.committed);
        OneMemberSteady(g, topics, m, Succeeded(mem), GroupNext(g, ends, counts, step).history);
      }
    case Halt(_) =>
      if Handling(g, m) {
        HaltAhead(mem, g.committed);
        OneMemberSteady(g, topics, m, Halted(mem), g.history);
      }
    case Cancel(_) =>
      CancelAccounted(mem, g.committed);
      IdleIsAhead(mem.(phase := Cancelled), g.committed);
      OneMemberSteady(g, topics, m, mem.(phase := Cancelled), g.history);
  }

  // Whole runs.

  lemma {:induction false} RunSteady(w: World, counts: string -> nat, topics: seq<string>, steps: seq<Step>)
    requires GroupSafe(w.group, w.ends) && Steady(w.group, topics) && OthersEmpty(w.group) && Distinct(topics)
    requires Calm(w, counts, steps)
    ensures Steady(Run(w, counts, steps).group, topics) && OthersEmpty(Run(w, counts, steps).group)
  {
    hide GroupSafe, Steady, OthersEmpty, GroupNext, NobodyBusy, Distinct;
    if steps != [] {
      var front := steps[..|steps| - 1];
      var before := Run(w, counts, front);
      RunSteady(w, counts, topics, front);
      RunSafe(w, counts, front);
      Roster(before.group, before.ends);
      StepSteady(before.group, before.ends, counts, topics, steps[|steps| - 1]);
      StepOthersEmpty(before.group, before.ends, counts, steps[|steps| - 1]);
    }
  }

  lemma Roster(g: Group, ends: map<Partition, nat>)
    requires GroupSafe(g, ends)
    ensures RosterSafe(g)
  {
  }

  lemma FreshSteady(w: World, topics: seq<string>)
    requires Fresh(w) && AllName(w.group, topics)
    ensures GroupSafe(w.group, w.ends) && Steady(w.group, topics) && OthersEmpty(w.group)
  {
  }

  /** Committed offsets never move back, with any number of members, as long as they name the same
      topics and nobody joins or leaves while a batch is being handled: what was committed at any
      point of the run is still covered at its end. */
  lemma {:induction false} CommitsNeverMoveBack(w: World, counts: string -> nat, topics: seq<string>, steps: seq<Step>, n: nat, p: Partition)
    requires Fresh(w) && Distinct(topics) && AllName(w.group, topics) && Calm(w, counts, steps) && n <= |steps|
    ensures StartAt(Run(w, counts, steps[..n]).group.committed, p) <= StartAt(Run(w, counts, steps).group.committed, p)
    decreases |steps|
  {
    hide GroupNext, Fresh, StartAt, NobodyBusy, AllName, Distinct;
    if n == |steps| {
      assert steps[..n] == steps;
    } else {
      var front := steps[..|steps| - 1];
      var before := Run(w, counts, front);
      assert front[..n] == steps[..n];
      CommitsNeverMoveBack(w, counts, topics, front, n, p);
      FreshSteady(w, topics);
      RunSteady(w, counts, topics, front);
      RunSafe(w, counts, front);
      StepSteady(before.group, before.ends, counts, topics, steps[|steps| - 1]);
    }
  }

  /** And then every member between cycles, not only a sole one, is where a newly started member
      with its assignment would begin. */
  lemma EverybodyCanRestart(w: World, counts: string -> nat, topics: seq<string>, steps: seq<Step>, m: MemberId)
    requires Fresh(w) && Distinct(topics) && AllName(w.group, topics) && Calm(w, counts, steps)
    requires m in Run(w, counts, steps).group.member && Run(w, counts, steps).group.member[m].phase.Idle?
    ensures var g := Run(w, counts, steps).group; Applied(g.member[m], g.member[m].assignment, g.committed) == g.member[m]
  {
    FreshSteady(w, topics);
    RunSteady(w, counts, topics, steps);
    hide Run, Calm;
    IdlePositions(Run(w, counts, steps).group.member[m], Run(w, counts, steps).group.committed);
  }
}
