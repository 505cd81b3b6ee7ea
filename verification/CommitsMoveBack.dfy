/** Two runs in which a committed offset goes down: one in which a member joins and leaves while
    another is handling a batch, and one in which members name different topics. Neither condition
    of `SteadyGroups.CommitsNeverMoveBack` can be dropped. */
module CommitsMoveBack {
  import opened Records
  import opened Assignment
  import opened Groups
  import opened SteadyGroups

  function Off(topics: seq<string>): Member {
    Member(topics, false, [], map[], Idle)
  }

  function On(topics: seq<string>, assignment: seq<Partition>, positions: map<Partition, nat>, phase: Phase): Member {
    Member(topics, true, assignment, positions, phase)
  }

  /** A group of two. */
  function Pair(committed: map<Partition, nat>, order: seq<MemberId>, a: Member, b: Member, history: seq<(Partition, nat)>): Group {
    Group(committed, order, map[1 := a, 2 := b], history)
  }

  lemma Then(w: World, counts: string -> nat, steps: seq<Step>, step: Step)
    ensures Run(w, counts, steps + [step]) == Next(Run(w, counts, steps), counts, step)
  {
    hide Next;
    assert (steps + [step])[..|steps|] == steps;
  }

  /** What a step does to one of the two. */
  function With(g: Group, m: MemberId, mem: Member): Group {
    g.(member := g.member[m := mem])
  }

  lemma PairWith(committed: map<Partition, nat>, order: seq<MemberId>, a: Member, b: Member, history: seq<(Partition, nat)>, x: Member)
    ensures With(Pair(committed, order, a, b, history), 1, x) == Pair(committed, order, x, b, history)
    ensures With(Pair(committed, order, a, b, history), 2, x) == Pair(committed, order, a, x, history)
  {
    assert map[1 := a, 2 := b][1 := x] == map[1 := x, 2 := b];
    assert map[1 := a, 2 := b][2 := x] == map[1 := a, 2 := x];
  }

  lemma PollStep(g: Group, ends: map<Partition, nat>, counts: string -> nat, m: MemberId, room: nat)
    requires m in g.member && HasPositions(g.member[m])
    ensures GroupNext(g, ends, counts, Poll(m, room)) == With(g, m, Polled(g.member[m], ends, room))
  {
    hide Polled;
  }

  lemma ReturnStep(g: Group, ends: map<Partition, nat>, counts: string -> nat, m: MemberId)
    requires Handling(g, m)
    ensures var q := g.member[m].phase.todo[0];
            GroupNext(g, ends, counts, Return(m)) == With(g, m, Succeeded(g.member[m])).(history := g.history + [(q.partition, q.next)])
  {
    hide Succeeded;
  }

  lemma CommitStep(g: Group, ends: map<Partition, nat>, counts: string -> nat, m: MemberId)
    requires Finished(g, m) && g.member[m].started
    ensures GroupNext(g, ends, counts, Commit(m)) ==
            With(g, m, g.member[m].(phase := Idle)).(committed := CommitAll(g.committed, g.member[m].assignment, g.member[m].phase.commits))
  {
    hide CommitAll;
  }

  // One member overtakes another on a partition of two records.

  /** `a` has handled the first record of `p` and not committed it; `b` is assigned `p` alone. */
  function Behind(order: seq<MemberId>, a: Member, topics: seq<string>, p: Partition): Group {
    Pair(map[], order, a, On(topics, [p], map[p := 0], Idle), [(p, 0)])
  }

  function History(p: Partition): seq<(Partition, nat)> {
    [(p, 0), (p, 0), (p, 1)]
  }

  function Overtaken(order: seq<MemberId>, a: Member, topics: seq<string>, p: Partition): Group {
    Pair(map[p := 2], order, a, On(topics, [p], map[p := 2], Idle), History(p))
  }

  lemma PolledBoth(topics: seq<string>, p: Partition)
    ensures Polled(On(topics, [p], map[p := 0], Idle), map[p := 2], 2) ==
            On(topics, [p], map[p := 2], Busy([Queue(p, 0, 2)], []))
  {
    var d := Drained(map[p := 0], []);
    assert [p][1..] == [];
    var d' := Drained(map[p := 0][p := 2], [Queue(p, 0, 2)]);
    assert Drain([p], d, map[p := 2], 2) == Drain([], d', map[p := 2], 0) == d';
    assert map[p := 0][p := 2] == map[p := 2];
  }

  lemma ReturnedTwice(topics: seq<string>, p: Partition)
    ensures Succeeded(On(topics, [p], map[p := 2], Busy([Queue(p, 0, 2)], []))) ==
            On(topics, [p], map[p := 2], Busy([Queue(p, 1, 2)], [(p, 1)]))
    ensures Succeeded(On(topics, [p], map[p := 2], Busy([Queue(p, 1, 2)], [(p, 1)]))) ==
            On(topics, [p], map[p := 2], Busy([], [(p, 2)]))
  {
    assert Pop([Queue(p, 0, 2)]) == [Queue(p, 1, 2)] && Pop([Queue(p, 1, 2)]) == [];
    assert SetOffset([(p, 1)], p, 2) == [(p, 2)];
  }

  lemma CommittedOne(committed: map<Partition, nat>, assignment: seq<Partition>, p: Partition, o: nat)
    requires p in assignment
    ensures CommitAll(committed, assignment, [(p, o)]) == committed[p := o]
  {
    assert [(p, o)][1..] == [];
  }

  lemma Overtake(counts: string -> nat, order: seq<MemberId>, a: Member, topics: seq<string>, p: Partition)
    ensures var w := World(map[p := 2], Behind(order, a, topics, p));
            Run(w, counts, [Poll(2, 2), Return(2), Return(2), Commit(2)]) == World(map[p := 2], Overtaken(order, a, topics, p))
  {
    hide GroupNext, Polled, Succeeded, CommitAll, Run, With;
    var ends: map<Partition, nat> := map[p := 2];
    var w := World(ends, Behind(order, a, topics, p));
    var b0, b1 := On(topics, [p], map[p := 0], Idle), On(topics, [p], map[p := 2], Busy([Queue(p, 0, 2)], []));
    var b2, b3 := On(topics, [p], map[p := 2], Busy([Queue(p, 1, 2)], [(p, 1)])), On(topics, [p], map[p := 2], Busy([], [(p, 2)]));
    var g1, g2, g3 := Pair(map[], order, a, b1, [(p, 0)]), Pair(map[], order, a, b2, [(p, 0), (p, 0)]), Pair(map[], order, a, b3, History(p));
    PolledBoth(topics, p);
    ReturnedTwice(topics, p);
    PollStep(w.group, ends, counts, 2, 2);
    PairWith(map[], order, a, b0, [(p, 0)], b1);
    ReturnStep(g1, ends, counts, 2);
    PairWith(map[], order, a, b1, [(p, 0)], b2);
    ReturnStep(g2, ends, counts, 2);
    PairWith(map[], order, a, b2, [(p, 0), (p, 0)], b3);
    CommitStep(g3, ends, counts, 2);
    PairWith(map[], order, a, b3, History(p), b3.(phase := Idle));
    CommittedOne(map[], [p], p, 2);
    assert [(p, 0)] + [(p, 0)] == [(p, 0), (p, 0)] && [(p, 0), (p, 0)] + [(p, 1)] == History(p);
    var none: map<Partition, nat> := map[];
    assert none[p := 2] == map[p := 2];
    assert Next(w, counts, Poll(2, 2)) == World(ends, g1);
    assert Next(World(ends, g1), counts, Return(2)) == World(ends, g2);
    assert Next(World(ends, g2), counts, Return(2)) == World(ends, g3);
    assert Next(World(ends, g3), counts, Commit(2)) == World(ends, Overtaken(order, a, topics, p));
    Chain4(w, counts, Poll(2, 2), Return(2), Return(2), Commit(2));
  }

  lemma Chain4(w: World, counts: string -> nat, a: Step, b: Step, c: Step, d: Step)
    ensures Run(w, counts, [a, b, c, d]) == Next(Next(Next(Next(w, counts, a), counts, b), counts, c), counts, d)
  {
    hide Next;
    Then(w, counts, [], a);
    Then(w, counts, [a], b);
    Then(w, counts, [a, b], c);
    Then(w, counts, [a, b, c], d);
    assert [] + [a] == [a] && [a] + [b] == [a, b] && [a, b] + [c] == [a, b, c] && [a, b, c] + [d] == [a, b, c, d];
  }

  lemma {:induction false} Onward(w: World, counts: string -> nat, steps: seq<Step>, more: seq<Step>)
    ensures Run(w, counts, steps + more) == Run(Run(w, counts, steps), counts, more)
  {
    hide Next;
    if more == [] {
      assert steps + more == steps;
    } else {
      var front := more[..|more| - 1];
      assert (steps + more)[..|steps + more| - 1] == steps + front;
      Onward(w, counts, steps, front);
    }
  }

  // Joining and leaving.

  lemma DealtToOne(c: map<Partition, nat>, a: Member, b: Member, h: seq<(Partition, nat)>, counts: string -> nat)
    ensures Rebalanced(Pair(c, [1], a, b, h), counts) == Pair(c, [1], Applied(a, Share(a.topics, counts, 1, 0), c), b, h)
  {
    hide Share, Applied;
    assert IndexOf([1], 1) == 0;
    assert Rebalanced(Pair(c, [1], a, b, h), counts).member == map[1 := Applied(a, Share(a.topics, counts, 1, 0), c), 2 := b];
  }

  lemma DealtToBoth(c: map<Partition, nat>, a: Member, b: Member, h: seq<(Partition, nat)>, counts: string -> nat)
    ensures Rebalanced(Pair(c, [1, 2], a, b, h), counts) ==
            Pair(c, [1, 2], Applied(a, Share(a.topics, counts, 2, 0), c), Applied(b, Share(b.topics, counts, 2, 1), c), h)
  {
    hide Share, Applied;
    assert [1, 2][1..] == [2];
    assert IndexOf([1, 2], 1) == 0 && IndexOf([1, 2], 2) == 1;
    assert Rebalanced(Pair(c, [1, 2], a, b, h), counts).member ==
           map[1 := Applied(a, Share(a.topics, counts, 2, 0), c), 2 := Applied(b, Share(b.topics, counts, 2, 1), c)];
  }

  lemma FirstJoins(c: map<Partition, nat>, a: Member, b: Member, h: seq<(Partition, nat)>, ends: map<Partition, nat>, counts: string -> nat)
    requires !a.started
    ensures GroupNext(Pair(c, [], a, b, h), ends, counts, Start(1)) ==
            Pair(c, [1], Applied(a.(started := true), Share(a.topics, counts, 1, 0), c), b, h)
  {
    hide Share, Applied, Rebalanced;
    DealtToOne(c, a.(started := true), b, h, counts);
    PairWith(c, [], a, b, h, a.(started := true));
    assert [] + [1] == [1];
  }

  lemma SecondJoins(c: map<Partition, nat>, a: Member, b: Member, h: seq<(Partition, nat)>, ends: map<Partition, nat>, counts: string -> nat)
    requires !b.started
    ensures GroupNext(Pair(c, [1], a, b, h), ends, counts, Start(2)) ==
            Pair(c, [1, 2], Applied(a, Share(a.topics, counts, 2, 0), c), Applied(b.(started := true), Share(b.topics, counts, 2, 1), c), h)
  {
    hide Share, Applied, Rebalanced;
    DealtToBoth(c, a, b.(started := true), h, counts);
    PairWith(c, [1], a, b, h, b.(started := true));
    assert [1] + [2] == [1, 2];
  }

  lemma SecondLeaves(c: map<Partition, nat>, a: Member, b: Member, h: seq<(Partition, nat)>, ends: map<Partition, nat>, counts: string -> nat)
    requires b.started && b.phase.Idle?
    ensures GroupNext(Pair(c, [1, 2], a, b, h), ends, counts, Stop(2)) ==
            Pair(c, [1], Applied(a, Share(a.topics, counts, 1, 0), c), Off(b.topics), h)
  {
    hide Share, Applied, Rebalanced;
    DealtToOne(c, a, Off(b.topics), h, counts);
    PairWith(c, [1, 2], a, b, h, Off(b.topics));
    assert [1, 2][1..] == [2] && [2][1..] == [];
    assert Without([1, 2], 2) == [1];
  }

  // A run in which a member joins and leaves in the middle of another's batch.

  const P0 := Partition("t", 0)
  const P1 := Partition("t", 1)

  function TwoEach(topic: string): nat {
    2
  }

  lemma SharesOfTwo()
    ensures Share(["t"], TwoEach, 1, 0) == [P0, P1]
    ensures Share(["t"], TwoEach, 2, 0) == [P0]
    ensures Share(["t"], TwoEach, 2, 1) == [P1]
  {
    assert Sort(["t"]) == ["t"] by {
      assert Sort([]) == [];
    }
    assert PartitionsFor(["t"], TwoEach) == [P0, P1];
    var ps := [P0, P1];
    assert Dealt(ps, 1, 0, 2) == [] && Dealt(ps, 2, 0, 2) == [] && Dealt(ps, 2, 1, 2) == [];
    assert Dealt(ps, 1, 0, 1) == [P1] && Dealt(ps, 2, 0, 1) == [] && Dealt(ps, 2, 1, 1) == [P1];
  }

  /** The first member, somewhere on its one record of `P1`. */
  function Owner(assignment: seq<Partition>, positions: map<Partition, nat>, phase: Phase): Member {
    On(["t"], assignment, positions, phase)
  }

  function Unstarted(p: Partition, topics: seq<string>): World {
    World(map[p := 2], Pair(map[], [], Off(["t"]), Off(topics), []))
  }

  lemma PolledOne()
    ensures Polled(Owner([P0, P1], map[P0 := 0, P1 := 0], Idle), map[P1 := 2], 1) ==
            Owner([P0, P1], map[P0 := 0, P1 := 1], Busy([Queue(P1, 0, 1)], []))
  {
    var ends: map<Partition, nat> := map[P1 := 2];
    var d := Drained(map[P0 := 0, P1 := 0], []);
    var d' := Drained(map[P0 := 0, P1 := 0][P1 := 1], [Queue(P1, 0, 1)]);
    assert [P0, P1][1..] == [P1] && [P1][1..] == [];
    assert Drain([P0, P1], d, ends, 1) == Drain([P1], d, ends, 1) == Drain([], d', ends, 0) == d';
    assert map[P0 := 0, P1 := 0][P1 := 1] == map[P0 := 0, P1 := 1];
  }

  lemma AppliedTo(mem: Member, c: map<Partition, nat>)
    ensures Applied(mem, [P0, P1], c) == mem.(assignment := [P0, P1], positions := map[P0 := StartAt(c, P0), P1 := StartAt(c, P1)])
    ensures forall p: Partition :: Applied(mem, [p], c) == mem.(assignment := [p], positions := map[p := StartAt(c, p)])
  {
    assert (map p | p in [P0, P1] :: StartAt(c, p)) == map[P0 := StartAt(c, P0), P1 := StartAt(c, P1)];
    forall p: Partition ensures Applied(mem, [p], c) == mem.(assignment := [p], positions := map[p := StartAt(c, p)]) {
      assert (map x | x in [p] :: StartAt(c, x)) == map[p := StartAt(c, p)];
    }
  }

  function Pausing(): Member {
    Owner([P0], map[P0 := 0], Busy([], [(P1, 1)]))
  }

  lemma FirstHalf()
    ensures Run(Unstarted(P1, ["t"]), TwoEach, [Start(1), Poll(1, 1), Return(1), Start(2)]) ==
            World(map[P1 := 2], Behind([1, 2], Pausing(), ["t"], P1))
  {
    hide GroupNext, Polled, Succeeded, Run, With, Share, Applied;
    var ends: map<Partition, nat> := map[P1 := 2];
    var none: map<Partition, nat> := map[];
    var w, off := Unstarted(P1, ["t"]), Off(["t"]);
    var a1, a2 := Owner([P0, P1], map[P0 := 0, P1 := 0], Idle), Owner([P0, P1], map[P0 := 0, P1 := 1], Busy([Queue(P1, 0, 1)], []));
    var a3 := Owner([P0, P1], map[P0 := 0, P1 := 1], Busy([], [(P1, 1)]));
    SharesOfTwo();
    AppliedTo(off.(started := true), none);
    AppliedTo(a3, none);
    FirstJoins(none, off, off, [], ends, TwoEach);
    assert Next(w, TwoEach, Start(1)) == World(ends, Pair(none, [1], a1, off, []));
    PolledOne();
    PollStep(Pair(none, [1], a1, off, []), ends, TwoEach, 1, 1);
    PairWith(none, [1], a1, off, [], a2);
    assert Next(World(ends, Pair(none, [1], a1, off, [])), TwoEach, Poll(1, 1)) == World(ends, Pair(none, [1], a2, off, []));
    ReturnedOnce(["t"], [P0, P1], map[P0 := 0, P1 := 1], P1);
    ReturnStep(Pair(none, [1], a2, off, []), ends, TwoEach, 1);
    PairWith(none, [1], a2, off, [], a3);
    assert [] + [(P1, 0)] == [(P1, 0)];
    assert Next(World(ends, Pair(none, [1], a2, off, [])), TwoEach, Return(1)) == World(ends, Pair(none, [1], a3, off, [(P1, 0)]));
    SecondJoins(none, a3, off, [(P1, 0)], ends, TwoEach);
    assert Next(World(ends, Pair(none, [1], a3, off, [(P1, 0)])), TwoEach, Start(2)) == World(ends, Behind([1, 2], Pausing(), ["t"], P1));
    Chain4(w, TwoEach, Start(1), Poll(1, 1), Return(1), Start(2));
  }

  lemma ReturnedOnce(topics: seq<string>, assignment: seq<Partition>, positions: map<Partition, nat>, p: Partition)
    ensures Succeeded(On(topics, assignment, positions, Busy([Queue(p, 0, 1)], []))) == On(topics, assignment, positions, Busy([], [(p, 1)]))
  {
    assert Pop([Queue(p, 0, 1)]) == [];
  }

  lemma SecondHalf()
    ensures var w := World(map[P1 := 2], Overtaken([1, 2], Pausing(), ["t"], P1));
            Run(w, TwoEach, [Stop(2), Commit(1)]).group.committed == map[P1 := 1]
  {
    hide GroupNext, Run, With, Share, Applied, CommitAll;
    var ends: map<Partition, nat> := map[P1 := 2];
    var c: map<Partition, nat> := map[P1 := 2];
    var b := On(["t"], [P1], map[P1 := 2], Idle);
    var w := World(ends, Overtaken([1, 2], Pausing(), ["t"], P1));
    var a := Owner([P0, P1], map[P0 := 0, P1 := 2], Busy([], [(P1, 1)]));
    SharesOfTwo();
    AppliedTo(Pausing(), c);
    SecondLeaves(c, Pausing(), b, History(P1), ends, TwoEach);
    var g := Pair(c, [1], a, Off(["t"]), History(P1));
    assert Next(w, TwoEach, Stop(2)) == World(ends, g);
    CommitStep(g, ends, TwoEach, 1);
    CommittedOne(c, [P0, P1], P1, 1);
    assert c[P1 := 1] == map[P1 := 1];
    KeepsCommitted(g, 1, a.(phase := Idle));
    Then(w, TwoEach, [], Stop(2));
    Then(w, TwoEach, [Stop(2)], Commit(1));
    assert [] + [Stop(2)] == [Stop(2)] && [Stop(2)] + [Commit(1)] == [Stop(2), Commit(1)];
    RunNothing(w, TwoEach);
  }

  lemma KeepsCommitted(g: Group, m: MemberId, mem: Member)
    ensures With(g, m, mem).committed == g.committed
  {
  }

  lemma RunNothing(w: World, counts: string -> nat)
    ensures Run(w, counts, []) == w
  {
  }

  /** Two members of one topic. The second joins while the first is between handling a record and
      committing it, reads the partition from the start, commits past two records and leaves; the
      first has the partition again by the time it commits the one. */
  lemma JoiningMidBatchMovesBack()
    ensures var w := Unstarted(P1, ["t"]);
            var steps := [Start(1), Poll(1, 1), Return(1), Start(2)] + [Poll(2, 2), Return(2), Return(2), Commit(2)];
            && Fresh(w) && AllName(w.group, ["t"])
            && Run(w, TwoEach, steps).group.committed == map[P1 := 2]
            && Run(w, TwoEach, steps + [Stop(2), Commit(1)]).group.committed == map[P1 := 1]
  {
    hide Run;
    var w, first := Unstarted(P1, ["t"]), [Start(1), Poll(1, 1), Return(1), Start(2)];
    var steps := first + [Poll(2, 2), Return(2), Return(2), Commit(2)];
    FirstHalf();
    Overtake(TwoEach, [1, 2], Pausing(), ["t"], P1);
    Onward(w, TwoEach, first, [Poll(2, 2), Return(2), Return(2), Commit(2)]);
    SecondHalf();
    Onward(w, TwoEach, steps, [Stop(2), Commit(1)]);
  }

  // A calm run in which members name different topics and both own one partition.

  function OneEach(topic: string): nat {
    1
  }

  lemma SharesOverlap()
    ensures Share(["t"], OneEach, 1, 0) == [P0]
    ensures Share(["t"], OneEach, 2, 0) == [P0]
    ensures Share(["a", "t"], OneEach, 2, 1) == [P0]
  {
    assert Sort(["t"]) == ["t"] by {
      assert Sort([]) == [];
    }
    assert Sort(["a", "t"]) == ["a", "t"] by {
      assert ["a", "t"][1..] == ["t"];
      assert AtMost("a", "t");
    }
    assert Concat(["t"], OneEach) == [P0];
    assert ["a", "t"][1..] == ["t"];
    assert Concat(["a", "t"], OneEach) == [Partition("a", 0), P0];
    var ps := [Partition("a", 0), P0];
    assert Dealt(ps, 2, 1, 2) == [] && Dealt(ps, 2, 1, 1) == [P0];
    assert Dealt([P0], 1, 0, 1) == [] && Dealt([P0], 2, 0, 1) == [];
  }

  function Waiting(): Member {
    Owner([P0], map[P0 := 1], Busy([], [(P0, 1)]))
  }

  lemma PolledFirst()
    ensures Polled(Owner([P0], map[P0 := 0], Idle), map[P0 := 2], 1) == Owner([P0], map[P0 := 1], Busy([Queue(P0, 0, 1)], []))
  {
    var ends: map<Partition, nat> := map[P0 := 2];
    var d := Drained(map[P0 := 0], []);
    var d' := Drained(map[P0 := 0][P0 := 1], [Queue(P0, 0, 1)]);
    assert [P0][1..] == [];
    assert Drain([P0], d, ends, 1) == Drain([], d', ends, 0) == d';
    assert map[P0 := 0][P0 := 1] == map[P0 := 1];
  }

  lemma BothOwn()
    ensures Run(Unstarted(P0, ["a", "t"]), OneEach, [Start(1), Start(2), Poll(1, 1), Return(1)]) ==
            World(map[P0 := 2], Behind([1, 2], Waiting(), ["a", "t"], P0))
  {
    hide GroupNext, Polled, Succeeded, Run, With, Share, Applied;
    var ends: map<Partition, nat> := map[P0 := 2];
    var none: map<Partition, nat> := map[];
    var w, off := Unstarted(P0, ["a", "t"]), Off(["a", "t"]);
    var a1, a2 := Owner([P0], map[P0 := 0], Idle), Owner([P0], map[P0 := 1], Busy([Queue(P0, 0, 1)], []));
    var b := On(["a", "t"], [P0], map[P0 := 0], Idle);
    SharesOverlap();
    AppliedTo(Off(["t"]).(started := true), none);
    AppliedTo(a1, none);
    AppliedTo(off.(started := true), none);
    FirstJoins(none, Off(["t"]), off, [], ends, OneEach);
    assert Next(w, OneEach, Start(1)) == World(ends, Pair(none, [1], a1, off, []));
    SecondJoins(none, a1, off, [], ends, OneEach);
    assert Next(World(ends, Pair(none, [1], a1, off, [])), OneEach, Start(2)) == World(ends, Pair(none, [1, 2], a1, b, []));
    PolledFirst();
    PollStep(Pair(none, [1, 2], a1, b, []), ends, OneEach, 1, 1);
    PairWith(none, [1, 2], a1, b, [], a2);
    assert Next(World(ends, Pair(none, [1, 2], a1, b, [])), OneEach, Poll(1, 1)) == World(ends, Pair(none, [1, 2], a2, b, []));
    ReturnedOnce(["t"], [P0], map[P0 := 1], P0);
    ReturnStep(Pair(none, [1, 2], a2, b, []), ends, OneEach, 1);
    PairWith(none, [1, 2], a2, b, [], Waiting());
    assert [] + [(P0, 0)] == [(P0, 0)];
    assert Next(World(ends, Pair(none, [1, 2], a2, b, [])), OneEach, Return(1)) == World(ends, Behind([1, 2], Waiting(), ["a", "t"], P0));
    Chain4(w, OneEach, Start(1), Start(2), Poll(1, 1), Return(1));
  }

  lemma CommitsLate()
    ensures var w := World(map[P0 := 2], Overtaken([1, 2], Waiting(), ["a", "t"], P0));
            Run(w, OneEach, [Commit(1)]).group.committed == map[P0 := 1]
  {
    hide GroupNext, Run, With, CommitAll;
    var c: map<Partition, nat> := map[P0 := 2];
    var w := World(map[P0 := 2], Overtaken([1, 2], Waiting(), ["a", "t"], P0));
    CommitStep(w.group, w.ends, OneEach, 1);
    CommittedOne(c, [P0], P0, 1);
    assert c[P0 := 1] == map[P0 := 1];
    KeepsCommitted(w.group, 1, Waiting().(phase := Idle));
    Then(w, OneEach, [], Commit(1));
    assert [] + [Commit(1)] == [Commit(1)];
    RunNothing(w, OneEach);
  }

  lemma {:induction false} CalmAfterwards(w: World, counts: string -> nat, steps: seq<Step>, more: seq<Step>)
    requires Calm(w, counts, steps) && forall i :: 0 <= i < |more| ==> !more[i].Start? && !more[i].Stop?
    ensures Calm(w, counts, steps + more)
  {
    hide Run;
    if more == [] {
      assert steps + more == steps;
    } else {
      var front := more[..|more| - 1];
      assert (steps + more)[..|steps + more| - 1] == steps + front;
      CalmAfterwards(w, counts, steps, front);
    }
  }

  lemma BothJoinCalmly()
    ensures Calm(Unstarted(P0, ["a", "t"]), OneEach, [Start(1), Start(2)])
  {
    hide GroupNext, Run, Share;
    var w, off := Unstarted(P0, ["a", "t"]), Off(["a", "t"]);
    FirstJoins(map[], Off(["t"]), off, [], w.ends, OneEach);
    RunNothing(w, OneEach);
    Then(w, OneEach, [], Start(1));
    assert [] + [Start(1)] == [Start(1)];
    assert [Start(1), Start(2)][..1] == [Start(1)] && [Start(1)][..0] == [];
    assert Calm(w, OneEach, []);
    assert Calm(w, OneEach, [Start(1)]);
  }

  /** Members that name different topics can own one partition together, and then the slower of the
      two takes its committed offset back, although nobody joins or leaves after the start. */
  lemma DifferentTopicsMoveBack()
    ensures var w := Unstarted(P0, ["a", "t"]);
            var steps := [Start(1), Start(2), Poll(1, 1), Return(1)] + [Poll(2, 2), Return(2), Return(2), Commit(2)];
            && Fresh(w) && Calm(w, OneEach, steps + [Commit(1)])
            && Run(w, OneEach, steps).group.committed == map[P0 := 2]
            && Run(w, OneEach, steps + [Commit(1)]).group.committed == map[P0 := 1]
  {
    hide Run;
    var w, first := Unstarted(P0, ["a", "t"]), [Start(1), Start(2), Poll(1, 1), Return(1)];
    var steps := first + [Poll(2, 2), Return(2), Return(2), Commit(2)];
    BothOwn();
    Overtake(OneEach, [1, 2], Waiting(), ["a", "t"], P0);
    Onward(w, OneEach, first, [Poll(2, 2), Return(2), Return(2), Commit(2)]);
    CommitsLate();
    Onward(w, OneEach, steps, [Commit(1)]);
    BothJoinCalmly();
    var rest := [Poll(1, 1), Return(1), Poll(2, 2), Return(2), Return(2), Commit(2), Commit(1)];
    CalmAfterwards(w, OneEach, [Start(1), Start(2)], rest);
    assert [Start(1), Start(2)] + rest == steps + [Commit(1)];
  }
}
