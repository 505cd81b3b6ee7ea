/** A consumer group step by step: the group and source halves of `src/kafka/memory.py` and the
    poll-handle-commit cycle of `src/kafka/runner.py`, as functions on values. The classes in
    `Broker` and `Runner` are proved against these functions; the theorems about whole runs
    are proved about them. */
module Groups {
  import opened Records
  import opened Assignment

  type MemberId = nat

  /** Offsets keyed by partition, in the insertion order a `dict` keeps. */
  type Offsets = seq<(Partition, nat)>

  /** The records of one partition still to be handled in a batch: offsets `next` to `end - 1`. */
  datatype Queue = Queue(partition: Partition, next: nat, end: nat)

  /** Where a member's runner is: between cycles, inside one, or unwinding from a cancellation. */
  datatype Phase = Idle | Busy(todo: seq<Queue>, commits: Offsets) | Cancelled

  datatype Member = Member(
    topics: seq<string>,
    started: bool,
    assignment: seq<Partition>,
    positions: map<Partition, nat>,
    phase: Phase)

  /** `history` is every normal return of the handler so far, in order. */
  datatype Group = Group(
    committed: map<Partition, nat>,
    order: seq<MemberId>,
    member: map<MemberId, Member>,
    history: seq<(Partition, nat)>)

  function EndOf(ends: map<Partition, nat>, p: Partition): nat {
    if p in ends then ends[p] else 0
  }

  /** `_starting_position`, reading from earliest. */
  function StartAt(committed: map<Partition, nat>, p: Partition): nat {
    if p in committed then committed[p] else 0
  }

  /** `_apply_assignment`. */
  function Applied(mem: Member, share: seq<Partition>, committed: map<Partition, nat>): Member {
    mem.(assignment := share, positions := map p | p in share :: StartAt(committed, p))
  }

  function IndexOf(order: seq<MemberId>, m: MemberId): (i: nat)
    requires m in order
    ensures i < |order| && order[i] == m
  {
    if order[0] == m then 0 else IndexOf(order[1..], m) + 1
  }

  /** `_rebalance`. */
  function Rebalanced(g: Group, counts: string -> nat): Group {
    g.(member := map m | m in g.member ::
         if m in g.order then
           Applied(g.member[m], Share(g.member[m].topics, counts, |g.order|, IndexOf(g.order, m)), g.committed)
         else g.member[m])
  }

  /** `start`. */
  function Joined(g: Group, counts: string -> nat, m: MemberId): Group
    requires m in g.member
  {
    if g.member[m].started then g
    else
      var order := if m in g.order then g.order else g.order + [m];
      Rebalanced(g.(member := g.member[m := g.member[m].(started := true)], order := order), counts)
  }

  function Without(order: seq<MemberId>, m: MemberId): seq<MemberId> {
    if order == [] then [] else if order[0] == m then order[1..] else [order[0]] + Without(order[1..], m)
  }

  /** `stop`. */
  function Left(g: Group, counts: string -> nat, m: MemberId): Group
    requires m in g.member
  {
    if !g.member[m].started then g
    else
      var gone := g.member[m].(started := false, assignment := [], positions := map[]);
      Rebalanced(g.(member := g.member[m := gone], order := Without(g.order, m)), counts)
  }

  datatype Drained = Drained(positions: map<Partition, nat>, queues: seq<Queue>)

  /** Adds offsets `from` to `to - 1` of `p` to the batch, grouped by partition. */
  function AddRun(queues: seq<Queue>, p: Partition, from: nat, to: nat): seq<Queue> {
    if queues == [] then [Queue(p, from, to)]
    else if queues[0].partition == p then [queues[0].(end := to)] + queues[1..]
    else [queues[0]] + AddRun(queues[1..], p, from, to)
  }

  function Available(position: nat, end: nat, room: nat): nat {
    if position >= end then 0 else if end - position < room then end - position else room
  }

  /** `_drain`, and the grouping `consume_once` does with what it returns. */
  function Drain(assignment: seq<Partition>, d: Drained, ends: map<Partition, nat>, room: nat): Drained
    requires forall p :: p in assignment ==> p in d.positions
    decreases |assignment|
  {
    if assignment == [] || room == 0 then d
    else
      var p := assignment[0];
      var at := d.positions[p];
      var n := Available(at, EndOf(ends, p), room);
      if n == 0 then Drain(assignment[1..], d, ends, room)
      else
        var d' := Drained(d.positions[p := at + n], AddRun(d.queues, p, at, at + n));
        Drain(assignment[1..], d', ends, room - n)
  }

  function SetOffset(offsets: Offsets, p: Partition, o: nat): Offsets {
    if offsets == [] then [(p, o)]
    else if offsets[0].0 == p then [(p, o)] + offsets[1..]
    else [offsets[0]] + SetOffset(offsets[1..], p, o)
  }

  /** The loop of `commit`: it stops at the first partition this member does not own, and what
      it stored before that stays stored. */
  function CommitAll(committed: map<Partition, nat>, assignment: seq<Partition>, offsets: Offsets): map<Partition, nat>
    decreases |offsets|
  {
    if offsets == [] || offsets[0].0 !in assignment then committed
    else CommitAll(committed[offsets[0].0 := offsets[0].1], assignment, offsets[1..])
  }

  /** `seek`, with the refusal for an unassigned partition swallowed as `_seek_back` does. */
  function Sought(mem: Member, p: Partition, o: nat): Member {
    if p in mem.assignment then mem.(positions := mem.positions[p := o]) else mem
  }

  function Pop(todo: seq<Queue>): seq<Queue>
    requires todo != []
  {
    if todo[0].next + 1 < todo[0].end then [todo[0].(next := todo[0].next + 1)] + todo[1..] else todo[1..]
  }

  // One member's moves.

  function Polled(mem: Member, ends: map<Partition, nat>, room: nat): Member
    requires forall p :: p in mem.assignment ==> p in mem.positions
  {
    if !mem.started || !mem.phase.Idle? then mem
    else
      var d := Drain(mem.assignment, Drained(mem.positions, []), ends, room);
      if d.queues == [] then mem else mem.(positions := d.positions, phase := Busy(d.queues, []))
  }

  /** The handler returned: the partition's commit point moves past the record. */
  function Succeeded(mem: Member): Member
    requires mem.phase.Busy? && mem.phase.todo != []
  {
    var q := mem.phase.todo[0];
    mem.(phase := Busy(Pop(mem.phase.todo), SetOffset(mem.phase.commits, q.partition, q.next + 1)))
  }

  /** The handler failed or deferred: seek back and give up on the partition's batch. */
  function Halted(mem: Member): Member
    requires mem.phase.Busy? && mem.phase.todo != []
  {
    var q := mem.phase.todo[0];
    Sought(mem, q.partition, q.next).(phase := Busy(mem.phase.todo[1..], mem.phase.commits))
  }

  // Steps of a group and its log ends.

  datatype World = World(ends: map<Partition, nat>, group: Group)

  datatype Step =
    | Append(p: Partition)
    | Start(m: MemberId)
    | Stop(m: MemberId)
    | Poll(m: MemberId, room: nat)
    | Return(m: MemberId)
    | Halt(m: MemberId)
    | Commit(m: MemberId)
    | Cancel(m: MemberId)

  predicate Handling(g: Group, m: MemberId) {
    m in g.member && g.member[m].phase.Busy? && g.member[m].phase.todo != []
  }

  predicate Finished(g: Group, m: MemberId) {
    m in g.member && g.member[m].phase.Busy? && g.member[m].phase.todo == []
  }

  /** A member tracks a position for the partitions it is assigned and for no others. */
  predicate HasPositions(mem: Member) {
    && (forall p :: p in mem.assignment ==> p in mem.positions)
    && (forall p :: p in mem.positions ==> p in mem.assignment)
  }

  function GroupNext(g: Group, ends: map<Partition, nat>, counts: string -> nat, step: Step): Group {
    match step
    case Append(_) => g
    case Start(m) => if m in g.member then Joined(g, counts, m) else g
    case Stop(m) =>
      if m !in g.member then g
      else
        // Leaving is the last thing a cancelled run does; a batch in flight goes on otherwise.
        var left := Left(g, counts, m);
        if m in left.member && left.member[m].phase.Cancelled? then
          left.(member := left.member[m := left.member[m].(phase := Idle)])
        else left
    case Poll(m, room) =>
      if m in g.member && HasPositions(g.member[m]) then
        g.(member := g.member[m := Polled(g.member[m], ends, room)])
      else g
    case Return(m) =>
      if !Handling(g, m) then g
      else
        var q := g.member[m].phase.todo[0];
        g.(member := g.member[m := Succeeded(g.member[m])], history := g.history + [(q.partition, q.next)])
    case Halt(m) =>
      if !Handling(g, m) then g else g.(member := g.member[m := Halted(g.member[m])])
    case Commit(m) =>
      if !Finished(g, m) then g
      else
        var mem := g.member[m];
        var committed := if mem.started then CommitAll(g.committed, mem.assignment, mem.phase.commits) else g.committed;
        g.(committed := committed, member := g.member[m := mem.(phase := Idle)])
    case Cancel(m) =>
      if m in g.member then g.(member := g.member[m := g.member[m].(phase := Cancelled)]) else g
  }

  function Next(w: World, counts: string -> nat, step: Step): World {
    var ends := if step.Append? then w.ends[step.p := EndOf(w.ends, step.p) + 1] else w.ends;
    World(ends, GroupNext(w.group, w.ends, counts, step))
  }

  function Run(w: World, counts: string -> nat, steps: seq<Step>): World {
    if steps == [] then w else Next(Run(w, counts, steps[..|steps| - 1]), counts, steps[|steps| - 1])
  }

  /** A group nobody has joined, over logs of any length. */
  predicate Fresh(w: World) {
    && w.group.committed == map[]
    && w.group.order == []
    && w.group.history == []
    && (forall m :: m in w.group.member ==>
          var mem := w.group.member[m];
          !mem.started && mem.assignment == [] && mem.positions == map[] && mem.phase.Idle?)
  }
}
