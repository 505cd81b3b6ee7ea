/** Runs of any number of lock blocks over one store, together with everything else that may happen
    to it: what a block's ending says about the time it was open. */
module LockBlocks {
  import opened Leases
  import opened Fencing
  import opened DistributedLock

  type BlockId = nat

  /** `since` is, for a block that has been entered, the position of its acquisition. */
  datatype Site = Site(fenced: World, locks: map<BlockId, LockView>, since: map<BlockId, nat>)

  /** A block's own calls, with the clock readings they take, or any other step of the store. */
  datatype Act =
    | Enter(b: BlockId, at: real, started: real, look: real)
    | Renew(b: BlockId, reachable: bool, at: real, started: real)
    | Exit(b: BlockId, reachable: bool, at: real, bodyFailed: bool)
    | Other(step: Step)

  predicate Possible(site: Site, act: Act) {
    && (!act.Other? ==> act.b in site.locks && ValidName(site.locks[act.b].name) && site.fenced.now <= act.at)
    && (act.Enter? ==> act.at <= act.started <= act.look)
    && (act.Renew? ==> act.at <= act.started)
  }

  /** The steps of the store a block's call takes. */
  function StepsOf(site: Site, act: Act): seq<Step>
    requires Possible(site, act)
  {
    match act
    case Enter(b, at, started, look) =>
      var v := site.locks[b];
      if v.lease.Some? then []
      else
        var attempt := Step.Acquire(v.name, v.owner, v.ttl, at, started);
        if Acquired(site.fenced.store, v.name, v.owner, v.ttl, at, started).1.Some? then [attempt]
        else [attempt, Step.Inspect(v.name, look)]
    case Renew(b, reachable, at, started) =>
      if site.locks[b].lease.None? || !reachable || b !in site.since then []
      else [Step.Extend(site.since[b], site.locks[b].ttl, at, started)]
    case Exit(b, reachable, at, _) =>
      if site.locks[b].lease.None? || !reachable || b !in site.since then []
      else [Step.Release(site.since[b], at)]
    case Other(step) => [step]
  }

  /** The lock object after a call. */
  function LockAfter(site: Site, act: Act): LockView
    requires Possible(site, act) && !act.Other?
  {
    var v, s := site.locks[act.b], site.fenced.store;
    match act
    case Enter(_, at, started, look) => Entered(v, s, at, started, look).0
    case Renew(_, reachable, at, started) => Renewed(v, s, reachable, at, started).0
    case Exit(_, reachable, at, bodyFailed) => Exited(v, s, reachable, at, bodyFailed).0
  }

  function Advanced(site: Site, guard: Resource -> string, act: Act): Site {
    if !Possible(site, act) then site
    else
      var fenced := Run(site.fenced, guard, StepsOf(site, act));
      if act.Other? then site.(fenced := fenced)
      else
        var v := LockAfter(site, act);
        var since :=
          if act.Enter? && site.locks[act.b].lease.None? && v.lease.Some? then site.since[act.b := |site.fenced.issued|]
          else site.since;
        Site(fenced, site.locks[act.b := v], since)
  }

  function RunBlocks(site: Site, guard: Resource -> string, acts: seq<Act>): Site {
    if acts == [] then site else Advanced(RunBlocks(site, guard, acts[..|acts| - 1]), guard, acts[|acts| - 1])
  }

  predicate Opened(site: Site) {
    Fresh(site.fenced) && forall b :: b in site.locks ==> site.locks[b].lease.None?
  }

  /** The lease a block holds, renewed or not, is its own acquisition; and a block that has been told
      its lease is lost is right. */
  predicate Tied(w: World, locks: map<BlockId, LockView>, since: map<BlockId, nat>, b: BlockId)
    requires b in locks
  {
    var v := locks[b];
    v.lease.Some? ==>
      && b in since && since[b] < |w.issued|
      && v.name == v.lease.value.name == w.issued[since[b]].name
      && v.lease.value.token == w.issued[since[b]].token
      && (v.lost ==> Lost(w, since[b]))
  }

  predicate AllTied(site: Site) {
    forall b :: b in site.locks ==> Tied(site.fenced, site.locks, site.since, b)
  }

  lemma OthersStayTied(site: Site, guard: Resource -> string, steps: seq<Step>, b: BlockId)
    requires Safe(site.fenced, guard) && b in site.locks && Tied(site.fenced, site.locks, site.since, b)
    ensures Tied(Run(site.fenced, guard, steps), site.locks, site.since, b)
  {
    hide Safe, Run, Lost;
    RunGrows(site.fenced, guard, steps);
    var v := site.locks[b];
    if v.lease.Some? && v.lost {
      LostStaysLost(site.fenced, guard, steps, site.since[b]);
    }
  }

  lemma EnterTied(site: Site, guard: Resource -> string, act: Act)
    requires Safe(site.fenced, guard) && AllTied(site) && Possible(site, act) && act.Enter?
    ensures var after := Advanced(site, guard, act); Tied(after.fenced, after.locks, after.since, act.b)
  {
    hide Safe;
    var v := site.locks[act.b];
    if v.lease.None? {
      var attempt := Step.Acquire(v.name, v.owner, v.ttl, act.at, act.started);
      assert [attempt][..0] == [];
      assert Run(site.fenced, guard, [attempt]) == Next(site.fenced, guard, attempt);
    } else {
      assert Run(site.fenced, guard, []) == site.fenced;
      assert Tied(site.fenced, site.locks, site.since, act.b);
    }
  }

  lemma RenewTied(site: Site, guard: Resource -> string, act: Act)
    requires Safe(site.fenced, guard) && AllTied(site) && Possible(site, act) && act.Renew?
    ensures var after := Advanced(site, guard, act); Tied(after.fenced, after.locks, after.since, act.b)
  {
    hide Safe;
    var v := site.locks[act.b];
    assert Tied(site.fenced, site.locks, site.since, act.b);
    if v.lease.Some? && act.reachable {
      var step := Step.Extend(site.since[act.b], v.ttl, act.at, act.started);
      assert [step][..0] == [];
      assert Run(site.fenced, guard, [step]) == Next(site.fenced, guard, step);
    }
  }

  /** The steps taken do to the store exactly what the lock's call does to its backend. */
  lemma CallIsItsSteps(site: Site, guard: Resource -> string, act: Act)
    requires Safe(site.fenced, guard) && AllTied(site) && Possible(site, act) && !act.Other?
    ensures var v, s, s' := site.locks[act.b], site.fenced.store, Advanced(site, guard, act).fenced.store;
            match act
            case Enter(_, at, started, look) => s' == Entered(v, s, at, started, look).1
            case Renew(_, reachable, at, started) => s' == Renewed(v, s, reachable, at, started).1
            case Exit(_, reachable, at, bodyFailed) => s' == Exited(v, s, reachable, at, bodyFailed).1
            case Other(_) => true
  {
    hide Safe;
    assert Tied(site.fenced, site.locks, site.since, act.b);
    var steps := StepsOf(site, act);
    assert Run(site.fenced, guard, []) == site.fenced;
    if |steps| == 1 {
      assert steps[..0] == [];
      assert Run(site.fenced, guard, steps) == Next(site.fenced, guard, steps[0]);
    } else if |steps| == 2 {
      assert steps[..1] == [steps[0]] && [steps[0]][..0] == [];
      assert Run(site.fenced, guard, [steps[0]]) == Next(site.fenced, guard, steps[0]);
    }
  }

  lemma ActTied(site: Site, guard: Resource -> string, act: Act)
    requires Safe(site.fenced, guard) && AllTied(site)
    ensures Safe(Advanced(site, guard, act).fenced, guard) && AllTied(Advanced(site, guard, act))
  {
    hide Safe, Tied, Run, Entered, Renewed, Exited;
    if Possible(site, act) {
      var steps, after := StepsOf(site, act), Advanced(site, guard, act);
      RunSafe(site.fenced, guard, steps);
      forall b | b in after.locks ensures Tied(after.fenced, after.locks, after.since, b) {
        if act.Other? || b != act.b {
          OthersStayTied(site, guard, steps, b);
          SameBlock(after.fenced, site, after, b);
        } else if act.Enter? {
          EnterTied(site, guard, act);
        } else if act.Renew? {
          RenewTied(site, guard, act);
        } else {
          ExitTied(site, guard, act);
        }
      }
    }
  }

  lemma SameBlock(w: World, site: Site, after: Site, b: BlockId)
    requires b in site.locks && b in after.locks && site.locks[b] == after.locks[b]
    requires b in site.since <==> b in after.since
    requires b in site.since ==> site.since[b] == after.since[b]
    requires Tied(w, site.locks, site.since, b)
    ensures Tied(w, after.locks, after.since, b)
  {
  }

  lemma ExitTied(site: Site, guard: Resource -> string, act: Act)
    requires Possible(site, act) && act.Exit?
    ensures var after := Advanced(site, guard, act); Tied(after.fenced, after.locks, after.since, act.b)
  {
    hide Run, Freed;
  }

  lemma {:induction false} BlocksTied(site: Site, guard: Resource -> string, acts: seq<Act>)
    requires Safe(site.fenced, guard) && AllTied(site)
    ensures Safe(RunBlocks(site, guard, acts).fenced, guard) && AllTied(RunBlocks(site, guard, acts))
  {
    hide Safe, AllTied, Advanced;
    if acts != [] {
      BlocksTied(site, guard, acts[..|acts| - 1]);
      ActTied(RunBlocks(site, guard, acts[..|acts| - 1]), guard, acts[|acts| - 1]);
    }
  }

  /** A block that ends quietly, whose body did not fail, and whose store answered, was protected:
      from its acquisition to its end no other acquisition of the name succeeded, whatever was
      renewed, refused, waited for or attempted in between. And the error is raised exactly when
      the store does not confirm the release; the lost flag never says more than that. */
  lemma QuietBlockWasProtected(site: Site, guard: Resource -> string, acts: seq<Act>, b: BlockId, at: real)
    requires Opened(site)
    requires var end := RunBlocks(site, guard, acts); b in end.locks && end.locks[b].lease.Some?
    ensures var end := RunBlocks(site, guard, acts);
            var v := end.locks[b];
            var ending := Exited(v, end.fenced.store, true, at, false).2;
            var outcome := Freed(end.fenced.store, v.name, v.lease.value.token, at).1;
            && b in end.since && end.since[b] < |end.fenced.issued|
            && end.fenced.issued[end.since[b]].name == v.name
            && (ending == Quiet <==> outcome == Released)
            && (ending == Quiet ==>
                  forall k :: end.since[b] < k < |end.fenced.issued| ==> end.fenced.issued[k].name != v.name)
  {
    BlocksTied(site, guard, acts);
    hide RunBlocks, Safe;
    var end := RunBlocks(site, guard, acts);
    assert Tied(end.fenced, end.locks, end.since, b);
    var v, i := end.locks[b], end.since[b];
    if Freed(end.fenced.store, v.name, v.lease.value.token, at).1 == Released {
      assert Run(end.fenced, guard, []) == end.fenced;
      ConfirmedExit(end.fenced, guard, i, [], at);
    }
  }
}
