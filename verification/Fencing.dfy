/** Whole runs of a lock store and the resources its tokens guard: any number of holders that
    acquire, renew, expire, release late, pause for any length of time and write when they wake. */
module Fencing {
  import opened Prelude
  import opened Leases

  /** A successful acquisition, in the order the store granted them. */
  datatype Issue = Issue(name: string, token: nat, owner: string)

  type Resource = nat

  /** `last` is the highest token each resource has applied; `accepted` lists the writes applied,
      each by its resource and the position in `issued` of the acquisition it was made under. */
  datatype World = World(
    store: Store,
    now: real,
    issued: seq<Issue>,
    last: map<Resource, nat>,
    accepted: seq<(Resource, nat)>)

  /** Every step names the clock readings it takes; a reading earlier than one already taken
      never happens, and such a step leaves the world alone. `i` is a position in `issued`. */
  datatype Step =
    | Acquire(name: string, owner: string, ttl: real, at: real, started: real)
    | Extend(i: nat, ttl: real, at: real, started: real)
    | Release(i: nat, at: real)
    | Inspect(name: string, at: real)
    | Clear
    | Write(resource: Resource, i: nat)

  function LastAccepted(w: World, r: Resource): Option<nat> {
    if r in w.last then Some(w.last[r]) else None
  }

  predicate MayWrite(w: World, guard: Resource -> string, r: Resource, i: nat) {
    i < |w.issued| && w.issued[i].name == guard(r)
  }

  predicate Accepts(w: World, guard: Resource -> string, r: Resource, i: nat) {
    MayWrite(w, guard, r, i) && FenceIsCurrent(w.issued[i].token, LastAccepted(w, r))
  }

  function Next(w: World, guard: Resource -> string, step: Step): World {
    match step
    case Acquire(name, owner, ttl, at, started) =>
      if !(w.now <= at <= started) || !ValidName(name) then w
      else
        var (s, token) := Acquired(w.store, name, owner, ttl, at, started);
        w.(store := s, now := started,
           issued := if token.Some? then w.issued + [Issue(name, token.value, owner)] else w.issued)
    case Extend(i, ttl, at, started) =>
      if !(w.now <= at <= started) || i >= |w.issued| then w
      else w.(store := Extended(w.store, w.issued[i].name, w.issued[i].token, ttl, at, started).0, now := started)
    case Release(i, at) =>
      if w.now > at || i >= |w.issued| then w
      else w.(store := Freed(w.store, w.issued[i].name, w.issued[i].token, at).0, now := at)
    case Inspect(name, at) =>
      if w.now > at then w else w.(store := Purged(w.store, name, at), now := at)
    case Clear => w.(store := w.store.(held := map[]))
    case Write(r, i) =>
      if Accepts(w, guard, r, i) then
        w.(last := w.last[r := w.issued[i].token], accepted := w.accepted + [(r, i)])
      else w
  }

  function Run(w: World, guard: Resource -> string, steps: seq<Step>): World {
    if steps == [] then w else Next(Run(w, guard, steps[..|steps| - 1]), guard, steps[|steps| - 1])
  }

  predicate Fresh(w: World) {
    w.store == Store(map[], map[]) && w.issued == [] && w.last == map[] && w.accepted == []
  }

  /** Tokens of a name grow with every acquisition of it. */
  predicate TokensRise(issued: seq<Issue>) {
    forall j, k :: 0 <= j < k < |issued| && issued[j].name == issued[k].name ==> issued[j].token < issued[k].token
  }

  predicate CountersCover(s: Store, issued: seq<Issue>) {
    forall j :: 0 <= j < |issued| ==> 0 < issued[j].token <= Counter(s, issued[j].name)
  }

  predicate LatestIssue(s: Store, issued: seq<Issue>, name: string, held: Held) {
    held.token == Counter(s, name) && Issue(name, held.token, held.owner) in issued
  }

  /** Whatever is held was granted by the latest acquisition of its name. */
  predicate HeldIsLatest(s: Store, issued: seq<Issue>) {
    forall name :: name in s.held ==> LatestIssue(s, issued, name, s.held[name])
  }

  /** Each resource applied its writes in the order their acquisitions were granted. */
  predicate WritesRise(issued: seq<Issue>, accepted: seq<(Resource, nat)>) {
    forall j, k :: 0 <= j < k < |accepted| && accepted[j].0 == accepted[k].0 ==> accepted[j].1 < accepted[k].1
  }

  predicate WritesGuarded(issued: seq<Issue>, accepted: seq<(Resource, nat)>, last: map<Resource, nat>, guard: Resource -> string) {
    forall j :: 0 <= j < |accepted| ==>
      && accepted[j].1 < |issued|
      && issued[accepted[j].1].name == guard(accepted[j].0)
      && accepted[j].0 in last && issued[accepted[j].1].token <= last[accepted[j].0]
  }

  /** What a resource compares with is the token of a write it applied. */
  predicate LastIsAccepted(issued: seq<Issue>, accepted: seq<(Resource, nat)>, last: map<Resource, nat>) {
    forall r :: r in last ==>
      exists j :: 0 <= j < |accepted| && accepted[j].0 == r && accepted[j].1 < |issued| && issued[accepted[j].1].token == last[r]
  }

  predicate Safe(w: World, guard: Resource -> string) {
    && TokensRise(w.issued)
    && CountersCover(w.store, w.issued)
    && HeldIsLatest(w.store, w.issued)
    && WritesRise(w.issued, w.accepted)
    && WritesGuarded(w.issued, w.accepted, w.last, guard)
    && LastIsAccepted(w.issued, w.accepted, w.last)
  }

  lemma GrantSafe(w: World, guard: Resource -> string, name: string, owner: string, ttl: real, at: real, started: real)
    requires Safe(w, guard)
    ensures var (s, token) := Acquired(w.store, name, owner, ttl, at, started);
            token.Some? ==>
              var issued := w.issued + [Issue(name, token.value, owner)];
              && TokensRise(issued) && CountersCover(s, issued) && HeldIsLatest(s, issued)
              && WritesGuarded(issued, w.accepted, w.last, guard) && LastIsAccepted(issued, w.accepted, w.last)
  {
    var (s, token) := Acquired(w.store, name, owner, ttl, at, started);
    if token.Some? {
      var issue := Issue(name, token.value, owner);
      var issued := w.issued + [issue];
      assert issued[|w.issued|] == issue;
      forall other | other in s.held ensures LatestIssue(s, issued, other, s.held[other]) {
        assert other != name ==> LatestIssue(w.store, w.issued, other, w.store.held[other]);
      }
      LastStays(w.issued, issued, w.accepted, w.last);
    }
  }

  lemma LastStays(issued: seq<Issue>, more: seq<Issue>, accepted: seq<(Resource, nat)>, last: map<Resource, nat>)
    requires LastIsAccepted(issued, accepted, last) && issued <= more
    ensures LastIsAccepted(more, accepted, last)
  {
    forall r | r in last
      ensures exists j :: 0 <= j < |accepted| && accepted[j].0 == r && accepted[j].1 < |more| && more[accepted[j].1].token == last[r]
    {
      var j :| 0 <= j < |accepted| && accepted[j].0 == r && accepted[j].1 < |issued| && issued[accepted[j].1].token == last[r];
      assert more[accepted[j].1] == issued[accepted[j].1];
    }
  }

  lemma StepSafe(w: World, guard: Resource -> string, step: Step)
    requires Safe(w, guard)
    ensures Safe(Next(w, guard, step), guard)
  {
    match step
    case Acquire(name, owner, ttl, at, started) => GrantSafe(w, guard, name, owner, ttl, at, started);
    case Extend(i, ttl, at, started) => HoldingSafe(w, guard, step);
    case Release(i, at) => HoldingSafe(w, guard, step);
    case Inspect(name, at) => HoldingSafe(w, guard, step);
    case Clear =>
    case Write(r, i) => WriteSafe(w, guard, r, i);
  }

  lemma HoldingSafe(w: World, guard: Resource -> string, step: Step)
    requires Safe(w, guard) && (step.Extend? || step.Release? || step.Inspect?)
    ensures Safe(Next(w, guard, step), guard)
  {
    hide TokensRise, WritesRise, WritesGuarded, LastIsAccepted;
    var w' := Next(w, guard, step);
    forall name | name in w'.store.held ensures LatestIssue(w'.store, w'.issued, name, w'.store.held[name]) {
      assert LatestIssue(w.store, w.issued, name, w.store.held[name]);
    }
  }

  lemma WriteSafe(w: World, guard: Resource -> string, r: Resource, i: nat)
    requires Safe(w, guard)
    ensures Safe(Next(w, guard, Write(r, i)), guard)
  {
    hide LastIsAccepted;
    if Accepts(w, guard, r, i) {
      forall j | 0 <= j < |w.accepted| && w.accepted[j].0 == r ensures w.accepted[j].1 < i {
        assert w.issued[w.accepted[j].1].token < w.issued[i].token;
      }
      WriteIsLast(w, guard, r, i);
    }
  }

  lemma WriteIsLast(w: World, guard: Resource -> string, r: Resource, i: nat)
    requires LastIsAccepted(w.issued, w.accepted, w.last) && Accepts(w, guard, r, i)
    ensures LastIsAccepted(w.issued, w.accepted + [(r, i)], w.last[r := w.issued[i].token])
  {
    var accepted, last := w.accepted + [(r, i)], w.last[r := w.issued[i].token];
    forall x | x in last
      ensures exists j :: 0 <= j < |accepted| && accepted[j].0 == x && accepted[j].1 < |w.issued| && w.issued[accepted[j].1].token == last[x]
    {
      if x == r {
        assert accepted[|w.accepted|] == (r, i);
      } else {
        var j :| 0 <= j < |w.accepted| && w.accepted[j].0 == x && w.accepted[j].1 < |w.issued| && w.issued[w.accepted[j].1].token == w.last[x];
        assert accepted[j] == w.accepted[j];
      }
    }
  }

  lemma {:induction false} RunSafe(w: World, guard: Resource -> string, steps: seq<Step>)
    requires Safe(w, guard)
    ensures Safe(Run(w, guard, steps), guard)
  {
    hide Safe, Next;
    if steps != [] {
      RunSafe(w, guard, steps[..|steps| - 1]);
      StepSafe(Run(w, guard, steps[..|steps| - 1]), guard, steps[|steps| - 1]);
    }
  }

  /** Fencing: in every run, the tokens of a name strictly increase and so never repeat, and the
      writes a resource applies carry strictly increasing tokens, in the order their holders
      acquired the lock: no earlier holder ever overwrites a later one. */
  lemma FencingHolds(w: World, guard: Resource -> string, steps: seq<Step>)
    requires Fresh(w)
    ensures var end := Run(w, guard, steps);
            && TokensRise(end.issued)
            && forall j, k :: 0 <= j < k < |end.accepted| && end.accepted[j].0 == end.accepted[k].0 ==>
                 && end.accepted[j].1 < end.accepted[k].1 < |end.issued|
                 && end.issued[end.accepted[j].1].token < end.issued[end.accepted[k].1].token
  {
    hide Run, Next;
    RunSafe(w, guard, steps);
  }

  // What a holder that is not the latest can still do: nothing.

  /** Once a name has been granted again, the earlier lease can neither extend nor release, and
      trying leaves every claim that is live, then or later, exactly as it was. */
  lemma StaleHolderHarmless(w: World, guard: Resource -> string, steps: seq<Step>, i: nat, j: nat, ttl: real, at: real, started: real)
    requires Fresh(w)
    requires i < j < |Run(w, guard, steps).issued|
    requires Run(w, guard, steps).issued[i].name == Run(w, guard, steps).issued[j].name
    ensures var w1 := Run(w, guard, steps);
            var (lease, s) := (w1.issued[i], w1.store);
            && !Extended(s, lease.name, lease.token, ttl, at, started).1
            && Freed(s, lease.name, lease.token, at).1 != Released
            && forall name, later :: at <= later ==>
                 && LiveAt(Extended(s, lease.name, lease.token, ttl, at, started).0, name, later) == LiveAt(s, name, later)
                 && LiveAt(Freed(s, lease.name, lease.token, at).0, name, later) == LiveAt(s, name, later)
  {
    RunSafe(w, guard, steps);
    hide Run, Next, WritesRise, WritesGuarded, LastIsAccepted;
    var w1 := Run(w, guard, steps);
    var lease := w1.issued[i];
    assert lease.token < w1.issued[j].token <= Counter(w1.store, lease.name);
    if lease.name in w1.store.held {
      assert LatestIssue(w1.store, w1.issued, lease.name, w1.store.held[lease.name]);
    }
  }

  // What later steps cannot undo.

  lemma StepGrows(w: World, guard: Resource -> string, step: Step)
    ensures w.issued <= Next(w, guard, step).issued
    ensures w.accepted <= Next(w, guard, step).accepted
  {
  }

  lemma {:induction false} RunGrows(w: World, guard: Resource -> string, steps: seq<Step>)
    ensures w.issued <= Run(w, guard, steps).issued
    ensures w.accepted <= Run(w, guard, steps).accepted
  {
    hide Next;
    if steps != [] {
      RunGrows(w, guard, steps[..|steps| - 1]);
      StepGrows(Run(w, guard, steps[..|steps| - 1]), guard, steps[|steps| - 1]);
    }
  }

  /** Exactly when a write is applied: none made under the same acquisition or a later one has been. */
  lemma AcceptedIff(w: World, guard: Resource -> string, r: Resource, i: nat)
    requires Safe(w, guard) && MayWrite(w, guard, r, i)
    ensures Accepts(w, guard, r, i) <==> forall j :: 0 <= j < |w.accepted| && w.accepted[j].0 == r ==> w.accepted[j].1 < i
  {
    hide CountersCover, HeldIsLatest, WritesRise;
    if Accepts(w, guard, r, i) {
      forall j | 0 <= j < |w.accepted| && w.accepted[j].0 == r ensures w.accepted[j].1 < i {
        assert w.issued[w.accepted[j].1].token < w.issued[i].token;
      }
    } else {
      var j :| 0 <= j < |w.accepted| && w.accepted[j].0 == r && w.accepted[j].1 < |w.issued| && w.issued[w.accepted[j].1].token == w.last[r];
      assert w.issued[i].token <= w.issued[w.accepted[j].1].token;
    }
  }

  /** A lease gets one accepted write per resource, however often it is renewed in between: after
      that write, every run refuses every further one under the same token. */
  lemma SecondWriteRefused(w: World, guard: Resource -> string, steps: seq<Step>, r: Resource, i: nat)
    requires Safe(w, guard) && (r, i) in w.accepted
    ensures !Accepts(Run(w, guard, steps), guard, r, i)
  {
    hide Run, Next, TokensRise, CountersCover, HeldIsLatest, WritesRise, LastIsAccepted;
    RunSafe(w, guard, steps);
    RunGrows(w, guard, steps);
    var k :| 0 <= k < |w.accepted| && w.accepted[k] == (r, i);
    assert Run(w, guard, steps).accepted[k] == (r, i);
  }

  /** The store no longer holds the claim that lease `i` was granted. */
  predicate Lost(w: World, i: nat)
    requires i < |w.issued|
  {
    var issue := w.issued[i];
    issue.name in w.store.held ==> w.store.held[issue.name].token != issue.token
  }

  lemma StepLost(w: World, guard: Resource -> string, step: Step, i: nat)
    requires Safe(w, guard) && i < |w.issued| && Lost(w, i)
    ensures i < |Next(w, guard, step).issued| && Next(w, guard, step).issued[i] == w.issued[i] && Lost(Next(w, guard, step), i)
  {
    hide TokensRise, HeldIsLatest, WritesRise, WritesGuarded, LastIsAccepted;
  }

  lemma {:induction false} LostStaysLost(w: World, guard: Resource -> string, steps: seq<Step>, i: nat)
    requires Safe(w, guard) && i < |w.issued| && Lost(w, i)
    ensures i < |Run(w, guard, steps).issued| && Run(w, guard, steps).issued[i] == w.issued[i] && Lost(Run(w, guard, steps), i)
  {
    hide Safe, Next, Lost;
    if steps != [] {
      var front := steps[..|steps| - 1];
      LostStaysLost(w, guard, front, i);
      RunSafe(w, guard, front);
      StepLost(Run(w, guard, front), guard, steps[|steps| - 1], i);
    }
  }

  /** A renewal the store refused is final: no later release of that lease is confirmed. So the
      flag the renewal sets and the outcome the store reports on exit never disagree. */
  lemma RefusedRenewalIsFinal(w: World, guard: Resource -> string, i: nat, ttl: real, at: real, started: real, steps: seq<Step>, exit: real)
    requires Safe(w, guard) && i < |w.issued| && w.now <= at <= started
    requires !Extended(w.store, w.issued[i].name, w.issued[i].token, ttl, at, started).1
    ensures var w1 := Run(Next(w, guard, Extend(i, ttl, at, started)), guard, steps);
            Freed(w1.store, w.issued[i].name, w.issued[i].token, exit).1 != Released
  {
    hide Run, TokensRise, CountersCover, HeldIsLatest, WritesRise, WritesGuarded, LastIsAccepted;
    var w0 := Next(w, guard, Extend(i, ttl, at, started));
    StepSafe(w, guard, Extend(i, ttl, at, started));
    LostStaysLost(w0, guard, steps, i);
  }

  /** A confirmed exit means the section was protected. `steps` is everything that happened
      between the grant of lease `i` and its release: renewals, refused or not, other holders'
      attempts, expiries, waits of any length. If the release is confirmed, nothing granted
      since was a grant of the same name. */
  lemma ConfirmedExit(w: World, guard: Resource -> string, i: nat, steps: seq<Step>, exit: real)
    requires Safe(w, guard) && i < |w.issued|
    requires var end := Run(w, guard, steps);
             Freed(end.store, w.issued[i].name, w.issued[i].token, exit).1 == Released
    ensures var end := Run(w, guard, steps);
            forall k :: i < k < |end.issued| ==> end.issued[k].name != w.issued[i].name
  {
    hide Run, Next, WritesRise, WritesGuarded, LastIsAccepted;
    RunSafe(w, guard, steps);
    RunGrows(w, guard, steps);
    var end := Run(w, guard, steps);
    assert end.issued[i] == w.issued[i];
    assert LatestIssue(end.store, end.issued, w.issued[i].name, end.store.held[w.issued[i].name]);
  }

  // How long a claim stands.

  /** A name is granted exactly when no claim on it is still running, and a claim runs until its
      deadline, moved by each renewal, or until it is released. */
  lemma GrantedIff(s: Store, name: string, owner: string, ttl: real, now: real, started: real,
                   other: string, ttl': real, later: real, started': real)
    ensures Acquired(s, name, owner, ttl, now, started).1.Some? <==> !(name in s.held && now < s.held[name].expiresAt)
    ensures var (s1, token) := Acquired(s, name, owner, ttl, now, started);
            token.Some? ==> (Acquired(s1, name, other, ttl', later, started').1.Some? <==> later >= started + ttl)
    ensures var (s1, ok) := Extended(s, name, Counter(s, name), ttl, now, started);
            ok ==> (Acquired(s1, name, other, ttl', later, started').1.Some? <==> later >= started + ttl)
    ensures var (s1, outcome) := Freed(s, name, Counter(s, name), now);
            outcome == Released ==> Acquired(s1, name, other, ttl', later, started').1.Some?
  {
  }

  /** Lease `i` holds its name until `deadline`. */
  predicate Stands(w: World, i: nat, deadline: real)
    requires i < |w.issued|
  {
    var issue := w.issued[i];
    issue.name in w.store.held && w.store.held[issue.name] == Held(issue.token, issue.owner, deadline)
  }

  /** A step that is not the holder's own, taken before the deadline. */
  predicate Foreign(step: Step, i: nat, deadline: real) {
    match step
    case Acquire(_, _, _, at, _) => at < deadline
    case Extend(j, _, at, _) => j != i && at < deadline
    case Release(j, at) => j != i && at < deadline
    case Inspect(_, at) => at < deadline
    case Clear => false
    case Write(_, _) => true
  }

  lemma StepStands(w: World, guard: Resource -> string, step: Step, i: nat, deadline: real)
    requires Safe(w, guard) && i < |w.issued| && Stands(w, i, deadline) && Foreign(step, i, deadline)
    ensures var w' := Next(w, guard, step); i < |w'.issued| && w'.issued[i] == w.issued[i] && Stands(w', i, deadline)
  {
    hide CountersCover, HeldIsLatest, WritesRise, WritesGuarded, LastIsAccepted;
    if (step.Extend? || step.Release?) && step.i < |w.issued| && w.issued[step.i].name == w.issued[i].name {
      assert w.issued[step.i].token != w.issued[i].token;
    }
  }

  /** Nobody but the holder can end or move a claim before its deadline: whatever others attempt, the
      lease still holds its name, so its own renewal succeeds and its release is confirmed. */
  lemma {:induction false} ClaimStands(w: World, guard: Resource -> string, steps: seq<Step>, i: nat, deadline: real)
    requires Safe(w, guard) && i < |w.issued| && Stands(w, i, deadline)
    requires forall k :: 0 <= k < |steps| ==> Foreign(steps[k], i, deadline)
    ensures var end := Run(w, guard, steps);
            && i < |end.issued| && end.issued[i] == w.issued[i] && Stands(end, i, deadline)
            && forall at, started, ttl :: at < deadline ==>
                 && Extended(end.store, w.issued[i].name, w.issued[i].token, ttl, at, started).1
                 && Freed(end.store, w.issued[i].name, w.issued[i].token, at).1 == Released
  {
    if steps != [] {
      var front := steps[..|steps| - 1];
      ClaimStands(w, guard, front, i, deadline);
      RunSafe(w, guard, front);
      hide Safe, Next, Foreign;
      StepStands(Run(w, guard, front), guard, steps[|steps| - 1], i, deadline);
    }
  }

  /** A grant does stand, until its lifetime is over. */
  lemma GrantStands(w: World, guard: Resource -> string, name: string, owner: string, ttl: real, at: real, started: real)
    requires ValidName(name) && w.now <= at <= started && LiveAt(w.store, name, at).None?
    ensures var w' := Next(w, guard, Acquire(name, owner, ttl, at, started));
            |w'.issued| == |w.issued| + 1 && Stands(w', |w.issued|, started + ttl)
  {
  }
}
