/** The `async with` block over one lease: `src/distributed_lock/lock.py`. */
module DistributedLock {
  import opened Prelude
  import opened Leases

  datatype EnterError = AlreadyHeld | Unavailable(holder: Option<LockState>)

  /** How a block ends: quietly, or with the error that reports a lost lease. */
  datatype Ending = Quiet | LockLost

  /** A lock object: what it was made with, the lease in hand, and whether a renewal was refused. */
  datatype LockView = LockView(name: string, owner: string, ttl: real, lease: Option<Lease>, lost: bool)

  // What each call does to the lock and to the store.

  /** `__aenter__` with no wait: one attempt, and a look at the holder if it fails. */
  function Entered(v: LockView, s: Store, now: real, started: real, look: real): (LockView, Store) {
    if v.lease.Some? then (v, s)
    else
      var (s', token) := Acquired(s, v.name, v.owner, v.ttl, now, started);
      if token.None? then (v, Purged(s', v.name, look))
      else (v.(lease := Some(Lease(v.name, token.value, v.owner, v.ttl, started + v.ttl)), lost := false), s')
  }

  /** One turn of `_renew_forever`. */
  function Renewed(v: LockView, s: Store, reachable: bool, now: real, started: real): (LockView, Store) {
    if v.lease.None? || !reachable then (v, s)
    else
      var (s', ok) := Extended(s, v.lease.value.name, v.lease.value.token, v.ttl, now, started);
      if ok then (v.(lease := Some(v.lease.value.RenewedFor(v.ttl, started + v.ttl))), s')
      else (v.(lost := true), s')
  }

  /** `__aexit__`: a store that does not answer is no evidence that the lease had ended. */
  function Exited(v: LockView, s: Store, reachable: bool, now: real, bodyFailed: bool): (LockView, Store, Ending) {
    if v.lease.None? then (v, s, Quiet)
    else
      var (s', outcome) := if reachable then Freed(s, v.lease.value.name, v.lease.value.token, now) else (s, Released);
      var gone := v.lost || outcome != Released;
      (v.(lease := None), s', if gone && !bodyFailed then LockLost else Quiet)
  }

  /** The deadline of the lease in hand is the one the store has for it, after entering and after
      every renewal that succeeds. */
  lemma LeaseMatchesStore(v: LockView, s: Store, now: real, started: real, look: real)
    ensures var (v', s') := Entered(v, s, now, started, look);
            v.lease.None? && v'.lease.Some? ==>
              && v.name in s'.held && !v'.lost
              && s'.held[v.name] == Held(v'.lease.value.token, v'.lease.value.owner, v'.lease.value.expiresAt)
              && v'.lease.value.expiresAt == started + v.ttl
    ensures var (v', s') := Renewed(v, s, true, now, started);
            v.lease.Some? && v.lease.value.name == v.name && !v.lost && !v'.lost ==>
              && v.name in s'.held && v'.lease.Some?
              && s'.held[v.name].token == v'.lease.value.token == v.lease.value.token
              && s'.held[v.name].expiresAt == v'.lease.value.expiresAt == started + v.ttl
  {
  }

  /** A block is entered exactly when it is not open already and the name is free. */
  lemma EntersIff(v: LockView, s: Store, now: real, started: real, look: real)
    ensures v.lease.None? ==>
              (Entered(v, s, now, started, look).0.lease.Some? <==> !(v.name in s.held && now < s.held[v.name].expiresAt))
    ensures v.lease.Some? ==> Entered(v, s, now, started, look) == (v, s)
  {
  }

  /** When the error is raised: never over a failing body, and otherwise exactly when a renewal was
      refused or the store answers that the lease is not, or no longer, this block's. */
  lemma RaisesIff(v: LockView, s: Store, reachable: bool, now: real, bodyFailed: bool)
    requires v.lease.Some?
    ensures var ending := Exited(v, s, reachable, now, bodyFailed).2;
            var lease := v.lease.value;
            var held := lease.name in s.held && now < s.held[lease.name].expiresAt && s.held[lease.name].token == lease.token;
            ending == LockLost <==> !bodyFailed && (v.lost || (reachable && !held))
    ensures Exited(v, s, reachable, now, bodyFailed).0 == v.(lease := None)
  {
  }

  class Lock {
    const backend: InMemoryLockBackend
    const name: string
    const owner: string
    const ttl: real
    var lease: Option<Lease>
    var lost: bool

    constructor (backend: InMemoryLockBackend, name: string, owner: string, ttl: real)
      requires ValidName(name) && ttl > 0.0
      ensures this.backend == backend && View() == LockView(name, owner, ttl, None, false)
    {
      this.backend, this.name, this.owner, this.ttl := backend, name, owner, ttl;
      lease, lost := None, false;
    }

    function View(): LockView
      reads this
    {
      LockView(name, owner, ttl, lease, lost)
    }

    method Enter(now: real, started: real, look: real, later: real) returns (r: Result<Lease, EnterError>)
      requires ValidName(name)
      modifies this, backend
      ensures (View(), backend.View()) == Entered(old(View()), old(backend.View()), now, started, look)
      ensures r.Ok? <==> old(lease).None? && lease.Some?
      ensures r.Ok? ==> lease == Some(r.value)
      ensures r == Err(AlreadyHeld) <==> old(lease).Some?
    {
      if lease.Some? {
        return Err(AlreadyHeld);
      }
      var granted := backend.Acquire(name, owner, ttl, now, started);
      if granted.value.None? {
        var state := backend.Inspect(name, look, later);
        return Err(Unavailable(state));
      }
      lease, lost := granted.value, false;
      r := Ok(granted.value.value);
    }

    /** `on` says whether the renewal loop goes round again. */
    method Renew(reachable: bool, now: real, started: real) returns (on: bool)
      modifies this, backend
      ensures (View(), backend.View()) == Renewed(old(View()), old(backend.View()), reachable, now, started)
      ensures old(lease).None? || !reachable ==> on == old(lease).Some?
      ensures old(lease).Some? && reachable ==>
                on == Extended(old(backend.View()), old(lease).value.name, old(lease).value.token, ttl, now, started).1
    {
      if lease.None? {
        return false;
      }
      if !reachable {
        return true;
      }
      var renewed := backend.Extend(lease.value, ttl, now, started);
      if renewed.None? {
        lost := true;
        return false;
      }
      lease := renewed;
      on := true;
    }

    method Exit(reachable: bool, now: real, bodyFailed: bool) returns (ending: Ending)
      modifies this, backend
      ensures (View(), backend.View(), ending) == Exited(old(View()), old(backend.View()), reachable, now, bodyFailed)
    {
      if lease.None? {
        return Quiet;
      }
      var leaving := lease.value;
      lease := None;
      var gone := lost;
      if reachable {
        var outcome := backend.Release(leaving, now);
        gone := gone || outcome != Released;
      }
      ending := if gone && !bodyFailed then LockLost else Quiet;
    }
  }
}
