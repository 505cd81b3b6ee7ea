/** Time-limited claims on names and the tokens that order them: `src/distributed_lock/base.py`
    and the in-process backend of `src/distributed_lock/memory.py`. */
module Leases {
  import opened Prelude

  datatype Lease = Lease(name: string, token: nat, owner: string, ttl: real, expiresAt: real) {
    function RenewedFor(ttl: real, expiresAt: real): Lease {
      this.(ttl := ttl, expiresAt := expiresAt)
    }
  }

  datatype LockState = LockState(name: string, token: nat, owner: string, ttl: real)

  datatype ReleaseOutcome = Released | Expired | NotOwner

  datatype BadName = BadName

  const MAX_NAME_LENGTH := 255

  predicate Printable(name: string) {
    forall i :: 0 <= i < |name| ==> '\U{21}' <= name[i] <= '\U{7e}'
  }

  /** `validate_lock_name`. The pattern's `$` also matches just before a final newline. */
  predicate ValidName(name: string) {
    && 0 < |name| <= MAX_NAME_LENGTH
    && (Printable(name) || (|name| > 1 && name[|name| - 1] == '\n' && Printable(name[..|name| - 1])))
  }

  /** A usable name is printable exactly unless it ends in a newline, as `"a\n"` does. */
  lemma ValidNamesArePrintable(name: string)
    requires ValidName(name)
    ensures Printable(name) <==> name[|name| - 1] != '\n'
    ensures ValidName("a\n") && !Printable("a\n")
  {
    assert "a\n"[1] == '\n' && "a\n"[..1] == "a";
  }

  /** Names of 1 to 255 printable characters are usable, and so is such a name of up to 254 with a newline
      after it; nothing shorter or longer is. */
  lemma UsableNames(name: string)
    requires Printable(name)
    ensures ValidName(name) <==> 1 <= |name| <= 255
    ensures ValidName(name + "\n") <==> 1 <= |name| <= 254
  {
    var longer := name + "\n";
    assert longer[|name|] == '\n' && longer[..|name|] == name;
  }

  predicate FenceIsCurrent(token: nat, lastAccepted: Option<nat>) {
    lastAccepted.None? || token > lastAccepted.value
  }

  datatype Held = Held(token: nat, owner: string, expiresAt: real)

  datatype Store = Store(held: map<string, Held>, counters: map<string, nat>)

  function Counter(s: Store, name: string): nat {
    if name in s.counters then s.counters[name] else 0
  }

  function LiveAt(s: Store, name: string, now: real): Option<Held> {
    if name in s.held && s.held[name].expiresAt > now then Some(s.held[name]) else None
  }

  /** Reading a name drops its claim if that has expired. */
  function Purged(s: Store, name: string, now: real): Store {
    if LiveAt(s, name, now).None? then s.(held := s.held - {name}) else s
  }

  // The operations on values; a name and a token are all they look at in a lease.

  function Acquired(s: Store, name: string, owner: string, ttl: real, now: real, started: real): (Store, Option<nat>) {
    if LiveAt(s, name, now).Some? then (s, None)
    else
      var token := Counter(s, name) + 1;
      (Store(s.held[name := Held(token, owner, started + ttl)], s.counters[name := token]), Some(token))
  }

  function Extended(s: Store, name: string, token: nat, ttl: real, now: real, started: real): (Store, bool) {
    var live := LiveAt(s, name, now);
    if live.None? || live.value.token != token then (Purged(s, name, now), false)
    else (s.(held := s.held[name := live.value.(expiresAt := started + ttl)]), true)
  }

  function Freed(s: Store, name: string, token: nat, now: real): (Store, ReleaseOutcome) {
    var live := LiveAt(s, name, now);
    if live.None? then (Purged(s, name, now), Expired)
    else if live.value.token != token then (s, NotOwner)
    else (s.(held := s.held - {name}), Released)
  }

  class InMemoryLockBackend {
    var held: map<string, Held>
    var counters: map<string, nat>

    constructor ()
      ensures View() == Store(map[], map[])
    {
      held, counters := map[], map[];
    }

    function View(): Store
      reads this
    {
      Store(held, counters)
    }

    /** `_live`: reads a claim, dropping it if it has expired. */
    method Live(name: string, now: real) returns (claim: Option<Held>)
      modifies this`held
      ensures claim == LiveAt(old(View()), name, now)
      ensures View() == Purged(old(View()), name, now)
    {
      if name !in held {
        return None;
      }
      if held[name].expiresAt <= now {
        held := held - {name};
        return None;
      }
      claim := Some(held[name]);
    }

    /** `acquire`; the clock is read once by the look-up and once for the deadline. */
    method Acquire(name: string, owner: string, ttl: real, now: real, started: real) returns (r: Result<Option<Lease>, BadName>)
      modifies this
      ensures r.Ok? <==> ValidName(name)
      ensures r.Err? ==> View() == old(View())
      ensures r.Ok? ==>
                var (s, token) := Acquired(old(View()), name, owner, ttl, now, started);
                && View() == s
                && r.value == if token.Some? then Some(Lease(name, token.value, owner, ttl, started + ttl)) else None
    {
      if !ValidName(name) {
        return Err(BadName);
      }
      var claim := Live(name, now);
      if claim.Some? {
        return Ok(None);
      }
      var token := (if name in counters then counters[name] else 0) + 1;
      counters := counters[name := token];
      held := held[name := Held(token, owner, started + ttl)];
      r := Ok(Some(Lease(name, token, owner, ttl, started + ttl)));
    }

    method Extend(lease: Lease, ttl: real, now: real, started: real) returns (r: Option<Lease>)
      modifies this`held
      ensures var (s, ok) := Extended(old(View()), lease.name, lease.token, ttl, now, started);
              View() == s && r == if ok then Some(lease.RenewedFor(ttl, started + ttl)) else None
    {
      var claim := Live(lease.name, now);
      if claim.None? || claim.value.token != lease.token {
        return None;
      }
      held := held[lease.name := claim.value.(expiresAt := started + ttl)];
      r := Some(lease.RenewedFor(ttl, started + ttl));
    }

    method Release(lease: Lease, now: real) returns (r: ReleaseOutcome)
      modifies this`held
      ensures (View(), r) == Freed(old(View()), lease.name, lease.token, now)
    {
      var claim := Live(lease.name, now);
      if claim.None? {
        return Expired;
      }
      if claim.value.token != lease.token {
        return NotOwner;
      }
      held := held - {lease.name};
      r := Released;
    }

    method Inspect(name: string, now: real, later: real) returns (r: Option<LockState>)
      modifies this`held
      ensures View() == Purged(old(View()), name, now)
      ensures r.Some? <==> LiveAt(old(View()), name, now).Some?
      ensures r.Some? ==>
                var h := LiveAt(old(View()), name, now).value;
                r.value == LockState(name, h.token, h.owner, if h.expiresAt > later then h.expiresAt - later else 0.0)
    {
      var claim := Live(name, now);
      if claim.None? {
        return None;
      }
      var left := claim.value.expiresAt - later;
      r := Some(LockState(name, claim.value.token, claim.value.owner, if left > 0.0 then left else 0.0));
    }

    /** `clear`: every claim goes, every counter stays. */
    method Clear()
      modifies this`held
      ensures View() == old(View()).(held := map[])
    {
      held := map[];
    }
  }
}
