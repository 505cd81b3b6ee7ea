/** The Redis backend of `src/distributed_lock/redis_backend.py`: three atomic scripts over a key
    space of strings, and the proof that they do what the in-process backend does. Server time is
    in whole milliseconds. */
module RedisLeases {
  import opened Prelude
  import opened Text
  import opened Leases
  import opened Fencing

  datatype Entry = Entry(text: string, deadline: Option<int>)

  type Keyspace = map<string, Entry>

  function LockKey(ns: string, name: string): string {
    ns + ":lock:" + name
  }

  function FenceKey(ns: string, name: string): string {
    ns + ":fence:" + name
  }

  function LockValue(token: nat, owner: string): string {
    Print(token) + ":" + owner
  }

  datatype Malformed = Malformed

  /** `split_lock_value`: at the first colon only. */
  function SplitLockValue(value: string): Result<(int, string), Malformed> {
    var at := FirstIndex(value, ':');
    if at.None? then Err(Malformed)
    else
      var token := ParseInt(value[..at.value]);
      if token.None? then Err(Malformed) else Ok((token.value, value[at.value + 1..]))
  }

  /** `_ttl_milliseconds`. */
  function TtlMilliseconds(ttl: real): Option<int> {
    if ttl <= 0.0 then None
    else
      var ceiling := -((-ttl * 1000.0).Floor);
      Some(if ceiling < 1 then 1 else ceiling)
  }

  // Redis commands.

  function Get(db: Keyspace, key: string, now: int): Option<string> {
    if key in db && (db[key].deadline.None? || db[key].deadline.value > now) then Some(db[key].text) else None
  }

  /** `INCR`, which fails on a value that is not a number. */
  function Incr(db: Keyspace, key: string, now: int): Option<int> {
    var current := Get(db, key, now);
    if current.None? then Some(1)
    else if ParseInt(current.value).None? then None
    else Some(ParseInt(current.value).value + 1)
  }

  datatype AcquireReply = Taken(value: string) | Busy(value: string) | Failed

  function AcquireScript(db: Keyspace, lockKey: string, fenceKey: string, owner: string, ttl: int, now: int): (Keyspace, AcquireReply) {
    var current := Get(db, lockKey, now);
    if current.Some? then (db, Busy(current.value))
    else
      var token := Incr(db, fenceKey, now);
      if token.None? then (db, Failed)
      else
        var keep := if Get(db, fenceKey, now).Some? then db[fenceKey].deadline else None;
        var value := PrintInt(token.value) + ":" + owner;
        (db[fenceKey := Entry(PrintInt(token.value), keep)][lockKey := Entry(value, Some(now + ttl))], Taken(value))
  }

  function ExtendScript(db: Keyspace, lockKey: string, expected: string, ttl: int, now: int): (Keyspace, int) {
    var current := Get(db, lockKey, now);
    if current.None? then (db, 0)
    else if current.value != expected then (db, -1)
    else (db[lockKey := db[lockKey].(deadline := Some(now + ttl))], 1)
  }

  function ReleaseScript(db: Keyspace, lockKey: string, expected: string, now: int): (Keyspace, int) {
    var current := Get(db, lockKey, now);
    if current.None? then (db, 0)
    else if current.value != expected then (db, -1)
    else (db - {lockKey}, 1)
  }

  function OutcomeOf(reply: int): ReleaseOutcome {
    if reply == 0 then Expired else if reply == -1 then NotOwner else Released
  }

  // Text.

  /** Splitting undoes building, whatever the owner contains. */
  lemma SplitUndoesLockValue(token: nat, owner: string)
    ensures SplitLockValue(LockValue(token, owner)) == Ok((token, owner))
  {
    hide Print, ParseInt, FirstIndex;
    var digits, value := Print(token), LockValue(token, owner);
    PrintIsDigits(token);
    ParseDigits(digits);
    assert value[|digits|] == ':';
    var at := FirstIndex(value, ':').value;
    assert at == |digits| by {
      assert forall i :: 0 <= i < |digits| ==> value[i] == digits[i];
      forall k | 0 <= k < at ensures value[k] != ':' {
        assert value[..at][k] == value[k];
      }
    }
    assert value[..at] == digits && value[at + 1..] == owner;
  }

  lemma LockValueInjective(token: nat, owner: string, token': nat, owner': string)
    requires LockValue(token, owner) == LockValue(token', owner')
    ensures token == token' && owner == owner'
  {
    hide SplitLockValue, LockValue;
    SplitUndoesLockValue(token, owner);
    SplitUndoesLockValue(token', owner');
  }

  lemma LockKeysDiffer(ns: string, a: string, b: string)
    ensures LockKey(ns, a) == LockKey(ns, b) <==> a == b
    ensures FenceKey(ns, a) == FenceKey(ns, b) <==> a == b
    ensures LockKey(ns, a) != FenceKey(ns, b)
  {
    assert LockKey(ns, a)[|ns| + 6..] == a && LockKey(ns, b)[|ns| + 6..] == b;
    assert FenceKey(ns, a)[|ns| + 7..] == a && FenceKey(ns, b)[|ns| + 7..] == b;
    assert LockKey(ns, a)[|ns| + 1] == 'l' && FenceKey(ns, b)[|ns| + 1] == 'f';
  }

  /** The deadline a caller computes from a clock read before the request is never later than
      the one the server computes when the script runs, and at most a millisecond is added. */
  lemma LocalDeadlineIsEarlier(ttl: real, started: real, served: int)
    requires ttl > 0.0 && started * 1000.0 <= served as real
    ensures var ms := TtlMilliseconds(ttl);
            && ms.Some? && ms.value >= 1
            && (started + ttl) * 1000.0 <= (served + ms.value) as real
            && ms.value as real < ttl * 1000.0 + 1.0
  {
    var x := -ttl * 1000.0;
    assert x.Floor as real <= x < x.Floor as real + 1.0;
  }

  // The simulation.

  /** What the key space says of `name` at `now` and after is what the store says. */
  predicate Agree(db: Keyspace, ns: string, s: Store, name: string, now: int) {
    var live := LiveAt(s, name, now as real);
    && (live.None? ==> Get(db, LockKey(ns, name), now).None?)
    && (live.Some? ==>
          && LockKey(ns, name) in db
          && var entry := db[LockKey(ns, name)];
          && entry.text == LockValue(live.value.token, live.value.owner)
          && entry.deadline.Some? && entry.deadline.value as real == live.value.expiresAt)
    && (if FenceKey(ns, name) in db then
          Counter(s, name) > 0 && db[FenceKey(ns, name)] == Entry(PrintInt(Counter(s, name)), None)
        else Counter(s, name) == 0)
  }

  ghost predicate Represents(db: Keyspace, ns: string, s: Store, now: int) {
    forall name: string :: Agree(db, ns, s, name, now)
  }

  lemma AgreeLater(db: Keyspace, ns: string, s: Store, now: int, later: int)
    requires Represents(db, ns, s, now) && now <= later
    ensures Represents(db, ns, s, later)
  {
    hide LockKey, FenceKey, LockValue, PrintInt;
    forall name: string ensures Agree(db, ns, s, name, later) {
      assert Agree(db, ns, s, name, now);
    }
  }

  /** Writing one lock's two keys leaves every other name as it was. */
  lemma OthersAgree(db: Keyspace, db': Keyspace, ns: string, s: Store, s': Store, name: string, now: int)
    requires Represents(db, ns, s, now)
    requires forall key :: key != LockKey(ns, name) && key != FenceKey(ns, name) ==>
               (key in db <==> key in db') && (key in db ==> db'[key] == db[key])
    requires s'.held - {name} == s.held - {name} && s'.counters - {name} == s.counters - {name}
    requires Agree(db', ns, s', name, now)
    ensures Represents(db', ns, s', now)
  {
    hide LockKey, FenceKey, LockValue, PrintInt;
    forall other: string ensures Agree(db', ns, s', other, now) {
      if other != name {
        LockKeysDiffer(ns, other, name);
        LockKeysDiffer(ns, name, other);
        assert Agree(db, ns, s, other, now);
        assert other in s.held <==> other in s.held - {name};
        assert other in s'.held <==> other in s'.held - {name};
        assert other in s.counters <==> other in s.counters - {name};
        assert other in s'.counters <==> other in s'.counters - {name};
      }
    }
  }

  lemma AcquireRefines(db: Keyspace, ns: string, s: Store, name: string, owner: string, ttl: int, now: int)
    requires Represents(db, ns, s, now) && ttl > 0
    ensures var (db', reply) := AcquireScript(db, LockKey(ns, name), FenceKey(ns, name), owner, ttl, now);
            var (s', token) := Acquired(s, name, owner, ttl as real, now as real, now as real);
            && Represents(db', ns, s', now)
            && (token.None? ==> reply.Busy?)
            && (token.Some? ==> reply == Taken(LockValue(token.value, owner)))
  {
    hide LockKey, FenceKey, Represents, ParseInt;
    var lockKey, fenceKey := LockKey(ns, name), FenceKey(ns, name);
    var (db', reply) := AcquireScript(db, lockKey, fenceKey, owner, ttl, now);
    var (s', token) := Acquired(s, name, owner, ttl as real, now as real, now as real);
    AgreesOn(db, ns, s, name, now);
    LockKeysDiffer(ns, name, name);
    ParseUndoesPrint(Counter(s, name));
    if token.Some? {
      OthersAgree(db, db', ns, s, s', name, now);
    }
  }

  lemma AgreesOn(db: Keyspace, ns: string, s: Store, name: string, now: int)
    requires Represents(db, ns, s, now)
    ensures Agree(db, ns, s, name, now)
  {
  }

  /** A claim with this token is this owner's: true of every lease the store has issued. */
  predicate Owned(s: Store, name: string, token: nat, owner: string) {
    name in s.held && s.held[name].token == token ==> s.held[name].owner == owner
  }

  lemma ExtendRefines(db: Keyspace, ns: string, s: Store, name: string, token: nat, owner: string, ttl: int, now: int)
    requires Represents(db, ns, s, now) && Owned(s, name, token, owner) && ttl > 0
    ensures var (db', reply) := ExtendScript(db, LockKey(ns, name), LockValue(token, owner), ttl, now);
            var (s', ok) := Extended(s, name, token, ttl as real, now as real, now as real);
            Represents(db', ns, s', now) && (reply == 1 <==> ok)
  {
    hide LockKey, FenceKey, Represents, LockValue, PrintInt;
    var (db', reply) := ExtendScript(db, LockKey(ns, name), LockValue(token, owner), ttl, now);
    var (s', ok) := Extended(s, name, token, ttl as real, now as real, now as real);
    SameValue(db, ns, s, name, token, owner, now);
    LockKeysDiffer(ns, name, name);
    OthersAgree(db, db', ns, s, s', name, now);
  }

  lemma ReleaseRefines(db: Keyspace, ns: string, s: Store, name: string, token: nat, owner: string, now: int)
    requires Represents(db, ns, s, now) && Owned(s, name, token, owner)
    ensures var (db', reply) := ReleaseScript(db, LockKey(ns, name), LockValue(token, owner), now);
            var (s', outcome) := Freed(s, name, token, now as real);
            Represents(db', ns, s', now) && OutcomeOf(reply) == outcome
  {
    hide LockKey, FenceKey, Represents, LockValue, PrintInt;
    var (db', reply) := ReleaseScript(db, LockKey(ns, name), LockValue(token, owner), now);
    var (s', outcome) := Freed(s, name, token, now as real);
    SameValue(db, ns, s, name, token, owner, now);
    LockKeysDiffer(ns, name, name);
    OthersAgree(db, db', ns, s, s', name, now);
  }

  /** Comparing whole values comes to comparing tokens. */
  lemma SameValue(db: Keyspace, ns: string, s: Store, name: string, token: nat, owner: string, now: int)
    requires Represents(db, ns, s, now) && Owned(s, name, token, owner)
    ensures Agree(db, ns, s, name, now)
    ensures var live := LiveAt(s, name, now as real);
            live.Some? ==> (LockValue(live.value.token, live.value.owner) == LockValue(token, owner) <==> live.value.token == token)
  {
    hide LockValue;
    var live := LiveAt(s, name, now as real);
    assert Agree(db, ns, s, name, now);
    if live.Some? && LockValue(live.value.token, live.value.owner) == LockValue(token, owner) {
      LockValueInjective(live.value.token, live.value.owner, token, owner);
    }
  }

  // Whole runs, side by side.

  /** A backend call: when the caller read its clock, in seconds, and the instant the script runs, in
      milliseconds; `i` is a position among the leases granted. */
  datatype Call =
    | AcquireCall(name: string, owner: string, ttl: real, started: real, at: int)
    | ExtendCall(i: nat, ttl: real, started: real, at: int)
    | ReleaseCall(i: nat, at: int)

  datatype Answer = Granted(token: int) | Refused | Renewed(ok: bool) | Ended(outcome: ReleaseOutcome) | Unreadable | NoCall

  /** `local` is, for each lease granted, the deadline its holder computed last. */
  datatype Server = Server(db: Keyspace, now: int, issued: seq<Issue>, local: seq<real>)

  /** Scripts run one after another, each after its caller read the clock. */
  predicate Possible(now: int, granted: nat, call: Call) {
    && now <= call.at
    && match call
       case AcquireCall(name, _, ttl, started, at) => ValidName(name) && ttl > 0.0 && started * 1000.0 <= at as real
       case ExtendCall(i, ttl, started, at) => i < granted && ttl > 0.0 && started * 1000.0 <= at as real
       case ReleaseCall(i, _) => i < granted
  }

  function Millis(ttl: real): (ms: int)
    requires ttl > 0.0
    ensures ms >= 1
  {
    TtlMilliseconds(ttl).value
  }

  function Serve(v: Server, ns: string, call: Call): (Server, Answer)
    requires |v.local| == |v.issued|
  {
    if !Possible(v.now, |v.issued|, call) then (v, NoCall)
    else match call
      case AcquireCall(name, owner, ttl, started, at) =>
        var (db, reply) := AcquireScript(v.db, LockKey(ns, name), FenceKey(ns, name), owner, Millis(ttl), at);
        if reply.Busy? then (v.(db := db, now := at), Refused)
        else if reply.Failed? then (v.(db := db, now := at), Unreadable)
        else
          var split := SplitLockValue(reply.value);
          if split.Err? || split.value.0 < 0 then (v.(db := db, now := at), Unreadable)
          else
            (Server(db, at, v.issued + [Issue(name, split.value.0, owner)], v.local + [started + ttl]), Granted(split.value.0))
      case ExtendCall(i, ttl, started, at) =>
        var lease := v.issued[i];
        var (db, reply) := ExtendScript(v.db, LockKey(ns, lease.name), LockValue(lease.token, lease.owner), Millis(ttl), at);
        (v.(db := db, now := at, local := if reply == 1 then v.local[i := started + ttl] else v.local), Renewed(reply == 1))
      case ReleaseCall(i, at) =>
        var lease := v.issued[i];
        var (db, reply) := ReleaseScript(v.db, LockKey(ns, lease.name), LockValue(lease.token, lease.owner), at);
        (v.(db := db, now := at), Ended(OutcomeOf(reply)))
  }

  /** The same call on the in-process backend, as a step of a fencing run. */
  function AsStep(call: Call): Step
    requires !call.ReleaseCall? ==> call.ttl > 0.0
  {
    match call
    case AcquireCall(name, owner, ttl, _, at) => Step.Acquire(name, owner, Millis(ttl) as real, at as real, at as real)
    case ExtendCall(i, ttl, _, at) => Step.Extend(i, Millis(ttl) as real, at as real, at as real)
    case ReleaseCall(i, at) => Step.Release(i, at as real)
  }

  function MemoryAnswer(s: Store, issued: seq<Issue>, now: int, call: Call): Answer {
    if !Possible(now, |issued|, call) then NoCall
    else match call
      case AcquireCall(name, owner, ttl, _, at) =>
        var token := Acquired(s, name, owner, Millis(ttl) as real, at as real, at as real).1;
        if token.Some? then Granted(token.value) else Refused
      case ExtendCall(i, ttl, _, at) =>
        Renewed(Extended(s, issued[i].name, issued[i].token, Millis(ttl) as real, at as real, at as real).1)
      case ReleaseCall(i, at) => Ended(Freed(s, issued[i].name, issued[i].token, at as real).1)
  }

  function ServeAll(ns: string, start: int, calls: seq<Call>): (r: (Server, seq<Answer>))
    ensures |r.0.local| == |r.0.issued|
  {
    if calls == [] then (Server(map[], start, [], []), [])
    else
      var (v, answers) := ServeAll(ns, start, calls[..|calls| - 1]);
      var (v', answer) := Serve(v, ns, calls[|calls| - 1]);
      (v', answers + [answer])
  }

  /** The in-process backend over the same calls; impossible ones are not made. */
  function MemoryAll(guard: Resource -> string, start: int, calls: seq<Call>): (World, seq<Answer>) {
    if calls == [] then (World(Store(map[], map[]), start as real, [], map[], []), [])
    else
      var (w, answers) := MemoryAll(guard, start, calls[..|calls| - 1]);
      var call := calls[|calls| - 1];
      var answer := MemoryAnswer(w.store, w.issued, w.now.Floor, call);
      (if answer.NoCall? then w else Next(w, guard, AsStep(call)), answers + [answer])
  }

  ghost predicate InStep(v: Server, ns: string, w: World, guard: Resource -> string) {
    && Represents(v.db, ns, w.store, v.now)
    && v.issued == w.issued && |v.local| == |v.issued| && v.now as real == w.now
    && Safe(w, guard)
  }

  lemma IssuedIsOwned(w: World, guard: Resource -> string, i: nat)
    requires Safe(w, guard) && i < |w.issued|
    ensures Owned(w.store, w.issued[i].name, w.issued[i].token, w.issued[i].owner)
  {
    hide CountersCover, WritesRise, WritesGuarded, LastIsAccepted;
    var issue := w.issued[i];
    if issue.name in w.store.held && w.store.held[issue.name].token == issue.token {
      assert LatestIssue(w.store, w.issued, issue.name, w.store.held[issue.name]);
      var j :| 0 <= j < |w.issued| && w.issued[j] == Issue(issue.name, issue.token, w.store.held[issue.name].owner);
      assert j == i;
    }
  }

  lemma CallInStep(v: Server, ns: string, w: World, guard: Resource -> string, call: Call)
    requires InStep(v, ns, w, guard) && Possible(v.now, |v.issued|, call)
    ensures var (v', answer) := Serve(v, ns, call);
            InStep(v', ns, Next(w, guard, AsStep(call)), guard) && answer == MemoryAnswer(w.store, w.issued, v.now, call)
  {
    hide Represents, Safe, LockKey, FenceKey, LockValue, SplitLockValue, AcquireScript, ExtendScript, ReleaseScript,
      Acquired, Extended, Freed, ValidName, Millis;
    StepSafe(w, guard, AsStep(call));
    AgreeLater(v.db, ns, w.store, v.now, call.at);
    match call
    case AcquireCall(name, owner, ttl, _, at) =>
      AcquireRefines(v.db, ns, w.store, name, owner, Millis(ttl), at);
      var token := Acquired(w.store, name, owner, Millis(ttl) as real, at as real, at as real).1;
      if token.Some? {
        SplitUndoesLockValue(token.value, owner);
      }
    case ExtendCall(i, ttl, _, at) =>
      IssuedIsOwned(w, guard, i);
      ExtendRefines(v.db, ns, w.store, w.issued[i].name, w.issued[i].token, w.issued[i].owner, Millis(ttl), at);
    case ReleaseCall(i, at) =>
      IssuedIsOwned(w, guard, i);
      ReleaseRefines(v.db, ns, w.store, w.issued[i].name, w.issued[i].token, w.issued[i].owner, at);
  }

  lemma StartInStep(ns: string, guard: Resource -> string, start: int)
    ensures InStep(Server(map[], start, [], []), ns, World(Store(map[], map[]), start as real, [], map[], []), guard)
  {
    forall name: string ensures Agree(map[], ns, Store(map[], map[]), name, start) {
    }
  }

  lemma {:induction false} RunsInStep(ns: string, guard: Resource -> string, start: int, calls: seq<Call>)
    ensures InStep(ServeAll(ns, start, calls).0, ns, MemoryAll(guard, start, calls).0, guard)
    ensures ServeAll(ns, start, calls).1 == MemoryAll(guard, start, calls).1
  {
    hide Serve, Next, Represents, Safe, Possible;
    if calls == [] {
      StartInStep(ns, guard, start);
    } else {
      var front, call := calls[..|calls| - 1], calls[|calls| - 1];
      RunsInStep(ns, guard, start, front);
      var v, w := ServeAll(ns, start, front).0, MemoryAll(guard, start, front).0;
      assert w.now.Floor == v.now;
      CallAnswered(v, ns, w, guard, call);
    }
  }

  lemma CallAnswered(v: Server, ns: string, w: World, guard: Resource -> string, call: Call)
    requires InStep(v, ns, w, guard)
    ensures var (v', answer) := Serve(v, ns, call);
            && answer == MemoryAnswer(w.store, w.issued, v.now, call)
            && InStep(v', ns, if answer.NoCall? then w else Next(w, guard, AsStep(call)), guard)
  {
    hide InStep, Next, Millis;
    SameIssued(v, ns, w, guard);
    if Possible(v.now, |v.issued|, call) {
      CallInStep(v, ns, w, guard, call);
    }
  }

  lemma SameIssued(v: Server, ns: string, w: World, guard: Resource -> string)
    requires InStep(v, ns, w, guard)
    ensures v.issued == w.issued && |v.local| == |v.issued|
  {
  }

  /** Redis refines memory: over every sequence of calls, at any instants, the scripts give the
      caller the answers the in-process backend would, token for token. */
  lemma RedisRefinesMemory(ns: string, guard: Resource -> string, start: int, calls: seq<Call>)
    ensures ServeAll(ns, start, calls).1 == MemoryAll(guard, start, calls).1
    ensures ServeAll(ns, start, calls).0.issued == MemoryAll(guard, start, calls).0.issued
    ensures TokensRise(ServeAll(ns, start, calls).0.issued)
  {
    hide ServeAll, MemoryAll;
    RunsInStep(ns, guard, start, calls);
  }

  // Deadlines.

  /** While a lock's key carries the value of a lease, the lease's holder does not think it has longer
      than the server does. */
  predicate LocalEarlier(v: Server, ns: string, i: nat)
    requires |v.local| == |v.issued| && i < |v.issued|
  {
    var lease := v.issued[i];
    var key := LockKey(ns, lease.name);
    key in v.db && v.db[key].text == LockValue(lease.token, lease.owner) ==>
      v.db[key].deadline.Some? && v.local[i] * 1000.0 <= v.db[key].deadline.value as real
  }

  predicate AllEarlier(v: Server, ns: string)
    requires |v.local| == |v.issued|
  {
    forall i :: 0 <= i < |v.issued| ==> LocalEarlier(v, ns, i)
  }

  lemma SameLease(issued: seq<Issue>, i: nat, j: nat)
    requires TokensRise(issued) && i < |issued| && j < |issued|
    requires issued[i].name == issued[j].name
    requires LockValue(issued[i].token, issued[i].owner) == LockValue(issued[j].token, issued[j].owner)
    ensures i == j
  {
    hide LockValue;
    LockValueInjective(issued[i].token, issued[i].owner, issued[j].token, issued[j].owner);
  }

  lemma AcquireEarlier(v: Server, ns: string, call: Call)
    requires |v.local| == |v.issued| && AllEarlier(v, ns) && call.AcquireCall? && Possible(v.now, |v.issued|, call)
    requires TokensRise(Serve(v, ns, call).0.issued)
    requires Serve(v, ns, call).1.Granted? ==>
               AcquireScript(v.db, LockKey(ns, call.name), FenceKey(ns, call.name), call.owner, Millis(call.ttl), call.at).1
               == Taken(LockValue(Serve(v, ns, call).0.issued[|v.issued|].token, call.owner))
    requires !Serve(v, ns, call).1.Unreadable?
    ensures AllEarlier(Serve(v, ns, call).0, ns)
  {
    hide LockKey, FenceKey, LockValue, SplitLockValue, PrintInt, ValidName, TtlMilliseconds, TokensRise;
    var v' := Serve(v, ns, call).0;
    LocalDeadlineIsEarlier(call.ttl, call.started, call.at);
    forall i | 0 <= i < |v'.issued| ensures LocalEarlier(v', ns, i) {
      LockKeysDiffer(ns, call.name, v'.issued[i].name);
      LockKeysDiffer(ns, v'.issued[i].name, call.name);
      if i < |v.issued| {
        assert LocalEarlier(v, ns, i);
        if v'.issued[i].name == call.name && |v'.issued| > |v.issued|
           && LockValue(v'.issued[i].token, v'.issued[i].owner) == LockValue(v'.issued[|v.issued|].token, v'.issued[|v.issued|].owner) {
          SameLease(v'.issued, i, |v.issued|);
        }
      }
    }
  }

  lemma ExtendEarlier(v: Server, ns: string, call: Call)
    requires |v.local| == |v.issued| && AllEarlier(v, ns) && TokensRise(v.issued)
    requires call.ExtendCall? && Possible(v.now, |v.issued|, call)
    ensures AllEarlier(Serve(v, ns, call).0, ns)
  {
    hide LockKey, LockValue, TtlMilliseconds, TokensRise;
    var v' := Serve(v, ns, call).0;
    LocalDeadlineIsEarlier(call.ttl, call.started, call.at);
    forall i | 0 <= i < |v'.issued| ensures LocalEarlier(v', ns, i) {
      LockKeysDiffer(ns, v.issued[call.i].name, v.issued[i].name);
      assert LocalEarlier(v, ns, i);
      if v.issued[i].name == v.issued[call.i].name
         && LockValue(v.issued[i].token, v.issued[i].owner) == LockValue(v.issued[call.i].token, v.issued[call.i].owner) {
        SameLease(v.issued, i, call.i);
      }
    }
  }

  lemma ReleaseEarlier(v: Server, ns: string, call: Call)
    requires |v.local| == |v.issued| && AllEarlier(v, ns) && call.ReleaseCall?
    ensures AllEarlier(Serve(v, ns, call).0, ns)
  {
    hide LockKey, LockValue;
    var v' := Serve(v, ns, call).0;
    forall i | 0 <= i < |v'.issued| ensures LocalEarlier(v', ns, i) {
      assert LocalEarlier(v, ns, i);
    }
  }

  lemma CallEarlier(v: Server, ns: string, w: World, guard: Resource -> string, call: Call)
    requires InStep(v, ns, w, guard) && AllEarlier(v, ns)
    ensures |Serve(v, ns, call).0.local| == |Serve(v, ns, call).0.issued| && AllEarlier(Serve(v, ns, call).0, ns)
  {
    hide AllEarlier, Represents, CountersCover, HeldIsLatest, WritesRise, WritesGuarded, LastIsAccepted, Next, Millis, LockKey, FenceKey,
      LockValue, SplitLockValue, AcquireScript, ExtendScript, ReleaseScript, Acquired, Extended, Freed, ValidName;
    if Possible(v.now, |v.issued|, call) {
      CallInStep(v, ns, w, guard, call);
      match call
      case AcquireCall(name, owner, ttl, _, at) =>
        AgreeLater(v.db, ns, w.store, v.now, at);
        AcquireRefines(v.db, ns, w.store, name, owner, Millis(ttl), at);
        AcquireEarlier(v, ns, call);
      case ExtendCall(_, _, _, _) => ExtendEarlier(v, ns, call);
      case ReleaseCall(_, _) => ReleaseEarlier(v, ns, call);
    }
  }

  /** Over every sequence of calls, whenever the scripts run after the clock readings of their
      callers, no lease's own deadline is later than the deadline of the key that carries it. */
  lemma {:induction false} LocalDeadlinesHold(ns: string, guard: Resource -> string, start: int, calls: seq<Call>)
    ensures AllEarlier(ServeAll(ns, start, calls).0, ns)
  {
    hide Serve, InStep, LocalEarlier;
    if calls != [] {
      var front := calls[..|calls| - 1];
      LocalDeadlinesHold(ns, guard, start, front);
      RunsInStep(ns, guard, start, front);
      CallEarlier(ServeAll(ns, start, front).0, ns, MemoryAll(guard, start, front).0, guard, calls[|calls| - 1]);
    }
  }
}
