/** The reference-counted per-key locks of `AsyncCachedFunction` (`src/decorators/cache.py`), under
    every interleaving of the coroutines that use them. */
module SingleFlight {

  type Key = string
  type CallerId = nat

  /** Which `asyncio.Lock` object: each one made gets the next number. */
  type LockId = nat

  datatype Slots = Slots(locks: map<Key, LockId>, waiting: map<Key, nat>, made: nat)

  function Waiting(s: Slots, key: Key): nat {
    if key in s.waiting then s.waiting[key] else 0
  }

  function SlotTaken(s: Slots, key: Key): (Slots, LockId) {
    var unseen := key !in s.locks;
    var lock := if unseen then s.made else s.locks[key];
    (Slots(s.locks[key := lock], s.waiting[key := Waiting(s, key) + 1], if unseen then s.made + 1 else s.made), lock)
  }

  function SlotDropped(s: Slots, key: Key): Slots
    requires Waiting(s, key) > 0
  {
    if s.waiting[key] > 1 then s.(waiting := s.waiting[key := s.waiting[key] - 1])
    else s.(waiting := s.waiting - {key}, locks := s.locks - {key})
  }

  class SlotTable {
    var locks: map<Key, LockId>
    var waiting: map<Key, nat>
    var made: nat

    constructor ()
      ensures View() == Slots(map[], map[], 0)
    {
      locks, waiting, made := map[], map[], 0;
    }

    function View(): Slots
      reads this
    {
      Slots(locks, waiting, made)
    }

    /** `_acquire_slot`. */
    method AcquireSlot(key: Key) returns (lock: LockId)
      modifies this
      ensures (View(), lock) == SlotTaken(old(View()), key)
    {
      if key in locks {
        lock := locks[key];
        assert locks == locks[key := lock];
      } else {
        lock := made;
        made := made + 1;
        locks := locks[key := lock];
      }
      waiting := waiting[key := (if key in waiting then waiting[key] else 0) + 1];
    }

    /** `_release_slot`. */
    method ReleaseSlot(key: Key)
      requires Waiting(View(), key) > 0
      modifies this
      ensures View() == SlotDropped(old(View()), key)
    {
      var remaining := waiting[key] - 1;
      if remaining > 0 {
        waiting := waiting[key := remaining];
        return;
      }
      waiting := waiting - {key};
      locks := locks - {key};
    }
  }

  // Interleavings. A step is what one coroutine does between two points where it can be
  // suspended; the order of steps is arbitrary.

  /** A caller inside its slot, queueing for the lock or holding it while the function runs. */
  datatype Caller = Caller(key: Key, lock: LockId, running: bool)

  /** `live` is the keys the store has a live entry for and `calls` the calls of the wrapped function
      so far, by key. `broken` is set if `_release_slot` ever looks up a key that is not there. */
  datatype World = World(
    slots: Slots,
    holder: map<LockId, CallerId>,
    callers: map<CallerId, Caller>,
    live: set<Key>,
    calls: seq<Key>,
    broken: bool)

  datatype Step =
    | Arrive(c: CallerId, key: Key)     // look the key up; on a miss take a slot and queue for its lock
    | Enter(c: CallerId)                // got the lock: look again, and on a miss start the function
    | Return(c: CallerId)               // it returned, and its value is stored
    | Fail(c: CallerId)                 // it raised or was cancelled
    | CancelQueued(c: CallerId)         // cancelled while queueing
    | Lapse(key: Key)                   // the entry expires, is evicted or is invalidated
    | CacheClear

  predicate CanEnter(w: World, c: CallerId) {
    c in w.callers && !w.callers[c].running && w.callers[c].lock !in w.holder
  }

  function Gone(w: World, c: CallerId): World
    requires c in w.callers
  {
    if Waiting(w.slots, w.callers[c].key) == 0 then w.(broken := true)
    else w.(callers := w.callers - {c}, slots := SlotDropped(w.slots, w.callers[c].key))
  }

  /** Out of the lock and out of the slot. */
  function Done(w: World, c: CallerId): World
    requires c in w.callers
  {
    Gone(w, c).(holder := w.holder - {w.callers[c].lock})
  }

  function Next(w: World, step: Step): World {
    match step
    case Arrive(c, key) =>
      if c in w.callers || key in w.live then w
      else
        var (slots, lock) := SlotTaken(w.slots, key);
        w.(slots := slots, callers := w.callers[c := Caller(key, lock, false)])
    case Enter(c) =>
      if !CanEnter(w, c) then w
      else if w.callers[c].key in w.live then Gone(w, c)
      else Called(w, c)
    case Return(c) => if Runs(w, c) then Done(w, c).(live := w.live + {w.callers[c].key}) else w
    case Fail(c) => if Runs(w, c) then Done(w, c) else w
    case CancelQueued(c) => if c in w.callers && !w.callers[c].running then Gone(w, c) else w
    case Lapse(key) => w.(live := w.live - {key})
    case CacheClear => w.(live := {})
  }

  function Called(w: World, c: CallerId): World
    requires c in w.callers
  {
    w.(holder := w.holder[w.callers[c].lock := c],
       callers := w.callers[c := w.callers[c].(running := true)],
       calls := w.calls + [w.callers[c].key])
  }

  predicate Runs(w: World, c: CallerId) {
    c in w.callers && w.callers[c].running
  }

  function Run(w: World, steps: seq<Step>): World {
    if steps == [] then w else Next(Run(w, steps[..|steps| - 1]), steps[|steps| - 1])
  }

  function Inside(callers: map<CallerId, Caller>, key: Key): set<CallerId> {
    set c | c in callers && callers[c].key == key
  }

  /** Every caller in a slot shares the one lock its key has. */
  predicate OneLockPerKey(w: World) {
    forall c :: c in w.callers ==>
      w.callers[c].key in w.slots.locks && w.slots.locks[w.callers[c].key] == w.callers[c].lock
  }

  predicate LocksDiffer(s: Slots) {
    && (forall key :: key in s.locks ==> s.locks[key] < s.made)
    && (forall a, b :: a in s.locks && b in s.locks && a != b ==> s.locks[a] != s.locks[b])
  }

  /** The count is the number of callers inside, and the lock lives exactly as long as it is not zero. */
  predicate CountedAt(s: Slots, callers: map<CallerId, Caller>, key: Key) {
    && Waiting(s, key) == |Inside(callers, key)|
    && (key in s.locks <==> Waiting(s, key) > 0)
    && (key in s.waiting <==> Waiting(s, key) > 0)
  }

  ghost predicate Counted(w: World) {
    forall key: Key :: CountedAt(w.slots, w.callers, key)
  }

  predicate HeldByRunner(w: World) {
    && (forall c :: c in w.callers && w.callers[c].running ==>
          w.callers[c].lock in w.holder && w.holder[w.callers[c].lock] == c)
    && (forall l :: l in w.holder ==>
          w.holder[l] in w.callers && w.callers[w.holder[l]].running && w.callers[w.holder[l]].lock == l)
  }

  ghost predicate Tidy(w: World) {
    !w.broken && OneLockPerKey(w) && LocksDiffer(w.slots) && Counted(w) && HeldByRunner(w)
  }

  lemma InsideSlot(w: World, c: CallerId)
    requires Counted(w) && c in w.callers
    ensures Waiting(w.slots, w.callers[c].key) > 0 && w.callers[c].key in w.slots.locks
  {
    InsideHas(w.callers, c);
    assert CountedAt(w.slots, w.callers, w.callers[c].key);
  }

  lemma InsideHas(callers: map<CallerId, Caller>, c: CallerId)
    requires c in callers
    ensures |Inside(callers, callers[c].key)| > 0
  {
    assert c in Inside(callers, callers[c].key);
  }

  lemma InsideSame(callers: map<CallerId, Caller>, c: CallerId, caller: Caller, key: Key)
    requires c in callers && caller.key == callers[c].key
    ensures |Inside(callers[c := caller], key)| == |Inside(callers, key)|
  {
    assert Inside(callers[c := caller], key) == Inside(callers, key);
  }

  lemma InsideAdds(callers: map<CallerId, Caller>, c: CallerId, caller: Caller, key: Key)
    requires c !in callers
    ensures |Inside(callers[c := caller], key)| == |Inside(callers, key)| + (if key == caller.key then 1 else 0)
  {
    assert Inside(callers[c := caller], key) == Inside(callers, key) + (if key == caller.key then {c} else {});
  }

  lemma InsideDrops(callers: map<CallerId, Caller>, c: CallerId, key: Key)
    requires c in callers
    ensures |Inside(callers - {c}, key)| == |Inside(callers, key)| - (if key == callers[c].key then 1 else 0)
  {
    assert Inside(callers - {c}, key) == Inside(callers, key) - (if key == callers[c].key then {c} else {});
  }

  lemma ArriveTidy(w: World, c: CallerId, key: Key)
    requires Tidy(w) && c !in w.callers && key !in w.live
    ensures Tidy(Next(w, Arrive(c, key)))
  {
    hide Inside, Counted;
    var w' := Next(w, Arrive(c, key));
    ArriveCounted(w, c, key);
  }

  lemma ArriveCounted(w: World, c: CallerId, key: Key)
    requires Counted(w) && c !in w.callers && key !in w.live
    ensures Counted(Next(w, Arrive(c, key)))
  {
    hide Inside;
    var w' := Next(w, Arrive(c, key));
    forall k: Key ensures CountedAt(w'.slots, w'.callers, k) {
      InsideAdds(w.callers, c, w'.callers[c], k);
      assert CountedAt(w.slots, w.callers, k);
    }
  }

  /** Dropping a lock is safe: when the count reaches zero nobody else is inside. */
  lemma LeaveTidy(w: World, c: CallerId, holder: map<LockId, CallerId>)
    requires Tidy(w) && c in w.callers
    requires holder == if w.callers[c].running then w.holder - {w.callers[c].lock} else w.holder
    ensures Tidy(Gone(w, c).(holder := holder))
  {
    hide Inside, Counted, HeldByRunner;
    var w' := Gone(w, c).(holder := holder);
    InsideSlot(w, c);
    LeaveCounted(w, c);
    LeaveHeld(w, c, holder);
    forall d | d in w'.callers
      ensures w'.callers[d].key in w'.slots.locks && w'.slots.locks[w'.callers[d].key] == w'.callers[d].lock
    {
      InsideSlot(Gone(w, c), d);
    }
  }

  lemma LeaveCounted(w: World, c: CallerId)
    requires Counted(w) && c in w.callers
    ensures Counted(Gone(w, c)) && forall holder :: Counted(Gone(w, c).(holder := holder))
  {
    hide Inside;
    InsideSlot(w, c);
    var w' := Gone(w, c);
    forall k: Key ensures CountedAt(w'.slots, w'.callers, k) {
      InsideDrops(w.callers, c, k);
      assert CountedAt(w.slots, w.callers, k);
    }
  }

  lemma LeaveHeld(w: World, c: CallerId, holder: map<LockId, CallerId>)
    requires HeldByRunner(w) && c in w.callers && Waiting(w.slots, w.callers[c].key) > 0
    requires holder == if w.callers[c].running then w.holder - {w.callers[c].lock} else w.holder
    ensures HeldByRunner(Gone(w, c).(holder := holder))
  {
    hide SlotDropped;
  }

  lemma EnterTidy(w: World, c: CallerId)
    requires Tidy(w) && CanEnter(w, c)
    ensures Tidy(Called(w, c))
  {
    hide Inside;
    var w' := Called(w, c);
    forall k: Key ensures CountedAt(w'.slots, w'.callers, k) {
      InsideSame(w.callers, c, w'.callers[c], k);
      assert CountedAt(w.slots, w.callers, k);
    }
  }

  /** The discipline does not depend on what the store holds. */
  lemma StoreAside(w: World, w': World)
    requires Tidy(w) && w'.(live := w.live) == w
    ensures Tidy(w')
  {
    assert forall key: Key :: CountedAt(w.slots, w.callers, key) ==> CountedAt(w'.slots, w'.callers, key);
  }

  lemma StepTidy(w: World, step: Step)
    requires Tidy(w)
    ensures Tidy(Next(w, step))
  {
    hide Tidy;
    match step
    case Arrive(c, key) => if c !in w.callers && key !in w.live { ArriveTidy(w, c, key); }
    case Enter(c) =>
      if CanEnter(w, c) {
        LeaveTidy(w, c, w.holder);
        EnterTidy(w, c);
      }
    case Return(c) =>
      if Runs(w, c) {
        LeaveTidy(w, c, w.holder - {w.callers[c].lock});
        StoreAside(Done(w, c), Next(w, step));
      }
    case Fail(c) => if Runs(w, c) { LeaveTidy(w, c, w.holder - {w.callers[c].lock}); }
    case CancelQueued(c) => if c in w.callers && !w.callers[c].running { LeaveTidy(w, c, w.holder); }
    case Lapse(key) => StoreAside(w, Next(w, step));
    case CacheClear => StoreAside(w, Next(w, step));
  }

  predicate Fresh(w: World) {
    w == World(Slots(map[], map[], 0), map[], map[], {}, [], false)
  }

  lemma FreshTidy(w: World)
    requires Fresh(w)
    ensures Tidy(w)
  {
    forall key: Key ensures CountedAt(w.slots, w.callers, key) {
      assert Inside(w.callers, key) == {};
    }
  }

  lemma {:induction false} RunTidy(w: World, steps: seq<Step>)
    requires Tidy(w)
    ensures Tidy(Run(w, steps))
  {
    hide Tidy, Next;
    if steps != [] {
      RunTidy(w, steps[..|steps| - 1]);
      StepTidy(Run(w, steps[..|steps| - 1]), steps[|steps| - 1]);
    }
  }

  /** Single flight: however callers interleave, fail, are cancelled and clear the cache, at most
      one call of the wrapped function runs per key, no release finds its slot missing, and a lock
      is kept exactly while somebody is inside its slot. */
  lemma OneFlightPerKey(w: World, steps: seq<Step>)
    requires Fresh(w)
    ensures var end := Run(w, steps);
            && !end.broken
            && (forall c, d :: Runs(end, c) && Runs(end, d) && end.callers[c].key == end.callers[d].key ==> c == d)
            && (forall key: Key :: key in end.slots.locks <==> Inside(end.callers, key) != {})
  {
    hide Run;
    FreshTidy(w);
    RunTidy(w, steps);
    var end := Run(w, steps);
    forall key: Key ensures key in end.slots.locks <==> Inside(end.callers, key) != {} {
      assert CountedAt(end.slots, end.callers, key);
    }
  }

  // How often the function is called.

  function Times(calls: seq<Key>, key: Key): nat {
    if calls == [] then 0
    else Times(calls[..|calls| - 1], key) + if calls[|calls| - 1] == key then 1 else 0
  }

  /** What can make another call of a key necessary: a call that failed, or the loss of the entry. */
  predicate IsSetback(w: World, step: Step, key: Key) {
    || (step.Fail? && Runs(w, step.c) && w.callers[step.c].key == key)
    || step == Lapse(key)
    || step.CacheClear?
  }

  function Setbacks(w: World, steps: seq<Step>, key: Key): nat {
    if steps == [] then 0
    else
      var front := steps[..|steps| - 1];
      Setbacks(w, front, key) + if IsSetback(Run(w, front), steps[|steps| - 1], key) then 1 else 0
  }

  /** The key is cold: no entry, and nobody making one. */
  ghost predicate Cold(w: World, key: Key) {
    key !in w.live && forall c :: Runs(w, c) ==> w.callers[c].key != key
  }

  ghost function Warm(w: World, key: Key): nat {
    if Cold(w, key) then 0 else 1
  }

  lemma StepCalls(w: World, step: Step, key: Key)
    requires Tidy(w)
    ensures var w' := Next(w, step);
            Times(w'.calls, key) + Warm(w, key) <= Times(w.calls, key) + Warm(w', key) + if IsSetback(w, step, key) then 1 else 0
  {
    hide Tidy, Times, SlotDropped, SlotTaken;
    var w' := Next(w, step);
    match step
    case Enter(c) =>
      if CanEnter(w, c) && w.callers[c].key !in w.live {
        OneMoreCall(w.calls, w.callers[c].key, key);
        if w.callers[c].key == key {
          NobodyRuns(w, c);
          assert Runs(w', c);
        } else {
          StillRuns(w, w', key);
        }
      } else {
        StillRuns(w, w', key);
      }
    case _ => if !IsSetback(w, step, key) { StillRuns(w, w', key); }
  }

  lemma OneMoreCall(calls: seq<Key>, called: Key, key: Key)
    ensures Times(calls + [called], key) == Times(calls, key) + if called == key then 1 else 0
  {
    assert (calls + [called])[..|calls|] == calls;
  }

  /** A caller that can enter its key's lock finds nobody running that key. */
  lemma NobodyRuns(w: World, c: CallerId)
    requires Tidy(w) && CanEnter(w, c)
    ensures forall d :: Runs(w, d) ==> w.callers[d].key != w.callers[c].key
  {
    hide Counted;
  }

  lemma StillRuns(w: World, w': World, key: Key)
    requires key in w.live ==> key in w'.live
    requires forall c :: Runs(w, c) && w.callers[c].key == key ==> (Runs(w', c) && w'.callers[c].key == key) || key in w'.live
    ensures Cold(w', key) ==> Cold(w, key)
  {
  }

  /** Over a whole run the function is called for a key at most once, plus once for every call that
      failed and every time the entry was lost: whoever queues behind a successful call is answered
      from the store. */
  lemma {:induction false} CallsAreBounded(w: World, steps: seq<Step>, key: Key)
    requires Fresh(w)
    ensures Times(Run(w, steps).calls, key) <= Setbacks(w, steps, key) + Warm(Run(w, steps), key)
    ensures Times(Run(w, steps).calls, key) <= Setbacks(w, steps, key) + 1
  {
    hide Next, Times, Cold, IsSetback;
    if steps == [] {
      NoCalls(w, key);
    } else {
      var front := steps[..|steps| - 1];
      CallsAreBounded(w, front, key);
      FreshTidy(w);
      RunTidy(w, front);
      StepCalls(Run(w, front), steps[|steps| - 1], key);
    }
  }

  lemma NoCalls(w: World, key: Key)
    requires Fresh(w)
    ensures Times(w.calls, key) == 0
  {
  }

  // Nobody waits for nothing.

  /** Whenever nobody runs a key, every caller queued for it can go on: it is answered from the store if
      there is an entry, and otherwise makes the call. And a call that ends leaves its key like that,
      with an entry if it returned. */
  lemma QueueMoves(w: World, steps: seq<Step>, c: CallerId)
    requires Fresh(w) && c in Run(w, steps).callers
    ensures var s := Run(w, steps);
            var key := s.callers[c].key;
            && (!s.callers[c].running && (forall d :: Runs(s, d) ==> s.callers[d].key != key) ==>
                  var after := Next(s, Enter(c));
                  if key in s.live then c !in after.callers && after.calls == s.calls
                  else Runs(after, c) && after.calls == s.calls + [key])
            && (s.callers[c].running ==>
                  var returned, failed := Next(s, Return(c)), Next(s, Fail(c));
                  && c !in returned.callers && c !in failed.callers && key in returned.live && failed.live == s.live
                  && (forall d :: Runs(returned, d) || Runs(failed, d) ==> s.callers[d].key != key))
  {
    FreshTidy(w);
    RunTidy(w, steps);
    hide Run, Inside, Next;
    var s := Run(w, steps);
    InsideSlot(s, c);
    if s.callers[c].running {
      Ends(s, c);
    } else if forall d :: Runs(s, d) ==> s.callers[d].key != s.callers[c].key {
      Goes(s, c);
    }
  }

  lemma Goes(s: World, c: CallerId)
    requires Tidy(s) && c in s.callers && !s.callers[c].running && Waiting(s.slots, s.callers[c].key) > 0
    requires forall d :: Runs(s, d) ==> s.callers[d].key != s.callers[c].key
    ensures var key, after := s.callers[c].key, Next(s, Enter(c));
            if key in s.live then c !in after.callers && after.calls == s.calls
            else Runs(after, c) && after.calls == s.calls + [key]
  {
    hide Counted;
    assert s.callers[c].lock in s.holder ==> Runs(s, s.holder[s.callers[c].lock]);
    assert CanEnter(s, c);
  }

  lemma Ends(s: World, c: CallerId)
    requires Tidy(s) && Runs(s, c) && Waiting(s.slots, s.callers[c].key) > 0
    ensures var key, returned, failed := s.callers[c].key, Next(s, Return(c)), Next(s, Fail(c));
            && c !in returned.callers && c !in failed.callers && key in returned.live && failed.live == s.live
            && (forall d :: Runs(returned, d) || Runs(failed, d) ==> d in s.callers && s.callers[d].key != key)
  {
    hide Counted;
  }
}
