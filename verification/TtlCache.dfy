/** The bounded, expiring map of `src/decorators/cache.py`: `_TTLStore` and `CachedFunction`. */
module TtlCache {
  import opened Prelude

  datatype Slot<K, V> = Slot(key: K, value: V, expiresAt: real)

  /** The ordered dictionary, oldest touch first, and the counters. */
  datatype Cache<K, V> = Cache(slots: seq<Slot<K, V>>, evictions: nat, expirations: nat)

  predicate Distinct<K(==), V>(slots: seq<Slot<K, V>>) {
    forall i, j :: 0 <= i < j < |slots| ==> slots[i].key != slots[j].key
  }

  function Find<K(==), V>(slots: seq<Slot<K, V>>, key: K): (r: Option<nat>)
    ensures r.Some? ==> r.value < |slots| && slots[r.value].key == key
    ensures r.None? ==> forall i :: 0 <= i < |slots| ==> slots[i].key != key
  {
    if slots == [] then None
    else if slots[0].key == key then Some(0)
    else
      var rest := Find(slots[1..], key);
      if rest.None? then
        assert forall i :: 1 <= i < |slots| ==> slots[i] == slots[1..][i - 1];
        None
      else Some(rest.value + 1)
  }

  predicate Has<K(==), V>(c: Cache<K, V>, key: K) {
    Find(c.slots, key).Some?
  }

  function Drop<T>(s: seq<T>, i: nat): seq<T>
    requires i < |s|
  {
    s[..i] + s[i + 1..]
  }

  // The operations on values.

  function Peeked<K(==), V>(c: Cache<K, V>, key: K, now: real): (Cache<K, V>, Option<V>) {
    var i := Find(c.slots, key);
    if i.None? then (c, None)
    else
      var slot := c.slots[i.value];
      var rest := Drop(c.slots, i.value);
      if slot.expiresAt <= now then (c.(slots := rest, expirations := c.expirations + 1), None)
      else (c.(slots := rest + [slot]), Some(slot.value))
  }

  function Stored<K(==), V>(c: Cache<K, V>, maxsize: nat, ttl: real, key: K, value: V, now: real): Cache<K, V>
    requires maxsize > 0
  {
    var slot, i := Slot(key, value, now + ttl), Find(c.slots, key);
    if i.Some? then c.(slots := Drop(c.slots, i.value) + [slot])
    else if |c.slots| >= maxsize then c.(slots := c.slots[1..] + [slot], evictions := c.evictions + 1)
    else c.(slots := c.slots + [slot])
  }

  function Invalidated<K(==), V>(c: Cache<K, V>, key: K): (Cache<K, V>, bool) {
    var i := Find(c.slots, key);
    if i.None? then (c, false) else (c.(slots := Drop(c.slots, i.value)), true)
  }

  class TtlStore<K(==), V> {
    const maxsize: nat
    const ttl: real
    var slots: seq<Slot<K, V>>
    var hits: nat
    var misses: nat
    var evictions: nat
    var expirations: nat

    constructor (maxsize: nat, ttl: real)
      ensures this.maxsize == maxsize && this.ttl == ttl && View() == Cache([], 0, 0) && hits == misses == 0
    {
      this.maxsize, this.ttl, slots := maxsize, ttl, [];
      hits, misses, evictions, expirations := 0, 0, 0, 0;
    }

    function View(): Cache<K, V>
      reads this
    {
      Cache(slots, evictions, expirations)
    }

    method Peek(key: K, now: real) returns (r: Option<V>)
      modifies this`slots, this`expirations
      ensures (View(), r) == Peeked(old(View()), key, now)
    {
      var i := Find(slots, key);
      if i.None? {
        return None;
      }
      var slot := slots[i.value];
      slots := Drop(slots, i.value);
      if slot.expiresAt <= now {
        expirations := expirations + 1;
        return None;
      }
      slots := slots + [slot];
      r := Some(slot.value);
    }

    method Set(key: K, value: V, now: real)
      requires maxsize > 0
      modifies this`slots, this`evictions
      ensures View() == Stored(old(View()), maxsize, ttl, key, value, now)
    {
      var i := Find(slots, key);
      if i.None? && |slots| >= maxsize {
        slots := slots[1..];
        evictions := evictions + 1;
      }
      slots := (if i.Some? then Drop(slots, i.value) else slots) + [Slot(key, value, now + ttl)];
    }

    method Invalidate(key: K) returns (found: bool)
      modifies this`slots
      ensures (View(), found) == Invalidated(old(View()), key)
    {
      var i := Find(slots, key);
      found := i.Some?;
      if found {
        slots := Drop(slots, i.value);
      }
    }

    method Clear()
      modifies this
      ensures View() == Cache([], 0, 0) && hits == misses == 0
    {
      slots, hits, misses, evictions, expirations := [], 0, 0, 0, 0;
    }

    /** `CachedFunction.__call__` on this store: `func` is run only for a key with no live entry. */
    method Call(key: K, func: K -> V, now: real, later: real) returns (r: V)
      requires maxsize > 0
      modifies this
      ensures var (c, found) := Peeked(old(View()), key, now);
              if found.Some? then r == found.value && View() == c && hits == old(hits) + 1 && misses == old(misses)
              else
                && r == func(key) && View() == Stored(c, maxsize, ttl, key, r, later)
                && hits == old(hits) && misses == old(misses) + 1
    {
      var found := Peek(key, now);
      if found.Some? {
        hits := hits + 1;
        return found.value;
      }
      misses := misses + 1;
      r := func(key);
      Set(key, r, later);
    }
  }

  // The reference: a plain map that never evicts and never expires, with the time and the
  // order things happened to each key.

  datatype Note<V> = Note(value: V, at: real)

  /** `latest` is the last value set for a key and when; `touched` when, in steps, the key was
      last set or found. `inserts` and `invalidations` count since the last clear. */
  datatype Journal<K, V> = Journal(
    latest: map<K, Note<V>>,
    touched: map<K, nat>,
    steps: nat,
    inserts: nat,
    invalidations: nat)

  datatype World<K, V> = World(cache: Cache<K, V>, now: real, journal: Journal<K, V>)

  datatype Step<K, V> = Peek(key: K, at: real) | Set(key: K, value: V, at: real) | Invalidate(key: K) | Clear

  function Touched<K(==), V>(j: Journal<K, V>, key: K): Journal<K, V> {
    j.(touched := j.touched[key := j.steps + 1])
  }

  function Noted<K(==), V>(w: World<K, V>, step: Step<K, V>): Journal<K, V> {
    var j := w.journal;
    var j' :=
      match step
      case Peek(key, at) => if Peeked(w.cache, key, at).1.Some? then Touched(j, key) else j
      case Set(key, value, at) =>
        Touched(j, key).(latest := j.latest[key := Note(value, at)],
                         inserts := if Has(w.cache, key) then j.inserts else j.inserts + 1)
      case Invalidate(key) =>
        j.(latest := j.latest - {key},
           invalidations := if Has(w.cache, key) then j.invalidations + 1 else j.invalidations)
      case Clear => j.(latest := map[], inserts := 0, invalidations := 0);
    j'.(steps := j.steps + 1)
  }

  function Next<K(==), V>(w: World<K, V>, maxsize: nat, ttl: real, step: Step<K, V>): World<K, V>
    requires maxsize > 0
  {
    if (step.Peek? || step.Set?) && step.at < w.now then w
    else
      var journal := Noted(w, step);
      match step
      case Peek(key, at) => World(Peeked(w.cache, key, at).0, at, journal)
      case Set(key, value, at) => World(Stored(w.cache, maxsize, ttl, key, value, at), at, journal)
      case Invalidate(key) => World(Invalidated(w.cache, key).0, w.now, journal)
      case Clear => World(Cache([], 0, 0), w.now, journal)
  }

  function Run<K(==), V>(w: World<K, V>, maxsize: nat, ttl: real, steps: seq<Step<K, V>>): World<K, V>
    requires maxsize > 0
  {
    if steps == [] then w else Next(Run(w, maxsize, ttl, steps[..|steps| - 1]), maxsize, ttl, steps[|steps| - 1])
  }

  ghost predicate Fresh<K, V>(w: World<K, V>) {
    w.cache == Cache([], 0, 0) && w.journal.latest == map[] && w.journal.inserts == w.journal.invalidations == 0
  }

  /** An entry is the last value set for its key, due to expire one TTL after it was set. */
  ghost predicate Backed<K, V>(slot: Slot<K, V>, j: Journal<K, V>, ttl: real) {
    && slot.key in j.latest && slot.key in j.touched
    && slot.value == j.latest[slot.key].value && slot.expiresAt == j.latest[slot.key].at + ttl
    && j.touched[slot.key] <= j.steps
  }

  ghost predicate AllBacked<K, V>(slots: seq<Slot<K, V>>, j: Journal<K, V>, ttl: real) {
    forall i :: 0 <= i < |slots| ==> Backed(slots[i], j, ttl)
  }

  ghost predicate ByTouch<K, V>(slots: seq<Slot<K, V>>, touched: map<K, nat>) {
    && (forall i :: 0 <= i < |slots| ==> slots[i].key in touched)
    && (forall i, k :: 0 <= i < k < |slots| ==> touched[slots[i].key] < touched[slots[k].key])
  }

  ghost predicate Balanced<K, V>(c: Cache<K, V>, j: Journal<K, V>) {
    j.inserts == |c.slots| + c.evictions + c.expirations + j.invalidations
  }

  /** With no eviction since the last clear, everything still young is there. */
  ghost predicate Complete<K, V>(w: World<K, V>, ttl: real) {
    w.cache.evictions == 0 ==>
      forall key :: key in w.journal.latest && w.journal.latest[key].at + ttl > w.now ==> Has(w.cache, key)
  }

  ghost predicate Sound<K, V>(w: World<K, V>, maxsize: nat, ttl: real) {
    && Distinct(w.cache.slots)
    && |w.cache.slots| <= maxsize
    && AllBacked(w.cache.slots, w.journal, ttl)
    && ByTouch(w.cache.slots, w.journal.touched)
    && Balanced(w.cache, w.journal)
    && Complete(w, ttl)
  }

  lemma DropKeeps<K, V>(slots: seq<Slot<K, V>>, i: nat, j: Journal<K, V>, ttl: real)
    requires i < |slots| && Distinct(slots) && AllBacked(slots, j, ttl) && ByTouch(slots, j.touched)
    ensures var rest := Drop(slots, i);
            && Distinct(rest) && AllBacked(rest, j, ttl) && ByTouch(rest, j.touched)
            && Find(rest, slots[i].key).None?
            && forall key :: key != slots[i].key ==> (Find(rest, key).Some? <==> Find(slots, key).Some?)
  {
    hide Backed, Find;
    var rest := Drop(slots, i);
    forall k | 0 <= k < |rest| ensures Backed(rest[k], j, ttl) && rest[k].key in j.touched && rest[k].key != slots[i].key {
      DropAt(slots, i, k);
      assert Backed(slots[if k < i then k else k + 1], j, ttl);
    }
    forall k, l | 0 <= k < l < |rest| ensures rest[k].key != rest[l].key && j.touched[rest[k].key] < j.touched[rest[l].key] {
      DropAt(slots, i, k);
      DropAt(slots, i, l);
    }
    forall key | key != slots[i].key ensures Find(rest, key).Some? <==> Find(slots, key).Some? {
      DropFinds(slots, i, key);
    }
  }

  lemma DropAt<T>(s: seq<T>, i: nat, k: nat)
    requires i < |s| && k < |s| - 1
    ensures Drop(s, i)[k] == s[if k < i then k else k + 1]
  {
  }

  lemma DropFinds<K, V>(slots: seq<Slot<K, V>>, i: nat, key: K)
    requires i < |slots| && key != slots[i].key
    ensures Find(Drop(slots, i), key).Some? <==> Find(slots, key).Some?
  {
    hide Find;
    var was, left := Find(slots, key), Find(Drop(slots, i), key);
    if was.Some? {
      DropAt(slots, i, if was.value < i then was.value else was.value - 1);
    }
    if left.Some? {
      DropAt(slots, i, left.value);
    }
  }

  /** Putting a slot at the end, touched now, where its key was not present. */
  lemma PushKeeps<K, V>(slots: seq<Slot<K, V>>, slot: Slot<K, V>, j: Journal<K, V>, j': Journal<K, V>, ttl: real)
    requires Distinct(slots) && AllBacked(slots, j, ttl) && ByTouch(slots, j.touched) && Find(slots, slot.key).None?
    requires j'.steps == j.steps + 1 && j'.touched == j.touched[slot.key := j'.steps]
    requires forall key :: key != slot.key ==>
               (key in j.latest <==> key in j'.latest) && (key in j.latest ==> j'.latest[key] == j.latest[key])
    requires Backed(slot, j', ttl)
    ensures var all := slots + [slot];
            && Distinct(all) && AllBacked(all, j', ttl) && ByTouch(all, j'.touched)
            && Find(all, slot.key).Some?
            && forall key :: key != slot.key ==> (Find(all, key).Some? <==> Find(slots, key).Some?)
  {
    hide Find;
    var all := slots + [slot];
    assert all[|slots|] == slot;
    forall i | 0 <= i < |slots| ensures Backed(slots[i], j', ttl) && j'.touched[slots[i].key] < j'.steps {
      assert Backed(slots[i], j, ttl);
    }
    forall key | key != slot.key ensures Find(all, key).Some? <==> Find(slots, key).Some? {
      if Find(slots, key).Some? {
        assert all[Find(slots, key).value].key == key;
      }
    }
  }

  lemma Aged<K, V>(slots: seq<Slot<K, V>>, j: Journal<K, V>, j': Journal<K, V>, ttl: real)
    requires AllBacked(slots, j, ttl) && j'.latest == j.latest && j'.touched == j.touched && j'.steps == j.steps + 1
    ensures AllBacked(slots, j', ttl)
  {
    forall i | 0 <= i < |slots| ensures Backed(slots[i], j', ttl) {
      assert Backed(slots[i], j, ttl);
    }
  }

  lemma PeekSound<K, V>(w: World<K, V>, maxsize: nat, ttl: real, key: K, at: real)
    requires maxsize > 0 && Sound(w, maxsize, ttl) && w.now <= at
    ensures Sound(Next(w, maxsize, ttl, Peek(key, at)), maxsize, ttl)
  {
    hide Distinct, AllBacked, ByTouch, Find, Backed;
    var w' := Next(w, maxsize, ttl, Peek(key, at));
    var slots, i := w.cache.slots, Find(w.cache.slots, key);
    if i.None? {
      Aged(slots, w.journal, w'.journal, ttl);
    } else {
      DropKeeps(slots, i.value, w.journal, ttl);
      var rest := Drop(slots, i.value);
      BackedAt(slots, w.journal, ttl, i.value);
      if slots[i.value].expiresAt <= at {
        Aged(rest, w.journal, w'.journal, ttl);
        ExpiredIsOld(slots[i.value], w.journal, ttl, at);
      } else {
        StillBacked(slots[i.value], w.journal, w'.journal, ttl);
        PushKeeps(rest, slots[i.value], w.journal, w'.journal, ttl);
      }
    }
  }

  lemma BackedAt<K, V>(slots: seq<Slot<K, V>>, j: Journal<K, V>, ttl: real, i: nat)
    requires AllBacked(slots, j, ttl) && i < |slots|
    ensures Backed(slots[i], j, ttl)
  {
  }

  lemma ExpiredIsOld<K, V>(slot: Slot<K, V>, j: Journal<K, V>, ttl: real, at: real)
    requires Backed(slot, j, ttl) && slot.expiresAt <= at
    ensures slot.key in j.latest && j.latest[slot.key].at + ttl <= at
  {
  }

  lemma StillBacked<K, V>(slot: Slot<K, V>, j: Journal<K, V>, j': Journal<K, V>, ttl: real)
    requires Backed(slot, j, ttl)
    requires j'.latest == j.latest && j'.steps == j.steps + 1 && j'.touched == j.touched[slot.key := j'.steps]
    ensures Backed(slot, j', ttl)
  {
  }

  lemma NewBacked<K, V>(j': Journal<K, V>, ttl: real, key: K, value: V, at: real)
    requires key in j'.latest && j'.latest[key] == Note(value, at) && key in j'.touched && j'.touched[key] == j'.steps
    ensures Backed(Slot(key, value, at + ttl), j', ttl)
  {
  }

  lemma SetSound<K, V>(w: World<K, V>, maxsize: nat, ttl: real, key: K, value: V, at: real)
    requires maxsize > 0 && Sound(w, maxsize, ttl) && w.now <= at
    ensures Sound(Next(w, maxsize, ttl, Set(key, value, at)), maxsize, ttl)
  {
    hide Distinct, AllBacked, ByTouch, Find, Backed;
    var w' := Next(w, maxsize, ttl, Set(key, value, at));
    var slots, i, slot := w.cache.slots, Find(w.cache.slots, key), Slot(key, value, at + ttl);
    NewBacked(w'.journal, ttl, key, value, at);
    if i.Some? {
      DropKeeps(slots, i.value, w.journal, ttl);
      PushKeeps(Drop(slots, i.value), slot, w.journal, w'.journal, ttl);
    } else if |slots| >= maxsize {
      assert Drop(slots, 0) == slots[1..];
      DropKeeps(slots, 0, w.journal, ttl);
      assert Find(slots[1..], key).None?;
      PushKeeps(slots[1..], slot, w.journal, w'.journal, ttl);
    } else {
      PushKeeps(slots, slot, w.journal, w'.journal, ttl);
    }
  }

  lemma InvalidateSound<K, V>(w: World<K, V>, maxsize: nat, ttl: real, key: K)
    requires maxsize > 0 && Sound(w, maxsize, ttl)
    ensures Sound(Next(w, maxsize, ttl, Invalidate(key)), maxsize, ttl)
  {
    hide Distinct, ByTouch, Find;
    var w' := Next(w, maxsize, ttl, Invalidate(key));
    var slots, i := w.cache.slots, Find(w.cache.slots, key);
    if i.Some? {
      DropKeeps(slots, i.value, w.journal, ttl);
    }
    forall k | 0 <= k < |w'.cache.slots| ensures Backed(w'.cache.slots[k], w'.journal, ttl) {
      assert Backed(w'.cache.slots[k], w.journal, ttl);
    }
  }

  lemma StepSound<K, V>(w: World<K, V>, maxsize: nat, ttl: real, step: Step<K, V>)
    requires maxsize > 0 && Sound(w, maxsize, ttl)
    ensures Sound(Next(w, maxsize, ttl, step), maxsize, ttl)
  {
    match step
    case Peek(key, at) => if w.now <= at { PeekSound(w, maxsize, ttl, key, at); }
    case Set(key, value, at) => if w.now <= at { SetSound(w, maxsize, ttl, key, value, at); }
    case Invalidate(key) => InvalidateSound(w, maxsize, ttl, key);
    case Clear =>
  }

  lemma {:induction false} RunSound<K, V>(w: World<K, V>, maxsize: nat, ttl: real, steps: seq<Step<K, V>>)
    requires maxsize > 0 && Sound(w, maxsize, ttl)
    ensures Sound(Run(w, maxsize, ttl, steps), maxsize, ttl)
  {
    hide Sound, Next;
    if steps != [] {
      RunSound(w, maxsize, ttl, steps[..|steps| - 1]);
      StepSound(Run(w, maxsize, ttl, steps[..|steps| - 1]), maxsize, ttl, steps[|steps| - 1]);
    }
  }

  /** The cache refines a plain timestamped map. After any run, a look-up that finds something
      finds the last value set for the key, younger than the TTL; the size stays within bounds;
      inserts of new keys balance against what is there and what has gone; and when nothing has
      been evicted since the last clear a look-up finds exactly what the plain map says is young. */
  lemma CacheRefinesMap<K, V>(w: World<K, V>, maxsize: nat, ttl: real, steps: seq<Step<K, V>>, key: K, at: real)
    requires maxsize > 0 && Fresh(w)
    ensures var end := Run(w, maxsize, ttl, steps);
            var found := Peeked(end.cache, key, at).1;
            && (found.Some? ==>
                  && key in end.journal.latest && found.value == end.journal.latest[key].value
                  && at < end.journal.latest[key].at + ttl)
            && (found.None? && end.cache.evictions == 0 && end.now <= at ==>
                  key !in end.journal.latest || at >= end.journal.latest[key].at + ttl)
            && |end.cache.slots| <= maxsize
            && end.journal.inserts == |end.cache.slots| + end.cache.evictions + end.cache.expirations + end.journal.invalidations
  {
    RunSound(w, maxsize, ttl, steps);
    hide Run, Distinct, ByTouch;
    var end := Run(w, maxsize, ttl, steps);
    var i := Find(end.cache.slots, key);
    assert i.Some? ==> Backed(end.cache.slots[i.value], end.journal, ttl);
  }

  /** Whatever a store evicts was set or found longer ago than everything it keeps. */
  lemma EvictsLeastRecentlyTouched<K, V>(w: World<K, V>, maxsize: nat, ttl: real, steps: seq<Step<K, V>>,
                                             key: K, value: V, at: real, victim: K, other: K)
    requires maxsize > 0 && Fresh(w)
    requires var end := Run(w, maxsize, ttl, steps);
             var after := Stored(end.cache, maxsize, ttl, key, value, at);
             && Has(end.cache, victim) && !Has(after, victim)
             && Has(end.cache, other) && other != victim
    ensures var end := Run(w, maxsize, ttl, steps);
            && Has(Stored(end.cache, maxsize, ttl, key, value, at), other)
            && victim in end.journal.touched && other in end.journal.touched
            && end.journal.touched[victim] < end.journal.touched[other]
  {
    RunSound(w, maxsize, ttl, steps);
    hide Run, AllBacked, Find;
    var end := Run(w, maxsize, ttl, steps);
    var slots := end.cache.slots;
    var v, o := Find(slots, victim).value, Find(slots, other).value;
    if v > 0 || Has(end.cache, key) {
      KeptUnlessFirst(end.cache, maxsize, ttl, key, value, at, v);
    }
    KeptUnlessFirst(end.cache, maxsize, ttl, key, value, at, o);
  }

  lemma KeptUnlessFirst<K, V>(c: Cache<K, V>, maxsize: nat, ttl: real, key: K, value: V, at: real, k: nat)
    requires maxsize > 0 && k < |c.slots| && (k > 0 || Has(c, key))
    ensures Has(Stored(c, maxsize, ttl, key, value, at), c.slots[k].key)
  {
    var after := Stored(c, maxsize, ttl, key, value, at).slots;
    var i := Find(c.slots, key);
    if i.None? {
      assert |c.slots| >= maxsize ==> after[k - 1] == c.slots[k];
      assert |c.slots| < maxsize ==> after[k] == c.slots[k];
    } else if c.slots[k].key == key {
      assert after[|after| - 1].key == key;
    } else {
      assert after[if k < i.value then k else k - 1] == c.slots[k];
    }
  }

  /** An entry is evicted only to make room: exactly when a new key finds the store full. Otherwise
      everything stays, and the key is there afterwards with the value and lifetime it was given. */
  lemma EvictsIffFull<K, V>(c: Cache<K, V>, maxsize: nat, ttl: real, key: K, value: V, at: real, other: K)
    requires maxsize > 0 && |c.slots| <= maxsize && Distinct(c.slots)
    ensures var after := Stored(c, maxsize, ttl, key, value, at);
            && (after.evictions == c.evictions + 1 <==> !Has(c, key) && |c.slots| == maxsize)
            && (after.evictions != c.evictions ==> after.evictions == c.evictions + 1)
            && |after.slots| == (if Has(c, key) || |c.slots| == maxsize then |c.slots| else |c.slots| + 1)
            && after.expirations == c.expirations
            && after.slots[|after.slots| - 1] == Slot(key, value, at + ttl)
            && (after.evictions == c.evictions && Has(c, other) ==> Has(after, other))
  {
    hide Distinct;
    var after := Stored(c, maxsize, ttl, key, value, at);
    if Has(c, other) && after.evictions == c.evictions {
      var k := Find(c.slots, other).value;
      if Find(c.slots, key).None? {
        assert after.slots[k] == c.slots[k];
      } else {
        KeptUnlessFirst(c, maxsize, ttl, key, value, at, k);
      }
    }
  }

  /** A look-up drops an entry only if it has expired, and moves no other entry. */
  lemma PeekIff<K, V>(c: Cache<K, V>, key: K, now: real)
    ensures var (after, found) := Peeked(c, key, now);
            && (found.Some? <==> Has(c, key) && c.slots[Find(c.slots, key).value].expiresAt > now)
            && (found.Some? ==> found.value == c.slots[Find(c.slots, key).value].value && |after.slots| == |c.slots|)
            && (after.expirations == c.expirations + (if Has(c, key) && found.None? then 1 else 0))
            && (Has(c, key) && found.None? ==> |after.slots| == |c.slots| - 1)
            && (!Has(c, key) ==> after == c)
            && after.evictions == c.evictions
  {
  }
}
