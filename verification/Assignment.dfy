/** How a group's partitions are dealt out (`InMemoryBroker.partitions_for` and
    `InMemoryMessageSource._rebalance` in `src/kafka/memory.py`). */
module Assignment {
  import opened Records

  /** Code-point order on strings, as Python's `sorted` uses. */
  predicate AtMost(a: string, b: string) {
    a == "" || (b != "" && (a[0] < b[0] || (a[0] == b[0] && AtMost(a[1..], b[1..]))))
  }

  function Insert(x: string, s: seq<string>): seq<string> {
    if s == [] || AtMost(x, s[0]) then [x] + s else [s[0]] + Insert(x, s[1..])
  }

  /** `sorted(topics)`. */
  function Sort(s: seq<string>): seq<string> {
    if s == [] then [] else Insert(s[0], Sort(s[1..]))
  }

  /** `_Topic.partitions`. */
  function PartitionsOf(topic: string, count: nat): seq<Partition> {
    seq(count, i requires 0 <= i => Partition(topic, i))
  }

  function Concat(names: seq<string>, counts: string -> nat): seq<Partition> {
    if names == [] then [] else PartitionsOf(names[0], counts(names[0])) + Concat(names[1..], counts)
  }

  /** `partitions_for`. */
  function PartitionsFor(topics: seq<string>, counts: string -> nat): seq<Partition> {
    Concat(Sort(topics), counts)
  }

  /** Those of `ps` at a position that is `index` modulo `n`, from position `k` on. */
  function Dealt(ps: seq<Partition>, n: nat, index: nat, k: nat): seq<Partition>
    requires n > 0 && k <= |ps|
    decreases |ps| - k
  {
    if k == |ps| then []
    else (if k % n == index then [ps[k]] else []) + Dealt(ps, n, index, k + 1)
  }

  /** What the member at `index` of `n` is assigned. */
  function Share(topics: seq<string>, counts: string -> nat, n: nat, index: nat): seq<Partition>
    requires n > 0
  {
    Dealt(PartitionsFor(topics, counts), n, index, 0)
  }

  // Sorting is canonical.

  lemma {:induction false} AtMostTotal(a: string, b: string)
    ensures AtMost(a, b) || AtMost(b, a)
    ensures AtMost(a, b) && AtMost(b, a) ==> a == b
  {
    if a != "" && b != "" {
      AtMostTotal(a[1..], b[1..]);
      assert a == [a[0]] + a[1..] && b == [b[0]] + b[1..];
    }
  }

  lemma {:induction false} AtMostTransitive(a: string, b: string, c: string)
    requires AtMost(a, b) && AtMost(b, c)
    ensures AtMost(a, c)
  {
    if a != "" && a[0] == b[0] == c[0] {
      AtMostTransitive(a[1..], b[1..], c[1..]);
    }
  }

  lemma {:induction false} InsertKeeps(x: string, s: seq<string>)
    ensures multiset(Insert(x, s)) == multiset(s) + multiset{x}
  {
    if s != [] && !AtMost(x, s[0]) {
      InsertKeeps(x, s[1..]);
      assert s == [s[0]] + s[1..];
    }
  }

  lemma {:induction false} SortKeeps(s: seq<string>)
    ensures multiset(Sort(s)) == multiset(s)
  {
    if s != [] {
      SortKeeps(s[1..]);
      InsertKeeps(s[0], Sort(s[1..]));
      assert s == [s[0]] + s[1..];
    }
  }

  predicate Sorted(s: seq<string>) {
    forall i, j :: 0 <= i < j < |s| ==> AtMost(s[i], s[j])
  }

  lemma {:induction false} InsertSorts(x: string, s: seq<string>)
    requires Sorted(s)
    ensures Sorted(Insert(x, s))
  {
    if s != [] {
      AtMostTotal(x, s[0]);
      if AtMost(x, s[0]) {
        forall j | 0 <= j < |s| ensures AtMost(x, s[j]) {
          if j > 0 { AtMostTransitive(x, s[0], s[j]); }
        }
      } else {
        var rest := Insert(x, s[1..]);
        InsertSorts(x, s[1..]);
        InsertKeeps(x, s[1..]);
        forall j | 0 <= j < |rest| ensures AtMost(s[0], rest[j]) {
          assert rest[j] in multiset(rest);
          assert rest[j] == x || rest[j] in s[1..];
        }
      }
    }
  }

  /** Topics are taken in code-point order. */
  lemma {:induction false} SortSorts(s: seq<string>)
    ensures Sorted(Sort(s)) && multiset(Sort(s)) == multiset(s)
  {
    SortKeeps(s);
    if s != [] {
      SortSorts(s[1..]);
      InsertSorts(s[0], Sort(s[1..]));
    }
  }

  lemma FirstIsLeast(s: seq<string>, x: string)
    requires Sorted(s) && x in s
    ensures AtMost(s[0], x)
  {
    AtMostTotal(x, x);
  }

  lemma TailsAgree(s: seq<string>, t: seq<string>)
    requires s != [] && t != [] && s[0] == t[0] && multiset(s) == multiset(t)
    ensures multiset(s[1..]) == multiset(t[1..])
  {
    assert s == [s[0]] + s[1..] && t == [t[0]] + t[1..];
    assert multiset(s[1..]) == multiset(s) - multiset{s[0]};
    assert multiset(t[1..]) == multiset(t) - multiset{t[0]};
  }

  lemma {:induction false} SortedIsUnique(s: seq<string>, t: seq<string>)
    requires Sorted(s) && Sorted(t) && multiset(s) == multiset(t)
    ensures s == t
    decreases |s|
  {
    hide AtMost;
    if s == [] {
      assert |multiset(t)| == 0;
    } else {
      assert s[0] in multiset(t);
      assert t[0] in multiset(s);
      FirstIsLeast(s, t[0]);
      FirstIsLeast(t, s[0]);
      AtMostTotal(s[0], t[0]);
      TailsAgree(s, t);
      SortedIsUnique(s[1..], t[1..]);
      assert s == [s[0]] + s[1..] && t == [t[0]] + t[1..];
    }
  }

  /** `sorted` gives the same list for every order the same names are written in. */
  lemma SortIsCanonical(s: seq<string>, t: seq<string>)
    requires multiset(s) == multiset(t)
    ensures Sort(s) == Sort(t)
  {
    hide Sort, Sorted;
    SortSorts(s);
    SortSorts(t);
    SortedIsUnique(Sort(s), Sort(t));
  }

  // The deal is a partition.

  predicate Distinct<T(==)>(s: seq<T>) {
    forall i, j :: 0 <= i < j < |s| ==> s[i] != s[j]
  }

  lemma DistinctByCount<T>(s: seq<T>)
    ensures Distinct(s) <==> forall x :: x in s ==> multiset(s)[x] == 1
  {
    if Distinct(s) {
      forall x | x in s ensures multiset(s)[x] == 1 {
        OneCopy(s, x);
      }
    } else {
      var i, j :| 0 <= i < j < |s| && s[i] == s[j];
      assert s == s[..i] + [s[i]] + s[i + 1..j] + [s[j]] + s[j + 1..];
      assert multiset(s)[s[i]] >= 2;
    }
  }

  lemma {:induction false} OneCopy<T>(s: seq<T>, x: T)
    requires Distinct(s)
    ensures multiset(s)[x] == if x in s then 1 else 0
  {
    if s != [] {
      OneCopy(s[1..], x);
      assert s == [s[0]] + s[1..];
    }
  }

  lemma {:induction false} ConcatHas(names: seq<string>, counts: string -> nat, p: Partition)
    ensures p in Concat(names, counts) <==> p.topic in names && p.number < counts(p.topic)
  {
    if names != [] {
      ConcatHas(names[1..], counts, p);
      if p.topic == names[0] && p.number < counts(p.topic) {
        assert PartitionsOf(names[0], counts(names[0]))[p.number] == p;
      }
    }
  }

  lemma {:induction false} ConcatDistinct(names: seq<string>, counts: string -> nat)
    requires Distinct(names)
    ensures Distinct(Concat(names, counts))
  {
    if names != [] {
      ConcatDistinct(names[1..], counts);
      var first, rest := PartitionsOf(names[0], counts(names[0])), Concat(names[1..], counts);
      forall i, j | 0 <= i < |first| && 0 <= j < |rest| ensures first[i] != rest[j] {
        ConcatHas(names[1..], counts, rest[j]);
      }
    }
  }

  lemma {:induction false} DealtHas(ps: seq<Partition>, n: nat, index: nat, k: nat, p: Partition)
    requires n > 0 && k <= |ps|
    ensures p in Dealt(ps, n, index, k) <==> exists j :: k <= j < |ps| && ps[j] == p && j % n == index
    decreases |ps| - k
  {
    if k < |ps| {
      DealtHas(ps, n, index, k + 1, p);
    }
  }

  /** Members that name the same duplicate-free set of topics, in whatever order, split its
      partitions: every partition has exactly one owner, and nobody owns anything else. */
  lemma EveryPartitionHasOneOwner(all: seq<seq<string>>, topics: seq<string>, counts: string -> nat, p: Partition)
    requires all != [] && Distinct(topics)
    requires forall i :: 0 <= i < |all| ==> multiset(all[i]) == multiset(topics)
    ensures p.topic in topics && p.number < counts(p.topic) ==>
              exists i :: 0 <= i < |all| && p in Share(all[i], counts, |all|, i)
    ensures forall i, j :: 0 <= i < j < |all| && p in Share(all[i], counts, |all|, i) ==> p !in Share(all[j], counts, |all|, j)
    ensures forall i :: 0 <= i < |all| && p in Share(all[i], counts, |all|, i) ==> p.topic in topics && p.number < counts(p.topic)
  {
    hide Sort, Concat, Dealt;
    var n, ps := |all|, PartitionsFor(topics, counts);
    PartitionsForFacts(topics, counts, p);
    forall i | 0 <= i < n
      ensures p in Share(all[i], counts, n, i) <==> exists k :: 0 <= k < |ps| && ps[k] == p && k % n == i
    {
      SortIsCanonical(all[i], topics);
      DealtHas(ps, n, i, 0, p);
    }
    if p in ps {
      var k :| 0 <= k < |ps| && ps[k] == p;
      assert p in Share(all[k % n], counts, n, k % n);
    }
  }

  lemma PartitionsForFacts(topics: seq<string>, counts: string -> nat, p: Partition)
    requires Distinct(topics)
    ensures Distinct(PartitionsFor(topics, counts))
    ensures p in PartitionsFor(topics, counts) <==> p.topic in topics && p.number < counts(p.topic)
  {
    hide Sort, Concat, Distinct;
    SortKeeps(topics);
    DistinctByCount(topics);
    DistinctByCount(Sort(topics));
    SortedSameNames(topics);
    ConcatDistinct(Sort(topics), counts);
    ConcatHas(Sort(topics), counts, p);
  }

  lemma SortedSameNames(topics: seq<string>)
    ensures forall t :: t in Sort(topics) <==> t in topics
  {
    SortKeeps(topics);
    forall t ensures t in Sort(topics) <==> t in topics {
      assert t in multiset(Sort(topics)) <==> t in multiset(topics);
    }
  }

  // And only then.

  predicate Owned(all: seq<seq<string>>, counts: string -> nat, p: Partition) {
    exists i :: 0 <= i < |all| && p in Share(all[i], counts, |all|, i)
  }

  /** Every partition somebody names has an owner, however many partitions the topics have. */
  ghost predicate Covers(all: seq<seq<string>>) {
    forall counts: string -> nat, i, p: Partition ::
      0 <= i < |all| && p.topic in all[i] && p.number < counts(p.topic) ==> Owned(all, counts, p)
  }

  predicate SameTopics(all: seq<seq<string>>) {
    forall i, j :: 0 <= i < |all| && 0 <= j < |all| ==> multiset(all[i]) == multiset(all[j])
  }

  /** `topic` has `many` partitions and every other topic one. */
  function Lopsided(topic: string, many: nat): string -> nat {
    t => if t == topic then many else 1
  }

  function Place(names: seq<string>, name: string): (k: nat)
    requires name in names
  {
    if names[0] == name then 0 else Place(names[1..], name) + 1
  }

  /** The many partitions of the one topic are consecutive, from the topic's place on. */
  lemma {:induction false} OneAfterAnother(names: seq<string>, topic: string, many: nat, j: nat)
    requires Distinct(names) && topic in names
    requires j < |Concat(names, Lopsided(topic, many))| && Concat(names, Lopsided(topic, many))[j].topic == topic
    ensures j == Place(names, topic) + Concat(names, Lopsided(topic, many))[j].number
  {
    var counts := Lopsided(topic, many);
    var first, rest := PartitionsOf(names[0], counts(names[0])), Concat(names[1..], counts);
    if j >= |first| {
      ConcatHas(names[1..], counts, rest[j - |first|]);
      OneAfterAnother(names[1..], topic, many, j - |first|);
    }
  }

  lemma SameRemainder(n: nat, k: nat, x: nat, y: nat)
    requires x < n && y < n && (k + x) % n == (k + y) % n
    ensures x == y
  {
    var d := (k + x) / n - (k + y) / n;
    assert x - y == n * d by {
      assert k + x == n * ((k + x) / n) + (k + x) % n;
      assert k + y == n * ((k + y) / n) + (k + y) % n;
      Distributes(n, (k + x) / n, (k + y) / n);
    }
    Scaled(n, d);
  }

  lemma Scaled(n: int, d: int)
    requires n > 0
    ensures d >= 1 ==> n * d >= n
    ensures d <= -1 ==> n * d <= 0 - n
  {
  }

  lemma Distributes(n: int, a: int, b: int)
    ensures n * a - n * b == n * (a - b)
  {
  }

  /** So with as many of them as there are members, each member is dealt at most one. */
  lemma AtMostOneEach(topics: seq<string>, topic: string, n: nat, i: nat, x: nat, y: nat)
    requires Distinct(topics) && n > 0
    requires Partition(topic, x) in Share(topics, Lopsided(topic, n), n, i)
    requires Partition(topic, y) in Share(topics, Lopsided(topic, n), n, i)
    ensures topic in topics && x < n && y < n && x == y
  {
    hide Sort, Concat, Dealt, Place;
    var counts, ps := Lopsided(topic, n), PartitionsFor(topics, Lopsided(topic, n));
    DealtHas(ps, n, i, 0, Partition(topic, x));
    DealtHas(ps, n, i, 0, Partition(topic, y));
    PartitionsForFacts(topics, counts, Partition(topic, x));
    PartitionsForFacts(topics, counts, Partition(topic, y));
    var jx :| 0 <= jx < |ps| && ps[jx] == Partition(topic, x) && jx % n == i;
    var jy :| 0 <= jy < |ps| && ps[jy] == Partition(topic, y) && jy % n == i;
    SortedDistinct(topics);
    OneAfterAnother(Sort(topics), topic, n, jx);
    OneAfterAnother(Sort(topics), topic, n, jy);
    SameRemainder(n, Place(Sort(topics), topic), x, y);
  }

  lemma SortedDistinct(topics: seq<string>)
    requires Distinct(topics)
    ensures Distinct(Sort(topics)) && forall t :: t in Sort(topics) <==> t in topics
  {
    hide Sort;
    SortKeeps(topics);
    DistinctByCount(topics);
    DistinctByCount(Sort(topics));
    SortedSameNames(topics);
  }

  function UpTo(n: nat): (s: set<nat>)
    ensures |s| == n && forall x: nat :: x in s <==> x < n
  {
    if n == 0 then {} else UpTo(n - 1) + {n - 1}
  }

  predicate Owns(all: seq<seq<string>>, topic: string, i: nat, x: nat)
    requires i < |all|
  {
    Partition(topic, x) in Share(all[i], Lopsided(topic, |all|), |all|, i)
  }

  predicate OwnedBefore(all: seq<seq<string>>, topic: string, k: nat, x: nat)
    requires k <= |all|
  {
    exists i :: 0 <= i < k && Owns(all, topic, i, x)
  }

  /** The numbers of `topic`'s partitions that members before `k` own: no more than those members
      that may name it. */
  lemma {:induction false} FewOwned(all: seq<seq<string>>, topic: string, k: nat, numbers: set<nat>, deaf: nat)
    requires k <= |all| && (forall i :: 0 <= i < |all| ==> Distinct(all[i]))
    requires deaf < |all| && topic !in all[deaf]
    requires forall x :: x in numbers ==> OwnedBefore(all, topic, k, x)
    ensures |numbers| <= if deaf < k then k - 1 else k
  {
    hide Owns, Distinct;
    if k == 0 {
      assert numbers == {};
    } else {
      var last := set x | x in numbers && Owns(all, topic, k - 1, x);
      forall x | x in numbers - last ensures OwnedBefore(all, topic, k - 1, x) {
        var i :| 0 <= i < k && Owns(all, topic, i, x);
      }
      FewOwned(all, topic, k - 1, numbers - last, deaf);
      AtMostOneNumber(all, topic, k - 1, last);
      assert numbers == (numbers - last) + last;
    }
  }

  lemma AtMostOneNumber(all: seq<seq<string>>, topic: string, i: nat, numbers: set<nat>)
    requires i < |all| && Distinct(all[i])
    requires forall x :: x in numbers ==> Owns(all, topic, i, x)
    ensures |numbers| <= if topic in all[i] then 1 else 0
  {
    hide Share, Lopsided;
    if numbers != {} {
      var x :| x in numbers;
      forall y | y in numbers ensures y == x && topic in all[i] {
        AtMostOneEach(all[i], topic, |all|, i, x, y);
      }
      assert numbers == {x};
    }
  }

  /** A topic that some member does not name can be left with a partition nobody owns: give it as
      many partitions as there are members. */
  lemma DifferentTopicsLeaveGaps(all: seq<seq<string>>, topic: string, deaf: nat) returns (p: Partition)
    requires forall i :: 0 <= i < |all| ==> Distinct(all[i])
    requires deaf < |all| && topic !in all[deaf]
    ensures p.topic == topic && p.number < |all| && !Owned(all, Lopsided(topic, |all|), p)
  {
    hide Share, Lopsided;
    var n := |all|;
    if forall x: nat :: x < n ==> Owned(all, Lopsided(topic, n), Partition(topic, x)) {
      forall x | x in UpTo(n) ensures OwnedBefore(all, topic, n, x) {
        var i :| 0 <= i < n && Partition(topic, x) in Share(all[i], Lopsided(topic, n), n, i);
        assert Owns(all, topic, i, x);
      }
      FewOwned(all, topic, n, UpTo(n), deaf);
    } else {
      var x: nat :| x < n && !Owned(all, Lopsided(topic, n), Partition(topic, x));
      p := Partition(topic, x);
    }
  }

  lemma DistinctSameNames(s: seq<string>, t: seq<string>)
    requires Distinct(s) && Distinct(t) && (forall x :: x in s <==> x in t)
    ensures multiset(s) == multiset(t)
  {
    forall x ensures multiset(s)[x] == multiset(t)[x] {
      OneCopy(s, x);
      OneCopy(t, x);
    }
  }

  /** Two members that name different topics: one names a topic the other does not. */
  lemma NamedByOne(all: seq<seq<string>>) returns (topic: string, i: nat, deaf: nat)
    requires (forall i :: 0 <= i < |all| ==> Distinct(all[i])) && !SameTopics(all)
    ensures i < |all| && deaf < |all| && topic in all[i] && topic !in all[deaf]
  {
    var a, b :| 0 <= a < |all| && 0 <= b < |all| && multiset(all[a]) != multiset(all[b]);
    if x :| x in all[a] && x !in all[b] {
      topic, i, deaf := x, a, b;
    } else {
      if forall x :: x in all[b] ==> x in all[a] {
        DistinctSameNames(all[a], all[b]);
      }
      var x :| x in all[b] && x !in all[a];
      topic, i, deaf := x, b, a;
    }
  }

  /** Members of a group that list no topic twice cover every partition they name, for every number
      of partitions, exactly when they all name the same topics. */
  lemma CoversIffSameTopics(all: seq<seq<string>>)
    requires all != [] && forall i :: 0 <= i < |all| ==> Distinct(all[i])
    ensures Covers(all) <==> SameTopics(all)
  {
    hide Share, Lopsided, Owned;
    if SameTopics(all) {
      forall counts: string -> nat, i, p: Partition | 0 <= i < |all| && p.topic in all[i] && p.number < counts(p.topic)
        ensures Owned(all, counts, p)
      {
        OwnedBySame(all, counts, i, p);
      }
    } else {
      var topic, i, deaf := NamedByOne(all);
      var p := DifferentTopicsLeaveGaps(all, topic, deaf);
      ManyOf(topic, |all|);
    }
  }

  lemma OwnedBySame(all: seq<seq<string>>, counts: string -> nat, i: nat, p: Partition)
    requires SameTopics(all) && i < |all| && Distinct(all[i]) && p.topic in all[i] && p.number < counts(p.topic)
    ensures Owned(all, counts, p)
  {
    hide Share;
    EveryPartitionHasOneOwner(all, all[i], counts, p);
  }

  lemma ManyOf(topic: string, many: nat)
    ensures Lopsided(topic, many)(topic) == many
  {
  }

  /** The smallest such group. */
  lemma GapBetweenTwo()
    ensures var all := [["b"], ["a", "b"]];
            exists p: Partition :: p.topic == "a" && p.number < 2 && !Owned(all, Lopsided("a", 2), p)
  {
    hide Share, Lopsided, Owned;
    var all := [["b"], ["a", "b"]];
    var p := DifferentTopicsLeaveGaps(all, "a", 0);
  }
}
