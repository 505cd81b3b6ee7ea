/** Interleaved requests over one store: reserve, execute, then complete or release. */
module IdempotencyRuns {
  import opened Prelude
  import opened IdempotencyStore
  import opened IdempotencyMiddleware

  type RequestId = nat

  /** An execution of the application, and when the reservation it holds runs out. */
  datatype Execution = Execution(key: string, fingerprint: string, deadline: real)

  datatype World = World(records: Records, now: real, running: map<RequestId, Execution>)

  datatype Lifetimes = Lifetimes(reservation: real, record: real)

  /** `Ask` is a request reaching `reserve`. `Settle` is the end of an execution: with a response
      to store, or without one because it failed, was cancelled, or ended in something that is
      not stored. A settlement that does not reach the store leaves it alone. */
  datatype Step =
    | Ask(r: RequestId, key: string, fingerprint: string, at: real, later: real)
    | Settle(r: RequestId, response: Option<StoredResponse>, reached: bool, at: real)

  function Latest(step: Step): real {
    if step.Ask? then step.later else step.at
  }

  function Next(w: World, t: Lifetimes, step: Step): World {
    match step
    case Ask(r, key, fingerprint, at, later) =>
      if r in w.running || !(w.now <= at <= later) then w
      else
        var (records, existing) := Reserved(w.records, t.reservation, key, fingerprint, at, later);
        World(records, later,
              if existing.Some? then w.running
              else w.running[r := Execution(key, fingerprint, later + t.reservation)])
    case Settle(r, response, reached, at) =>
      if r !in w.running || at < w.now then w
      else
        var e := w.running[r];
        var records :=
          if !reached then w.records
          else if response.Some? then Completed(w.records, t.record, e.key, IdempotencyRecord(e.fingerprint, response), at)
          else w.records - {e.key};
        World(records, at, w.running - {r})
  }

  function Run(w: World, t: Lifetimes, steps: seq<Step>): World {
    if steps == [] then w else Next(Run(w, t, steps[..|steps| - 1]), t, steps[|steps| - 1])
  }

  /** The reservation `r` was granted is still what the store holds for its key. */
  predicate Holds(w: World, r: RequestId)
    requires r in w.running
  {
    var e := w.running[r];
    e.key in w.records && w.records[e.key] == Entry(IdempotencyRecord(e.fingerprint, None), e.deadline)
  }

  predicate Sole(w: World, key: string) {
    forall r, s :: r in w.running && s in w.running && w.running[r].key == w.running[s].key == key ==> r == s
  }

  /** At most one execution of `key`, and it holds the key's reservation. */
  predicate Guarded(w: World, key: string) {
    Sole(w, key) && forall r :: r in w.running && w.running[r].key == key ==> Holds(w, r)
  }

  /** A request for `key` that finds an execution of it past its reservation. */
  predicate IsLate(w: World, step: Step, key: string) {
    && step.Ask? && step.key == key && step.r !in w.running && w.now <= step.at <= step.later
    && exists s :: s in w.running && w.running[s].key == key && w.running[s].deadline <= step.at
  }

  /** Both directions at once: a step keeps the key to one execution exactly if it is not late. */
  lemma StepGuarded(w: World, t: Lifetimes, step: Step, key: string)
    requires Guarded(w, key)
    ensures !IsLate(w, step, key) ==> Guarded(Next(w, t, step), key)
    ensures IsLate(w, step, key) ==> !Sole(Next(w, t, step), key)
  {
    var w' := Next(w, t, step);
    if IsLate(w, step, key) {
      var s :| s in w.running && w.running[s].key == key && w.running[s].deadline <= step.at;
      assert Holds(w, s);
      assert s in w'.running && step.r in w'.running && w'.running[s].key == w'.running[step.r].key == key;
    } else {
      forall r | r in w'.running && w'.running[r].key == key && r in w.running ensures Holds(w', r) {
        assert Holds(w, r);
      }
    }
  }

  ghost predicate NoneLate(w: World, t: Lifetimes, steps: seq<Step>, key: string) {
    forall n :: 0 <= n < |steps| ==> !IsLate(Run(w, t, steps[..n]), steps[n], key)
  }

  ghost predicate SoleThroughout(w: World, t: Lifetimes, steps: seq<Step>, key: string) {
    forall n :: 0 <= n <= |steps| ==> Sole(Run(w, t, steps[..n]), key)
  }

  lemma RunOne(w: World, t: Lifetimes, steps: seq<Step>, n: nat)
    requires n < |steps|
    ensures Run(w, t, steps[..n + 1]) == Next(Run(w, t, steps[..n]), t, steps[n])
  {
    hide Next;
    assert steps[..n + 1][..n] == steps[..n];
  }

  lemma {:induction false} GuardedUpTo(w: World, t: Lifetimes, steps: seq<Step>, key: string, n: nat)
    requires w.running == map[] && n <= |steps|
    requires forall k :: 0 <= k < n ==> !IsLate(Run(w, t, steps[..k]), steps[k], key)
    ensures Guarded(Run(w, t, steps[..n]), key)
  {
    hide Next, IsLate;
    if n > 0 {
      GuardedUpTo(w, t, steps, key, n - 1);
      RunOne(w, t, steps, n - 1);
      StepGuarded(Run(w, t, steps[..n - 1]), t, steps[n - 1], key);
    }
  }

  /** At most one execution of a key runs at any time of a run exactly if no request for that key
      arrives when an execution of it has outlived its reservation. Other keys do not matter, and
      neither does an overrun that no second request meets. */
  lemma AtMostOneIffNoneLate(w: World, t: Lifetimes, steps: seq<Step>, key: string)
    requires w.running == map[]
    ensures SoleThroughout(w, t, steps, key) <==> NoneLate(w, t, steps, key)
  {
    hide Next, Run, IsLate, Sole;
    if NoneLate(w, t, steps, key) {
      forall n | 0 <= n <= |steps| ensures Sole(Run(w, t, steps[..n]), key) {
        GuardedUpTo(w, t, steps, key, n);
      }
    } else {
      FirstLateShares(w, t, steps, key);
    }
  }

  lemma FirstLateShares(w: World, t: Lifetimes, steps: seq<Step>, key: string)
    requires w.running == map[] && !NoneLate(w, t, steps, key)
    ensures !SoleThroughout(w, t, steps, key)
  {
    hide Next, Run, IsLate, Sole;
    var n := 0;
    while !IsLate(Run(w, t, steps[..n]), steps[n], key)
      invariant n < |steps|
      invariant forall k :: 0 <= k < n ==> !IsLate(Run(w, t, steps[..k]), steps[k], key)
      decreases |steps| - n
    {
      assert n + 1 == |steps| ==> NoneLate(w, t, steps, key);
      n := n + 1;
    }
    GuardedUpTo(w, t, steps, key, n);
    RunOne(w, t, steps, n);
    StepGuarded(Run(w, t, steps[..n]), t, steps[n], key);
  }

  /** Nothing happens so late that an execution outlives its reservation. */
  ghost predicate AllInTime(w: World, t: Lifetimes, steps: seq<Step>) {
    forall n :: 0 <= n < |steps| ==> InTime(Run(w, t, steps[..n]), steps[n])
  }

  predicate InTime(w: World, step: Step) {
    forall r :: r in w.running ==> Latest(step) < w.running[r].deadline
  }

  /** In particular there is at most one execution per key at any time, for every key, if every
      execution settles before its reservation expires. */
  lemma AtMostOneExecution(w: World, t: Lifetimes, steps: seq<Step>, key: string)
    requires w.running == map[] && AllInTime(w, t, steps)
    ensures SoleThroughout(w, t, steps, key)
  {
    hide Next, Run, Sole;
    forall n | 0 <= n < |steps| ensures !IsLate(Run(w, t, steps[..n]), steps[n], key) {
      assert InTime(Run(w, t, steps[..n]), steps[n]);
    }
    AtMostOneIffNoneLate(w, t, steps, key);
  }

  /** The smallest failing run: a first execution that overruns shares its key with a second. */
  lemma OverrunningExecutionIsJoined(t: Lifetimes)
    requires t.reservation > 0.0
    ensures var end := Run(World(map[], 0.0, map[]), t,
                           [Ask(1, "k", "f", 0.0, 0.0), Ask(2, "k", "f", t.reservation, t.reservation)]);
            && 1 in end.running && 2 in end.running && end.running[1].key == end.running[2].key
  {
    var w0 := World(map[], 0.0, map[]);
    var first, second := Ask(1, "k", "f", 0.0, 0.0), Ask(2, "k", "f", t.reservation, t.reservation);
    var w1 := Next(w0, t, first);
    assert [first, second][..1] == [first] && [first][..0] == [];
    assert Run(w0, t, [first]) == w1;
    assert Run(w0, t, [first, second]) == Next(w1, t, second);
  }

  // After a stored completion.

  predicate Before(steps: seq<Step>, end: real) {
    forall i :: 0 <= i < |steps| ==> Latest(steps[i]) < end
  }

  /** The key is finished with `record` until `end`: nothing runs for it. */
  predicate Done(w: World, key: string, record: IdempotencyRecord, end: real) {
    && key in w.records && w.records[key] == Entry(record, end)
    && forall r :: r in w.running ==> w.running[r].key != key
  }

  lemma StepDone(w: World, t: Lifetimes, step: Step, key: string, record: IdempotencyRecord, end: real)
    requires Done(w, key, record, end) && Latest(step) < end
    ensures Done(Next(w, t, step), key, record, end)
  {
  }

  lemma {:induction false} StaysDone(w: World, t: Lifetimes, steps: seq<Step>, key: string, record: IdempotencyRecord, end: real)
    requires Done(w, key, record, end) && Before(steps, end)
    ensures Done(Run(w, t, steps), key, record, end)
  {
    hide Done, Next;
    if steps != [] {
      StaysDone(w, t, steps[..|steps| - 1], key, record, end);
      StepDone(Run(w, t, steps[..|steps| - 1]), t, steps[|steps| - 1], key, record, end);
    }
  }

  /** After the one execution of a key stores a completion, and until that expires, the application never runs for that key
      again, whatever else happens in between: the same request gets the stored response and any
      other request under the key is refused. */
  lemma CompletionIsFinal(w: World, t: Lifetimes, r: RequestId, response: StoredResponse, at: real,
                          steps: seq<Step>, fingerprint: string, asked: real)
    requires r in w.running && Sole(w, w.running[r].key) && w.now <= at
    requires Before(steps, at + t.record) && asked < at + t.record
    ensures var e := w.running[r];
            var record := IdempotencyRecord(e.fingerprint, Some(response));
            var end := Run(Next(w, t, Settle(r, Some(response), true, at)), t, steps);
            && (forall s :: s in end.running ==> end.running[s].key != e.key)
            && (forall later :: Reserved(end.records, t.reservation, e.key, fingerprint, asked, later) == (end.records, Some(record)))
            && (AnswerTo(record, e.key, fingerprint).Replay? <==> fingerprint == e.fingerprint)
            && (AnswerTo(record, e.key, fingerprint) == KeyReused <==> fingerprint != e.fingerprint)
  {
    hide Run;
    var e := w.running[r];
    var record := IdempotencyRecord(e.fingerprint, Some(response));
    var w1 := Next(w, t, Settle(r, Some(response), true, at));
    assert Done(w1, e.key, record, at + t.record);
    StaysDone(w1, t, steps, e.key, record, at + t.record);
  }

  /** So a retry is answered with what the first client was sent. `parts` is what the application sent
      in the one execution of a key, complete and fit to be kept; then, until the record expires and
      whatever happens in between, the same request reaching `reserve` is replayed a response with
      the same status and body, and with the same headers in order except for cookies and the marks. */
  lemma RetryGetsTheResponse(w: World, t: Lifetimes, r: RequestId, parts: seq<Outgoing>, limit: nat, at: real,
                             steps: seq<Step>, asked: real, later: real, key: string)
    requires r in w.running && Sole(w, w.running[r].key) && w.now <= at
    requires ToStore(parts, limit).Some?
    requires Before(steps, at + t.record) && asked < at + t.record
    ensures var e := w.running[r];
            var end := Run(Next(w, t, Settle(r, ToStore(parts, limit), true, at)), t, steps);
            var existing := Reserved(end.records, t.reservation, e.key, e.fingerprint, asked, later).1;
            && existing.Some?
            && var answer := AnswerTo(existing.value, key, e.fingerprint);
               && answer.Replay? && Finished(answer.parts)
               && Opening(answer.parts).0 == Opening(parts).0
               && ResponseBody(answer.parts) == ResponseBody(parts)
               && Opening(answer.parts).1 == WithoutCookies(Opening(parts).1) + [(KEY_HEADER, key), (REPLAYED_HEADER, "true")]
  {
    hide Run, Next, ToStore, AnswerTo, Reserved, Opening, ResponseBody, Finished, WithoutCookies;
    var e := w.running[r];
    CompletionIsFinal(w, t, r, ToStore(parts, limit).value, at, steps, e.fingerprint, asked);
    ReplayIsTheResponse(parts, limit, key, e.fingerprint);
  }

  /** The key is free: nothing stored for it, and nothing running. */
  predicate Free(w: World, key: string) {
    key !in w.records && forall r :: r in w.running ==> w.running[r].key != key
  }

  predicate NobodyAsks(steps: seq<Step>, key: string) {
    forall i :: 0 <= i < |steps| ==> !(steps[i].Ask? && steps[i].key == key)
  }

  lemma {:induction false} StaysFree(w: World, t: Lifetimes, steps: seq<Step>, key: string)
    requires Free(w, key) && NobodyAsks(steps, key)
    ensures Free(Run(w, t, steps), key)
  {
    if steps != [] {
      StaysFree(w, t, steps[..|steps| - 1], key);
    }
  }

  lemma {:induction false} StaysDoneUnasked(w: World, t: Lifetimes, steps: seq<Step>, key: string, record: IdempotencyRecord, end: real)
    requires Done(w, key, record, end) && NobodyAsks(steps, key)
    ensures Done(Run(w, t, steps), key, record, end)
  {
    if steps != [] {
      StaysDoneUnasked(w, t, steps[..|steps| - 1], key, record, end);
    }
  }

  /** Which responses are kept, over runs and from what the application sent alone: after the one
      execution of a key has settled, the next request for it finds the key free exactly when the
      response is unfinished, over the limit, failed or asks to be retried, or the record has expired. */
  lemma NextRequestRunsIff(w: World, t: Lifetimes, r: RequestId, parts: seq<Outgoing>, limit: nat, at: real,
                           steps: seq<Step>, fingerprint: string, asked: real, later: real)
    requires r in w.running && Sole(w, w.running[r].key) && w.now <= at
    requires NobodyAsks(steps, w.running[r].key)
    ensures var key := w.running[r].key;
            var end := Run(Next(w, t, Settle(r, ToStore(parts, limit), true, at)), t, steps);
            Reserved(end.records, t.reservation, key, fingerprint, asked, later).1.None? <==>
            !WorthKeeping(parts, limit) || asked >= at + t.record
  {
    hide Run, ToStore, WorthKeeping;
    KeptIff(parts, limit);
    var e := w.running[r];
    var w1 := Next(w, t, Settle(r, ToStore(parts, limit), true, at));
    if WorthKeeping(parts, limit) {
      var record := IdempotencyRecord(e.fingerprint, ToStore(parts, limit));
      assert Done(w1, e.key, record, at + t.record);
      StaysDoneUnasked(w1, t, steps, e.key, record, at + t.record);
    } else {
      assert Free(w1, e.key);
      StaysFree(w1, t, steps, e.key);
    }
  }
}
