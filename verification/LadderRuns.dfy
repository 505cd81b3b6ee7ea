/** What holds along a whole life of one record on the ladder: it ends, and a tier's
    partition is ordered by due time. */
module LadderRuns {
  import opened Prelude
  import opened Text
  import opened TopicNames
  import opened Records
  import opened Envelope
  import opened Routing

  // How long a chain of copies can get.

  predicate Readable(cfg: Config, m: Message) {
    Read(cfg.codec, m.record.headers).Ok? && ReadReplays(m.record.headers).Ok?
  }

  function Attempts(cfg: Config, m: Message): int {
    AttemptsBefore(cfg.codec, m.record.headers)
  }

  function Replays(cfg: Config, m: Message): int {
    match Read(cfg.codec, m.record.headers)
    case Ok(Some(e)) => e.replays
    case _ => if ReadReplays(m.record.headers).Ok? then ReadReplays(m.record.headers).value else 0
  }

  predicate Lands(m: Message, p: Publication) {
    m.partition.topic == p.topic && m.record == p.record
  }

  /** `next` is the copy some consumer's router made of `m`. */
  ghost predicate RouteHop(cfg: Config, m: Message, next: Message) {
    exists now, f :: Route(cfg, m, now, f).Ok? && Lands(next, Route(cfg, m, now, f).value.publication)
  }

  /** A router given a record that has already used up its ladder: there is no tier left, and it
      goes to the dead-letter topic again. */
  ghost predicate IsOvertime(cfg: Config, m: Message, next: Message) {
    Attempts(cfg, m) > cfg.policy.tiers && RouteHop(cfg, m, next)
  }

  /** `next` is the copy a replayer put back on the origin topic. */
  predicate ReplayHop(cfg: Config, m: Message, next: Message) {
    ReplayOf(cfg, m).PutBack? && Lands(next, ReplayOf(cfg, m).publication)
  }

  ghost predicate IsChain(cfg: Config, chain: seq<Message>) {
    forall k :: 0 <= k < |chain| - 1 ==> RouteHop(cfg, chain[k], chain[k + 1]) || ReplayHop(cfg, chain[k], chain[k + 1])
  }

  ghost function Overtime(cfg: Config, chain: seq<Message>): nat {
    if |chain| < 2 then 0
    else (if IsOvertime(cfg, chain[0], chain[1]) then 1 else 0) + Overtime(cfg, chain[1..])
  }

  predicate OnLadder(cfg: Config, m: Message) {
    Readable(cfg, m) && Attempts(cfg, m) >= 0 && 0 <= Replays(cfg, m) <= cfg.maxReplays
  }

  /** Laps first, rungs within a lap. */
  function HopsLeft(cfg: Config, m: Message): int {
    var rungs := if Attempts(cfg, m) > cfg.policy.tiers then 0 else cfg.policy.tiers + 1 - Attempts(cfg, m);
    (cfg.maxReplays - Replays(cfg, m)) * (cfg.policy.tiers + 2) + rungs
  }

  /** One routing: one more attempt, the lap count kept. */
  lemma RouteHopClimbs(cfg: Config, m: Message, next: Message)
    requires cfg.Valid() && OnLadder(cfg, m) && RouteHop(cfg, m, next)
    ensures OnLadder(cfg, next)
    ensures Attempts(cfg, next) == Attempts(cfg, m) + 1 && Replays(cfg, next) == Replays(cfg, m)
    ensures SameRecord(m.record, next.record)
  {
    hide Read, ReadReplays, Route, SameRecord;
    var now, f :| Route(cfg, m, now, f).Ok? && Lands(next, Route(cfg, m, now, f).value.publication);
    RouteMovesOneRung(cfg, m, now, f);
    RouteKeepsRecord(cfg, m, now, f);
  }

  /** One replay: back to the foot of the ladder, one lap on. */
  lemma ReplayHopLaps(cfg: Config, m: Message, next: Message)
    requires OnLadder(cfg, m) && ReplayHop(cfg, m, next)
    ensures OnLadder(cfg, next)
    ensures Attempts(cfg, next) == 0 && Replays(cfg, next) == Replays(cfg, m) + 1
    ensures next.record.key == m.record.key && SameRecord(m.record, next.record)
  {
    hide Read, ReadReplays, Strip;
    ReplayRestores(cfg, m);
  }

  lemma HopCostsOne(cfg: Config, m: Message, next: Message)
    requires cfg.Valid() && OnLadder(cfg, m)
    requires RouteHop(cfg, m, next) || ReplayHop(cfg, m, next)
    ensures OnLadder(cfg, next)
    ensures HopsLeft(cfg, next) + 1 <= HopsLeft(cfg, m) + if IsOvertime(cfg, m, next) then 1 else 0
    ensures next.record.value == m.record.value && Strip(next.record.headers) == Strip(m.record.headers)
  {
    hide OnLadder, RouteHop, ReplayHop, Attempts, Replays;
    if RouteHop(cfg, m, next) {
      RouteHopClimbs(cfg, m, next);
    } else {
      ReplayHopLaps(cfg, m, next);
      Lap(cfg.maxReplays, Replays(cfg, m), cfg.policy.tiers);
    }
  }

  lemma Lap(limit: int, replays: int, tiers: int)
    ensures (limit - (replays + 1)) * (tiers + 2) == (limit - replays) * (tiers + 2) - (tiers + 2)
  {
  }

  lemma LeftIsNatural(cfg: Config, m: Message)
    requires OnLadder(cfg, m)
    ensures HopsLeft(cfg, m) >= 0
  {
    hide Attempts, Replays;
    assert (cfg.maxReplays - Replays(cfg, m)) * (cfg.policy.tiers + 2) >= 0;
  }

  lemma {:induction false} ChainCost(cfg: Config, chain: seq<Message>)
    requires cfg.Valid() && IsChain(cfg, chain) && chain != [] && OnLadder(cfg, chain[0])
    ensures |chain| - 1 <= HopsLeft(cfg, chain[0]) + Overtime(cfg, chain)
    ensures chain[|chain| - 1].record.value == chain[0].record.value
    ensures Strip(chain[|chain| - 1].record.headers) == Strip(chain[0].record.headers)
  {
    hide OnLadder, RouteHop, ReplayHop, HopsLeft, Strip, IsOvertime;
    LeftIsNatural(cfg, chain[0]);
    if |chain| > 1 {
      HopCostsOne(cfg, chain[0], chain[1]);
      forall k | 0 <= k < |chain[1..]| - 1
        ensures RouteHop(cfg, chain[1..][k], chain[1..][k + 1]) || ReplayHop(cfg, chain[1..][k], chain[1..][k + 1])
      {
        assert chain[1..][k] == chain[k + 1] && chain[1..][k + 1] == chain[k + 2];
      }
      ChainCost(cfg, chain[1..]);
    }
  }

  /** The ladder terminates. Through any routings and replays, a record that starts with none of the
      ladder's headers is copied at most `tiers + 1` times a lap and replayed at most `maxReplays`
      times, not counting copies routed when the ladder was used up already; and the last copy still
      carries its payload and application headers. */
  lemma LadderTerminates(cfg: Config, chain: seq<Message>)
    requires cfg.Valid() && IsChain(cfg, chain) && chain != []
    requires Strip(chain[0].record.headers) == chain[0].record.headers
    ensures |chain| - 1 <= (cfg.maxReplays + 1) * (cfg.policy.tiers + 1) + cfg.maxReplays + Overtime(cfg, chain)
    ensures chain[|chain| - 1].record.value == chain[0].record.value
    ensures Strip(chain[|chain| - 1].record.headers) == chain[0].record.headers
  {
    hide Strip, OnLadder, HopsLeft, IsChain, Overtime;
    AtTheFoot(cfg, chain[0]);
    ChainCost(cfg, chain);
  }

  lemma AtTheFoot(cfg: Config, m: Message)
    requires Strip(m.record.headers) == m.record.headers
    ensures OnLadder(cfg, m) && HopsLeft(cfg, m) == (cfg.maxReplays + 1) * (cfg.policy.tiers + 1) + cfg.maxReplays
  {
    hide Strip, Read, ReadReplays;
    NothingOfOurs(cfg.codec, m.record.headers);
    LapsOfRungs(cfg.maxReplays, cfg.policy.tiers);
  }

  lemma LapsOfRungs(laps: int, tiers: int)
    ensures (laps + 1) * (tiers + 1) + laps == laps * (tiers + 2) + tiers + 1
  {
  }

  /** The bound of the ladder itself, which holds as long as no consumer routes a record whose
      attempts exceed the tiers. Without that there is no bound: `DeadLettersCanCircle`. */
  lemma WithinTheLadder(cfg: Config, chain: seq<Message>)
    requires cfg.Valid() && IsChain(cfg, chain) && chain != []
    requires Strip(chain[0].record.headers) == chain[0].record.headers
    requires forall k :: 0 <= k < |chain| - 1 && RouteHop(cfg, chain[k], chain[k + 1]) ==> Attempts(cfg, chain[k]) <= cfg.policy.tiers
    ensures |chain| - 1 <= (cfg.maxReplays + 1) * (cfg.policy.tiers + 1) + cfg.maxReplays
  {
    hide Strip, RouteHop, ReplayHop, Attempts, Overtime;
    LadderTerminates(cfg, chain);
    NoOvertime(cfg, chain);
  }

  lemma {:induction false} NoOvertime(cfg: Config, chain: seq<Message>)
    requires forall k :: 0 <= k < |chain| - 1 && RouteHop(cfg, chain[k], chain[k + 1]) ==> Attempts(cfg, chain[k]) <= cfg.policy.tiers
    ensures Overtime(cfg, chain) == 0
  {
    hide RouteHop, Attempts;
    if |chain| >= 2 {
      forall k | 0 <= k < |chain[1..]| - 1 && RouteHop(cfg, chain[1..][k], chain[1..][k + 1])
        ensures Attempts(cfg, chain[1..][k]) <= cfg.policy.tiers
      {
        assert chain[1..][k] == chain[k + 1] && chain[1..][k + 1] == chain[k + 2];
      }
      NoOvertime(cfg, chain[1..]);
    }
  }

  /** A consumer that routes dead letters keeps one going for ever: for every admitted origin and
      every length there is a chain of routings that long, from a record that never failed. */
  lemma {:induction false} DeadLettersCanCircle(cfg: Config, origin: string, n: nat) returns (chain: seq<Message>)
    requires cfg.Valid() && cfg.policy.LadderFor(origin).Ok?
    ensures |chain| == n + 1 && IsChain(cfg, chain)
    ensures chain[0].partition.topic == origin && chain[0].record.headers == []
    ensures Attempts(cfg, chain[n]) == n && Routable(cfg, origin, chain[n])
  {
    hide Attempts, RouteHop, ReplayHop, Routable;
    if n == 0 {
      chain := [Message(Partition(origin, 0), 0, Record(Some("key"), None, []))];
      NeverFailed(cfg, origin, chain[0]);
    } else {
      var front := DeadLettersCanCircle(cfg, origin, n - 1);
      var next := RoutedOnce(cfg, origin, front[n - 1]);
      chain := front + [next];
      forall k | 0 <= k < n ensures RouteHop(cfg, chain[k], chain[k + 1]) || ReplayHop(cfg, chain[k], chain[k + 1]) {
        assert k < n - 1 ==> chain[k] == front[k] && chain[k + 1] == front[k + 1];
      }
    }
  }

  /** A record of `origin` that the router can place. */
  predicate Routable(cfg: Config, origin: string, m: Message) {
    && Readable(cfg, m) && ReadReplays(m.record.headers).value >= 0
    && OriginFor(cfg.policy, Read(cfg.codec, m.record.headers).value, m.partition.topic) == origin
  }

  lemma NeverFailed(cfg: Config, origin: string, m: Message)
    requires cfg.policy.LadderFor(origin).Ok? && m.partition.topic == origin && m.record.headers == []
    ensures Routable(cfg, origin, m) && Attempts(cfg, m) == 0
  {
    NothingOfOurs(cfg.codec, []);
  }

  lemma RoutedOnce(cfg: Config, origin: string, m: Message) returns (next: Message)
    requires cfg.Valid() && cfg.policy.LadderFor(origin).Ok? && Routable(cfg, origin, m)
    ensures RouteHop(cfg, m, next) && Routable(cfg, origin, next) && Attempts(cfg, next) == Attempts(cfg, m) + 1
  {
    hide Read, ReadReplays, Route;
    var f := Failure(true, "");
    RouteRefusesIff(cfg, m, 0, f);
    RouteMovesOneRung(cfg, m, 0, f);
    RouteKeepsRecord(cfg, m, 0, f);
    var p := Route(cfg, m, 0, f).value.publication;
    next := Message(Partition(p.topic, 0), 0, p.record);
  }

  // Stalling at the head of a tier is complete.

  /** One record of a tier partition: when it was appended, and whether the router wrote it. */
  datatype Appended = Appended(at: Instant, record: Record, byRouter: bool)

  /** The router wrote `a` onto `topic` at its clock reading. */
  ghost predicate RouterWrote(cfg: Config, topic: string, a: Appended) {
    exists m: Message, f :: Route(cfg, m, a.at, f).Ok? && Route(cfg, m, a.at, f).value.publication == Publication(topic, a.record)
  }

  /** A partition of `topic` whose router-written records were appended at clock readings that
      never go backwards. Anything else may lie between them. */
  ghost predicate TierLog(cfg: Config, topic: string, log: seq<Appended>) {
    && (forall k :: 0 <= k < |log| && log[k].byRouter ==> RouterWrote(cfg, topic, log[k]))
    && (forall j, k :: 0 <= j < k < |log| && log[j].byRouter && log[k].byRouter ==> log[j].at <= log[k].at)
  }

  function Due(cfg: Config, record: Record): Option<Instant> {
    match Read(cfg.codec, record.headers)
    case Ok(Some(e)) => Some(e.notBefore)
    case _ => None
  }

  /** The name of tier `i` of `origin` is also the dead-letter topic of some admitted origin. */
  predicate Clashes(cfg: Config, origin: string, i: nat) {
    var topic, suffix := cfg.policy.RetryTopic(origin, i), cfg.policy.deadLetterSuffix;
    EndsWith(topic, suffix) && cfg.policy.LadderFor(topic[..|topic| - |suffix|]).Ok?
  }

  lemma DeadLettersClash(cfg: Config, origin: string, i: nat, other: string)
    requires cfg.policy.LadderFor(other).Ok? && cfg.policy.DeadLetterTopic(other) == cfg.policy.RetryTopic(origin, i)
    ensures Clashes(cfg, origin, i)
  {
    var topic := cfg.policy.RetryTopic(origin, i);
    assert topic[..|topic| - |cfg.policy.deadLetterSuffix|] == other;
  }

  /** Every router-written record of tier `i` is due exactly one tier delay after its append,
      unless the tier's name is also a dead-letter topic. */
  lemma TierRecordDue(cfg: Config, origin: string, i: nat, a: Appended)
    requires cfg.Valid() && i >= 1 && !Clashes(cfg, origin, i)
    requires RouterWrote(cfg, cfg.policy.RetryTopic(origin, i), a)
    ensures Due(cfg, a.record) == Some(DueAt(a.at, cfg.policy.TierDelay(i)))
  {
    hide Read, ReadReplays, Route, Clashes;
    var topic := cfg.policy.RetryTopic(origin, i);
    var m: Message, f :|
      Route(cfg, m, a.at, f).Ok? && Route(cfg, m, a.at, f).value.publication == Publication(topic, a.record);
    RouteKeepsRecord(cfg, m, a.at, f);
    var r := Route(cfg, m, a.at, f).value;
    if !Readable(cfg, m) {
      UnreadableGoesToDeadLetters(cfg, m, a.at, f);
      DeadLettersClash(cfg, origin, i, OriginFor(cfg.policy, None, m.partition.topic));
    } else {
      RouteMovesOneRung(cfg, m, a.at, f);
      if r.deadLettered {
        DeadLettersClash(cfg, origin, i, r.envelope.originTopic);
      } else {
        TierNamesDistinct(cfg.policy, origin, i, r.envelope.originTopic, r.envelope.attempts);
      }
    }
  }

  lemma UnreadableGoesToDeadLetters(cfg: Config, m: Message, now: Instant, f: Failure)
    requires !Readable(cfg, m) && Route(cfg, m, now, f).Ok?
    ensures cfg.policy.LadderFor(OriginFor(cfg.policy, None, m.partition.topic)).Ok?
    ensures Route(cfg, m, now, f).value.publication.topic ==
            cfg.policy.DeadLetterTopic(OriginFor(cfg.policy, None, m.partition.topic))
    ensures Route(cfg, m, now, f).value.envelope.notBefore == now
  {
    hide Read, ReadReplays;
  }

  /** Due times never decrease with offset among the router's records of a partition of `topic`. */
  ghost predicate DueOrdered(cfg: Config, topic: string) {
    forall log: seq<Appended>, j, k ::
      TierLog(cfg, topic, log) && 0 <= j < k < |log| && log[j].byRouter && log[k].byRouter ==>
        DueBy(cfg, log[j].record, log[k].record)
  }

  predicate DueBy(cfg: Config, a: Record, b: Record) {
    Due(cfg, a).Some? && Due(cfg, b).Some? && Due(cfg, a).value <= Due(cfg, b).value
  }

  lemma DueTimesRise(cfg: Config, origin: string, i: nat)
    requires cfg.Valid() && i >= 1 && !Clashes(cfg, origin, i)
    ensures DueOrdered(cfg, cfg.policy.RetryTopic(origin, i))
  {
    hide Read, DueAt, RouterWrote, Due, Clashes;
    forall log: seq<Appended>, j, k |
      TierLog(cfg, cfg.policy.RetryTopic(origin, i), log) && 0 <= j < k < |log| && log[j].byRouter && log[k].byRouter
      ensures DueBy(cfg, log[j].record, log[k].record)
    {
      TierRecordDue(cfg, origin, i, log[j]);
      TierRecordDue(cfg, origin, i, log[k]);
      DueAtMonotone(log[j].at, log[k].at, cfg.policy.TierDelay(i));
    }
  }

  /** A record that has failed `n` times on its way from `origin`. */
  function FailedBefore(cfg: Config, origin: string, n: nat): Message {
    var headers := if n == 0 then [] else Stamp(cfg.codec, [], Envelope(origin, 0, 0, n, 0, 0, "", 0));
    Message(Partition(origin, 0), 0, Record(Some("key"), None, headers))
  }

  lemma FailedBeforeReads(cfg: Config, origin: string, n: nat)
    requires cfg.Valid() && origin != ""
    ensures var m := FailedBefore(cfg, origin, n);
            && Readable(cfg, m) && ReadReplays(m.record.headers) == Ok(0)
            && AttemptsBefore(cfg.codec, m.record.headers) == n
            && (n > 0 ==> Read(cfg.codec, m.record.headers).value.Some?
                          && Read(cfg.codec, m.record.headers).value.value.originTopic == origin)
            && (n == 0 ==> Read(cfg.codec, m.record.headers) == Ok(None))
  {
    if n == 0 {
      NothingOfOurs(cfg.codec, []);
    } else {
      ReadUndoesStamp(cfg.codec, [], Envelope(origin, 0, 0, n, 0, 0, "", 0));
    }
  }

  lemma FailsOnto(cfg: Config, origin: string, n: nat, now: Instant, f: Failure)
    requires cfg.Valid() && cfg.policy.LadderFor(origin).Ok?
    ensures var m := FailedBefore(cfg, origin, n);
            && Route(cfg, m, now, f).Ok?
            && var r := Route(cfg, m, now, f).value;
               var dead := f.permanent || n + 1 > cfg.policy.tiers;
               && r.publication.topic == (if dead then cfg.policy.DeadLetterTopic(origin) else cfg.policy.RetryTopic(origin, n + 1))
               && Due(cfg, r.publication.record) == Some(if dead then now else DueAt(now, cfg.policy.TierDelay(n + 1)))
  {
    hide Read, ReadReplays, Route, DueAt, FailedBefore, Stamp;
    var m := FailedBefore(cfg, origin, n);
    FailedBeforeReads(cfg, origin, n);
    FromOrigin(cfg, origin, n);
    RouteRefusesIff(cfg, m, now, f);
    RouteMovesOneRung(cfg, m, now, f);
    RouteKeepsRecord(cfg, m, now, f);
  }

  lemma FromOrigin(cfg: Config, origin: string, n: nat)
    ensures FailedBefore(cfg, origin, n).partition.topic == origin
  {
  }

  lemma RoutedIsWritten(cfg: Config, m: Message, now: Instant, f: Failure)
    requires Route(cfg, m, now, f).Ok?
    ensures var p := Route(cfg, m, now, f).value.publication; RouterWrote(cfg, p.topic, Appended(now, p.record, true))
  {
    hide Route;
  }

  lemma ClashingOrigin(cfg: Config, origin: string, i: nat) returns (other: string)
    requires Clashes(cfg, origin, i)
    ensures cfg.policy.LadderFor(other).Ok? && cfg.policy.DeadLetterTopic(other) == cfg.policy.RetryTopic(origin, i)
  {
    var topic := cfg.policy.RetryTopic(origin, i);
    other := topic[..|topic| - |cfg.policy.deadLetterSuffix|];
    assert other + cfg.policy.deadLetterSuffix == topic;
  }

  lemma OutOfOrder(cfg: Config, topic: string, first: Appended, second: Appended)
    requires RouterWrote(cfg, topic, first) && RouterWrote(cfg, topic, second) && first.byRouter && second.byRouter
    requires first.at <= second.at && !DueBy(cfg, first.record, second.record)
    ensures !DueOrdered(cfg, topic)
  {
    hide RouterWrote, DueBy;
    var log := [first, second];
    assert TierLog(cfg, topic, log);
    assert !DueBy(cfg, log[0].record, log[1].record);
  }

  /** A clash does break the order: a dead letter appended behind a waiting record is due first. */
  lemma ClashBreaksDueOrder(cfg: Config, origin: string, i: nat)
    requires cfg.Valid() && 1 <= i <= cfg.policy.tiers && cfg.policy.LadderFor(origin).Ok?
    requires Clashes(cfg, origin, i) && DueAt(0, cfg.policy.TierDelay(i)) > 0
    ensures !DueOrdered(cfg, cfg.policy.RetryTopic(origin, i))
  {
    hide Read, ReadReplays, Route, DueAt, FailedBefore, Due, RouterWrote, DueOrdered, Clashes;
    var other := ClashingOrigin(cfg, origin, i);
    var again, fatal := Failure(false, ""), Failure(true, "");
    FailsOnto(cfg, origin, i - 1, 0, again);
    FailsOnto(cfg, other, 0, 0, fatal);
    RoutedIsWritten(cfg, FailedBefore(cfg, origin, i - 1), 0, again);
    RoutedIsWritten(cfg, FailedBefore(cfg, other, 0), 0, fatal);
    var waiting := Route(cfg, FailedBefore(cfg, origin, i - 1), 0, again).value.publication;
    var dead := Route(cfg, FailedBefore(cfg, other, 0), 0, fatal).value.publication;
    OutOfOrder(cfg, cfg.policy.RetryTopic(origin, i), Appended(0, waiting.record, true), Appended(0, dead.record, true));
  }

  /** A router-written record is due one tier delay after its append, or at once. */
  lemma DueInOneOfTwoWays(cfg: Config, origin: string, i: nat, a: Appended)
    requires cfg.Valid() && i >= 1 && RouterWrote(cfg, cfg.policy.RetryTopic(origin, i), a)
    ensures Due(cfg, a.record) == Some(DueAt(a.at, cfg.policy.TierDelay(i))) || Due(cfg, a.record) == Some(a.at)
  {
    hide Read, ReadReplays, Route, DueAt;
    var topic := cfg.policy.RetryTopic(origin, i);
    var m: Message, f :|
      Route(cfg, m, a.at, f).Ok? && Route(cfg, m, a.at, f).value.publication == Publication(topic, a.record);
    RouteKeepsRecord(cfg, m, a.at, f);
    var r := Route(cfg, m, a.at, f).value;
    if !Readable(cfg, m) {
      UnreadableGoesToDeadLetters(cfg, m, a.at, f);
    } else {
      RouteMovesOneRung(cfg, m, a.at, f);
      if !r.deadLettered {
        TierNamesDistinct(cfg.policy, origin, i, r.envelope.originTopic, r.envelope.attempts);
      }
    }
  }

  lemma NoDelayNoDisorder(cfg: Config, origin: string, i: nat)
    requires cfg.Valid() && i >= 1 && DueAt(0, cfg.policy.TierDelay(i)) == 0
    ensures DueOrdered(cfg, cfg.policy.RetryTopic(origin, i))
  {
    hide Read, RouterWrote, Due;
    forall log: seq<Appended>, j, k |
      TierLog(cfg, cfg.policy.RetryTopic(origin, i), log) && 0 <= j < k < |log| && log[j].byRouter && log[k].byRouter
      ensures DueBy(cfg, log[j].record, log[k].record)
    {
      DueInOneOfTwoWays(cfg, origin, i, log[j]);
      DueInOneOfTwoWays(cfg, origin, i, log[k]);
    }
  }

  /** Exactly when a tier is ordered by due time: its name is not also a dead-letter topic, or its
      delay is rounded to nothing. A dead-letter suffix that does not end in a digit, like the
      default, rules the clash out. */
  lemma DueOrderedIff(cfg: Config, origin: string, i: nat)
    requires cfg.Valid() && 1 <= i <= cfg.policy.tiers && cfg.policy.LadderFor(origin).Ok?
    ensures DueOrdered(cfg, cfg.policy.RetryTopic(origin, i)) <==>
            !Clashes(cfg, origin, i) || DueAt(0, cfg.policy.TierDelay(i)) == 0
    ensures cfg.policy.SuffixEndsInNoDigit() ==> !Clashes(cfg, origin, i)
  {
    hide DueOrdered, DueAt;
    RetryTopicEndsInDigit(cfg.policy, origin, i);
    if DueAt(0, cfg.policy.TierDelay(i)) == 0 {
      NoDelayNoDisorder(cfg, origin, i);
    } else if Clashes(cfg, origin, i) {
      DueIsNotEarly(cfg.policy.TierDelay(i));
      ClashBreaksDueOrder(cfg, origin, i);
    } else {
      DueTimesRise(cfg, origin, i);
    }
  }

  lemma DueIsNotEarly(delay: real)
    ensures DueAt(0, delay) >= 0
  {
  }

  /** So when the due-time gate turns one away, it would turn away every one behind it, for
      at least as long. */
  lemma HeadStallIsComplete(cfg: Config, origin: string, i: nat, log: seq<Appended>, j: nat, k: nat,
                            mj: Message, mk: Message, clock: Instant, grace: Instant)
    requires cfg.Valid() && i >= 1 && grace >= 0
    requires !Clashes(cfg, origin, i) || DueAt(0, cfg.policy.TierDelay(i)) == 0
    requires TierLog(cfg, cfg.policy.RetryTopic(origin, i), log)
    requires j < k < |log| && log[j].byRouter && log[k].byRouter
    requires mj.record == log[j].record && mk.record == log[k].record
    requires WithDueTime(cfg, mj, clock, grace, Returned).NotYet?
    ensures WithDueTime(cfg, mk, clock, grace, Returned).NotYet?
    ensures WithDueTime(cfg, mk, clock, grace, Returned).delay >= WithDueTime(cfg, mj, clock, grace, Returned).delay
  {
    hide Read, RouterWrote, Clashes, DueAt;
    if Clashes(cfg, origin, i) {
      NoDelayNoDisorder(cfg, origin, i);
    } else {
      DueTimesRise(cfg, origin, i);
    }
    assert DueBy(cfg, log[j].record, log[k].record);
  }

  // The gate opens.

  /** The gate lets a record through from its due time on, less the grace, and until then says how long
      is left. A record without an envelope passes; one that cannot be read is a failure. */
  lemma GateOpensWhenDue(cfg: Config, m: Message, clock: Instant, grace: Instant, inner: Ending)
    requires grace >= 0
    ensures var gated := WithDueTime(cfg, m, clock, grace, inner);
            && (Due(cfg, m.record).Some? ==>
                  var due := Due(cfg, m.record).value;
                  gated == if due <= clock + grace then inner else NotYet(due - clock))
            && (Read(cfg.codec, m.record.headers) == Ok(None) ==> gated == inner)
            && (Read(cfg.codec, m.record.headers).Err? ==> gated.Raised?)
  {
    hide Read;
  }

  /** So a record the router put on a tier is handled from one tier delay after it was put there. */
  lemma TierRecordIsHandled(cfg: Config, origin: string, i: nat, a: Appended, m: Message, clock: Instant, grace: Instant, inner: Ending)
    requires cfg.Valid() && i >= 1 && !Clashes(cfg, origin, i) && grace >= 0
    requires RouterWrote(cfg, cfg.policy.RetryTopic(origin, i), a) && m.record == a.record
    ensures var due := DueAt(a.at, cfg.policy.TierDelay(i));
            WithDueTime(cfg, m, clock, grace, inner) == if due <= clock + grace then inner else NotYet(due - clock)
  {
    hide Read, RouterWrote, Clashes, DueAt, WithDueTime, Due;
    TierRecordDue(cfg, origin, i, a);
    GateOpensWhenDue(cfg, m, clock, grace, inner);
  }
}
