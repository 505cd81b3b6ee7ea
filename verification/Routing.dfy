/** Where a failed record goes next (`src/dlq/router.py`), what the handler wrappers make of
    a failure (`src/dlq/handler.py`), and how a dead letter is put back (`src/dlq/replay.py`). */
module Routing {
  import opened Prelude
  import opened Text
  import opened TopicNames
  import opened Records
  import opened Envelope

  const SYNTHETIC_KEY := "x-dlq-synthetic-key"

  /** What the deployment fixes: the ladder, the timestamp format and the replay limit. */
  datatype Config = Config(policy: RetryPolicy, codec: TimeCodec, maxReplays: nat)
  {
    ghost predicate Valid() {
      policy.Valid() && codec.RoundTrips()
    }
  }

  /** An exception, as far as routing looks at it: is it one of `non_retryable`, and its text. */
  datatype Failure = Failure(permanent: bool, text: string)

  datatype Publication = Publication(topic: string, record: Record)

  datatype Routed = Routed(publication: Publication, envelope: Envelope, deadLettered: bool)

  /** The `ValueError`s that escape `route`. */
  datatype RouteError = NoLadder(refusal: LadderRefusal) | NegativeReplays

  function OriginFor(p: RetryPolicy, previous: Option<Envelope>, topic: string): string {
    if previous.Some? then previous.value.originTopic
    else if p.OriginOf(topic).Some? then p.OriginOf(topic).value
    else topic
  }

  function SyntheticKey(e: Envelope): string {
    e.originTopic + ":" + PrintInt(e.originPartition) + ":" + PrintInt(e.originOffset)
  }

  /** `_republish_key` and the publish it feeds. */
  function Republish(c: TimeCodec, m: Message, e: Envelope): Record {
    var headers := Stamp(c, m.record.headers, e);
    if m.record.key.Some? || m.record.value.Some? then m.record.(headers := headers)
    else Record(Some(SyntheticKey(e)), None, headers + [(SYNTHETIC_KEY, Utf8("1"))])
  }

  /** `route`, up to the publish it ends in. */
  function Route(cfg: Config, m: Message, now: Instant, f: Failure): Result<Routed, RouteError> {
    var previous := Read(cfg.codec, m.record.headers);
    var replays := ReadReplays(m.record.headers);
    if previous.Err? || replays.Err? then DeadLetterUnreadable(cfg, m, now)
    else
      var found := cfg.policy.LadderFor(OriginFor(cfg.policy, previous.value, m.partition.topic));
      if found.Err? then Err(NoLadder(found.error))
      else
        var ladder := found.value;
        var attempts: nat := if previous.value.Some? then previous.value.value.attempts + 1 else 1;
        var tier := if f.permanent then None else ladder.Destination(attempts);
        var delay := if tier.Some? then tier.value.delay else 0.0;
        var next := Advance(previous.value, m, now, delay, Truncate(f.text, MAX_ERROR_LENGTH), replays.value, ladder.originTopic);
        if next.None? then Err(NegativeReplays)
        else
          var topic := if tier.Some? then tier.value.topic else ladder.deadLetterTopic;
          Ok(Routed(Publication(topic, Republish(cfg.codec, m, next.value)), next.value, tier.None?))
  }

  /** `_dead_letter_unreadable`: the headers are the problem, so only the topic's name is used. */
  function DeadLetterUnreadable(cfg: Config, m: Message, now: Instant): Result<Routed, RouteError> {
    var found := cfg.policy.LadderFor(OriginFor(cfg.policy, None, m.partition.topic));
    if found.Err? then Err(NoLadder(found.error))
    else
      var e := Envelope(m.partition.topic, m.partition.number, m.offset, 1, now, now, "MalformedEnvelopeError", 0);
      Ok(Routed(Publication(found.value.deadLetterTopic, Republish(cfg.codec, m, e)), e, true))
  }

  // The handler wrappers.

  /** How a handler coroutine ends. */
  datatype Ending = Returned | NotYet(delay: Instant) | Raised(failure: Failure)

  /** `with_due_time` around a handler that would end as `inner`. */
  function WithDueTime(cfg: Config, m: Message, clock: Instant, grace: Instant, inner: Ending): Ending {
    match Read(cfg.codec, m.record.headers)
    case Err(_) => Raised(Failure(false, "MalformedEnvelopeError"))
    case Ok(None) => inner
    case Ok(Some(e)) => if e.WaitFor(clock) > grace then NotYet(e.WaitFor(clock)) else inner
  }

  /** What `with_dead_letter` does with the ending of the handler it wraps: pass it on, or
      publish and return. */
  datatype Reaction = PassOn(ending: Ending) | Publish(routed: Routed) | Unroutable(error: RouteError)

  function WithDeadLetter(cfg: Config, m: Message, now: Instant, inner: Ending): Reaction {
    if !inner.Raised? then PassOn(inner)
    else
      match Route(cfg, m, now, inner.failure)
      case Ok(r) => Publish(r)
      case Err(e) => Unroutable(e)
  }

  // Replay.

  datatype Replay = Refused | NotPublishable | PutBack(publication: Publication)

  /** `DeadLetterReplayer.replay`. */
  function ReplayOf(cfg: Config, m: Message): Replay {
    var read := Read(cfg.codec, m.record.headers);
    if read.Err? || read.value.None? then Refused
    else
      var e := read.value.value;
      if FirstHeader(m.record.headers, SYNTHETIC_KEY).Some? then Refused
      else if cfg.policy.OriginOf(e.originTopic).Some? then Refused
      else if e.replays >= cfg.maxReplays then Refused
      else
        var headers := Strip(m.record.headers) + [(REPLAYS, Utf8(PrintInt(e.replays + 1)))];
        var record := m.record.(headers := headers);
        if Publishable(e.originTopic, record) then PutBack(Publication(e.originTopic, record)) else NotPublishable
  }

  // A routed copy is the same record.

  /** Same payload and same application headers, and the same key unless it had to be invented. */
  predicate SameRecord(a: Record, b: Record) {
    && a.value == b.value
    && Strip(a.headers) == Strip(b.headers)
    && (a.key.Some? || a.value.Some? ==> a.key == b.key)
  }

  lemma RepublishKeepsRecord(c: TimeCodec, m: Message, e: Envelope)
    requires c.RoundTrips() && e.Valid()
    ensures SameRecord(m.record, Republish(c, m, e))
    ensures Read(c, Republish(c, m, e).headers) == Ok(Some(e.(error := Truncate(e.error, MAX_ERROR_LENGTH))))
    ensures ReadReplays(Republish(c, m, e).headers) == Ok(e.replays)
    ensures Republish(c, m, e).key.Some? || Republish(c, m, e).value.Some?
  {
    hide Read, ReadReplays, Stamp;
    var h := m.record.headers;
    ReadUndoesStamp(c, h, e);
    StampReplaces(c, h, e, e);
    ExtraHeaderUnread(c, Stamp(c, h, e), SYNTHETIC_KEY, Utf8("1"));
  }

  /** A trailing header under a name `read` does not look for changes nothing it reads. */
  lemma ExtraHeaderUnread(c: TimeCodec, h: Headers, name: string, v: HeaderValue)
    requires Ours(name)
    requires name !in {ORIGIN_TOPIC, ORIGIN_PARTITION, ORIGIN_OFFSET, ATTEMPTS, FIRST_FAILED_AT, NOT_BEFORE, ERROR, REPLAYS}
    ensures Read(c, h + [(name, v)]) == Read(c, h)
    ensures ReadReplays(h + [(name, v)]) == ReadReplays(h)
    ensures Strip(h + [(name, v)]) == Strip(h)
  {
    hide FirstHeader, ParseInt, Strip;
    StripAppend(h, [(name, v)]);
    StripOursIsEmpty([(name, v)]);
    forall other | other != name ensures FirstHeader(h + [(name, v)], other) == FirstHeader(h, other) {
      LastHeaderSkipped(h, name, v, other);
    }
  }

  lemma {:induction false} LastHeaderSkipped(h: Headers, name: string, v: HeaderValue, other: string)
    requires other != name
    ensures FirstHeader(h + [(name, v)], other) == FirstHeader(h, other)
  {
    if h != [] {
      LastHeaderSkipped(h[1..], name, v, other);
      assert (h + [(name, v)])[1..] == h[1..] + [(name, v)];
    }
  }

  /** Which attempt the failure that produced `r` was. */
  function AttemptsBefore(c: TimeCodec, h: Headers): int {
    match Read(c, h)
    case Ok(Some(e)) => e.attempts
    case _ => 0
  }

  /** What a successful `route` did: the same record, one attempt further, on the rung that
      attempt belongs to or on the dead-letter topic, with provenance kept. */
  lemma RouteMovesOneRung(cfg: Config, m: Message, now: Instant, f: Failure)
    requires cfg.Valid() && Route(cfg, m, now, f).Ok?
    requires Read(cfg.codec, m.record.headers).Ok? && ReadReplays(m.record.headers).Ok?
    ensures var r := Route(cfg, m, now, f).value;
            var e := r.envelope;
            var previous := Read(cfg.codec, m.record.headers).value;
            && e.Valid()
            && e.attempts == AttemptsBefore(cfg.codec, m.record.headers) + 1
            && e.error == Truncate(f.text, MAX_ERROR_LENGTH)
            && cfg.policy.LadderFor(e.originTopic).Ok?
            && (r.deadLettered <==> f.permanent || e.attempts > cfg.policy.tiers)
            && r.publication.topic == (if r.deadLettered then cfg.policy.DeadLetterTopic(e.originTopic)
                                       else cfg.policy.RetryTopic(e.originTopic, e.attempts))
            && e.notBefore == (if r.deadLettered then now else DueAt(now, cfg.policy.TierDelay(e.attempts)))
            && (previous.Some? ==>
                  && e.originTopic == previous.value.originTopic
                  && e.originPartition == previous.value.originPartition
                  && e.originOffset == previous.value.originOffset
                  && e.firstFailedAt == previous.value.firstFailedAt
                  && e.replays == previous.value.replays)
            && (previous.None? ==>
                  && e.originTopic == OriginFor(cfg.policy, None, m.partition.topic)
                  && e.originPartition == m.partition.number
                  && e.originOffset == m.offset
                  && e.firstFailedAt == now
                  && e.replays == ReadReplays(m.record.headers).value)
  {
    hide Read, ReadReplays, Republish;
  }

  /** Whatever the headers said, what `route` publishes is the same record, readable, and
      acceptable to the publisher. */
  lemma RouteKeepsRecord(cfg: Config, m: Message, now: Instant, f: Failure)
    requires cfg.Valid() && Route(cfg, m, now, f).Ok?
    ensures var r := Route(cfg, m, now, f).value;
            && SameRecord(m.record, r.publication.record)
            && Publishable(r.publication.topic, r.publication.record)
            && Read(cfg.codec, r.publication.record.headers) ==
               Ok(Some(r.envelope.(error := Truncate(r.envelope.error, MAX_ERROR_LENGTH))))
            && ReadReplays(r.publication.record.headers) == Ok(r.envelope.replays)
  {
    hide Read, ReadReplays, Republish, DueAt, SameRecord;
    var r := Route(cfg, m, now, f).value;
    RepublishKeepsRecord(cfg.codec, m, r.envelope);
  }

  /** Exactly when `route` refuses: no ladder can be built for the origin, or a first failure
      carries a negative replay count. */
  lemma RouteRefusesIff(cfg: Config, m: Message, now: Instant, f: Failure)
    ensures var previous, replays := Read(cfg.codec, m.record.headers), ReadReplays(m.record.headers);
            var readable := previous.Ok? && replays.Ok?;
            var origin := OriginFor(cfg.policy, if readable then previous.value else None, m.partition.topic);
            Route(cfg, m, now, f).Err? <==>
            cfg.policy.LadderFor(origin).Err? || (readable && previous.value.None? && replays.value < 0)
  {
    hide Read, ReadReplays, Republish, DueAt;
  }

  /** A record whose headers cannot be read is dead-lettered under its topic's origin, as a first
      attempt, with its own coordinates and the reason. */
  lemma UnreadableIsDeadLettered(cfg: Config, m: Message, now: Instant, f: Failure)
    requires Read(cfg.codec, m.record.headers).Err? || ReadReplays(m.record.headers).Err?
    requires cfg.policy.LadderFor(OriginFor(cfg.policy, None, m.partition.topic)).Ok?
    ensures Route(cfg, m, now, f).Ok?
    ensures var r := Route(cfg, m, now, f).value;
            && r.deadLettered && r.publication.topic == cfg.policy.DeadLetterTopic(OriginFor(cfg.policy, None, m.partition.topic))
            && r.envelope.originTopic == m.partition.topic && r.envelope.originPartition == m.partition.number
            && r.envelope.originOffset == m.offset && r.envelope.attempts == 1 && r.envelope.replays == 0
            && r.envelope.firstFailedAt == r.envelope.notBefore == now && r.envelope.error == "MalformedEnvelopeError"
  {
    hide Read, ReadReplays, Republish;
  }

  /** The wrapper publishes exactly the failures the router can place: an ending that is not a failure
      is passed on untouched, and a failure is never swallowed without a publication. */
  lemma WrapperRoutesFailures(cfg: Config, m: Message, now: Instant, ending: Ending)
    ensures var reaction := WithDeadLetter(cfg, m, now, ending);
            && (ending == Returned || ending.NotYet? <==> reaction == PassOn(ending))
            && (reaction.Publish? <==> ending.Raised? && Route(cfg, m, now, ending.failure).Ok?)
            && (reaction.Publish? ==> reaction.routed == Route(cfg, m, now, ending.failure).value)
            && (reaction.Unroutable? <==> ending.Raised? && Route(cfg, m, now, ending.failure).Err?)
  {
    hide Route;
  }

  // Invented keys.

  lemma SameLastNumber(a: string, d: string, b: string, e: string)
    requires AllDigits(d) && AllDigits(e) && a + ":" + d == b + ":" + e
    ensures a == b && d == e
  {
    var x, y := a + ":" + d, b + ":" + e;
    assert x[|a|] == ':' && y[|b|] == ':';
    assert forall i :: |a| < i < |x| ==> x[i] == d[i - |a| - 1];
    assert forall i :: |b| < i < |y| ==> y[i] == e[i - |b| - 1];
    assert |a| == |b|;
    assert a == x[..|a|] && b == y[..|b|];
    assert d == x[|a| + 1..] && e == y[|b| + 1..];
  }

  /** The key made up for a record without one names where it first came from, and nothing else does. */
  lemma InventedKeysDiffer(e: Envelope, f: Envelope)
    requires e.Valid() && f.Valid() && SyntheticKey(e) == SyntheticKey(f)
    ensures e.originTopic == f.originTopic && e.originPartition == f.originPartition && e.originOffset == f.originOffset
  {
    hide Print, AllDigits;
    PrintIsDigits(e.originPartition);
    PrintIsDigits(e.originOffset);
    PrintIsDigits(f.originPartition);
    PrintIsDigits(f.originOffset);
    var a, b := e.originTopic + ":" + Print(e.originPartition), f.originTopic + ":" + Print(f.originPartition);
    assert SyntheticKey(e) == a + ":" + Print(e.originOffset) && SyntheticKey(f) == b + ":" + Print(f.originOffset);
    SameLastNumber(a, Print(e.originOffset), b, Print(f.originOffset));
    SameLastNumber(e.originTopic, Print(e.originPartition), f.originTopic, Print(f.originPartition));
    PrintInjective(e.originPartition, f.originPartition);
    PrintInjective(e.originOffset, f.originOffset);
  }

  // Replays.

  /** A replayed record looks untouched, except that its lap count is one higher. */
  lemma ReplayRestores(cfg: Config, m: Message)
    requires ReplayOf(cfg, m).PutBack?
    ensures var p, e := ReplayOf(cfg, m).publication, Read(cfg.codec, m.record.headers).value.value;
            && p.topic == e.originTopic
            && p.record.key == m.record.key && p.record.value == m.record.value
            && Strip(p.record.headers) == Strip(m.record.headers)
            && Read(cfg.codec, p.record.headers) == Ok(None)
            && ReadReplays(p.record.headers) == Ok(e.replays + 1)
            && e.replays < cfg.maxReplays
            && Publishable(p.topic, p.record)
  {
    hide Read, PrintInt, ParseInt;
    var h, e := m.record.headers, Read(cfg.codec, m.record.headers).value.value;
    var back: Headers := [(REPLAYS, Utf8(PrintInt(e.replays + 1)))];
    StripLeavesOthers(h);
    StripAppend(Strip(h), back);
    OursComeFromTheEnd(h, back, ATTEMPTS);
    OursComeFromTheEnd(h, back, REPLAYS);
    ParseUndoesPrint(e.replays + 1);
    AbsentEnvelope(cfg.codec, Strip(h) + back);
  }

  lemma AbsentEnvelope(c: TimeCodec, h: Headers)
    requires FirstHeader(h, ATTEMPTS).None?
    ensures Read(c, h) == Ok(None)
  {
  }

  /** The flag `replay` refuses on is present exactly when the copy's own source had neither
      key nor value: it does not outlive a second hop. */
  lemma FlagOnlyForKeylessSource(cfg: Config, m: Message, now: Instant, f: Failure)
    requires Route(cfg, m, now, f).Ok?
    ensures FirstHeader(Route(cfg, m, now, f).value.publication.record.headers, SYNTHETIC_KEY).Some? <==>
            m.record.key.None? && m.record.value.None?
  {
    hide Read, ReadReplays, DueAt, ToHeaders;
    var e := Route(cfg, m, now, f).value.envelope;
    var w := ToHeaders(cfg.codec, e);
    NoFlagWritten(cfg.codec, e);
    OursComeFromTheEnd(m.record.headers, w, SYNTHETIC_KEY);
    var flag: Headers := [(SYNTHETIC_KEY, Utf8("1"))];
    OursComeFromTheEnd(m.record.headers, w + flag, SYNTHETIC_KEY);
    assert Strip(m.record.headers) + (w + flag) == Strip(m.record.headers) + w + flag;
  }

  lemma NoFlagWritten(c: TimeCodec, e: Envelope)
    ensures FirstHeader(ToHeaders(c, e), SYNTHETIC_KEY).None?
    ensures FirstHeader(ToHeaders(c, e) + [(SYNTHETIC_KEY, Utf8("1"))], SYNTHETIC_KEY) == Some(Utf8("1"))
  {
    var w := ToHeaders(c, e);
    var flag: Headers := [(SYNTHETIC_KEY, Utf8("1"))];
    FirstHeaderSkips(w, [], SYNTHETIC_KEY);
    assert w + [] == w;
    FirstHeaderSkips(w, flag, SYNTHETIC_KEY);
  }

  /** Exactly when a routed copy cannot be replayed: its own source had neither key nor value, its
      origin is itself on a ladder, or it has been round often enough. Otherwise it is put back. */
  lemma ReplayRefusesIff(cfg: Config, m: Message, now: Instant, f: Failure, copy: Message)
    requires cfg.Valid() && Route(cfg, m, now, f).Ok? && copy.record == Route(cfg, m, now, f).value.publication.record
    ensures var e := Route(cfg, m, now, f).value.envelope;
            && (ReplayOf(cfg, copy).Refused? <==>
                  || (m.record.key.None? && m.record.value.None?)
                  || cfg.policy.OriginOf(e.originTopic).Some?
                  || e.replays >= cfg.maxReplays)
            && (!ReplayOf(cfg, copy).Refused? && e.originTopic != "" ==>
                  ReplayOf(cfg, copy).PutBack? && ReplayOf(cfg, copy).publication.topic == e.originTopic)
  {
    hide Read, ReadReplays, Route, Strip, FirstHeader;
    FlagOnlyForKeylessSource(cfg, m, now, f);
    RouteKeepsRecord(cfg, m, now, f);
  }

  function Keyless(origin: string): Message {
    Message(Partition(origin, 0), 0, Record(None, None, []))
  }

  /** The copy `Route` publishes, read back from wherever it landed. */
  function CopyOf(cfg: Config, m: Message, now: Instant, f: Failure): Message
    requires Route(cfg, m, now, f).Ok?
  {
    var p := Route(cfg, m, now, f).value.publication;
    Message(Partition(p.topic, 0), 0, p.record)
  }

  /** So a record with an invented key is put back once it has failed twice: for every admitted
      origin, a record that came with neither key nor value is refused by the replayer after its
      first failure and accepted after its second, with the key it was given. */
  lemma InventedKeyIsReplayed(cfg: Config, origin: string, now: Instant, f: Failure)
    requires cfg.Valid() && cfg.policy.LadderFor(origin).Ok? && cfg.maxReplays >= 1
    ensures Route(cfg, Keyless(origin), now, f).Ok?
    ensures var first := CopyOf(cfg, Keyless(origin), now, f);
            && ReplayOf(cfg, first).Refused? && first.record.key.Some?
            && Route(cfg, first, now, f).Ok?
            && var second := CopyOf(cfg, first, now, f);
               ReplayOf(cfg, second).PutBack? && ReplayOf(cfg, second).publication.record.key == first.record.key
  {
    var m := Keyless(origin);
    NothingOfOurs(cfg.codec, []);
    hide Read, ReadReplays, Route, Strip, FirstHeader;
    RouteRefusesIff(cfg, m, now, f);
    var first := CopyOf(cfg, m, now, f);
    RouteMovesOneRung(cfg, m, now, f);
    RouteKeepsRecord(cfg, m, now, f);
    ReplayRefusesIff(cfg, m, now, f, first);
    RouteRefusesIff(cfg, first, now, f);
    var second := CopyOf(cfg, first, now, f);
    RouteMovesOneRung(cfg, first, now, f);
    RouteKeepsRecord(cfg, first, now, f);
    ReplayRefusesIff(cfg, first, now, f, second);
    ReplayKeepsKey(cfg, second);
  }

  lemma ReplayKeepsKey(cfg: Config, m: Message)
    requires ReplayOf(cfg, m).PutBack?
    ensures ReplayOf(cfg, m).publication.record.key == m.record.key
  {
    hide Read, Strip;
  }
}
