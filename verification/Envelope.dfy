/** The retry metadata a record carries in its headers (`src/dlq/envelope.py`). */
module Envelope {
  import opened Prelude
  import opened Text
  import opened Records

  const PREFIX := "x-dlq-"
  const ORIGIN_TOPIC := "x-dlq-origin-topic"
  const ORIGIN_PARTITION := "x-dlq-origin-partition"
  const ORIGIN_OFFSET := "x-dlq-origin-offset"
  const ATTEMPTS := "x-dlq-attempts"
  const FIRST_FAILED_AT := "x-dlq-first-failed-at"
  const NOT_BEFORE := "x-dlq-not-before"
  const ERROR := "x-dlq-error"
  const REPLAYS := "x-dlq-replays"

  const MAX_ERROR_LENGTH: nat := 512
  const TRUNCATION_MARKER := "\U{2026}[truncated]"

  /** A timestamp, in microseconds: the resolution `datetime` has. */
  type Instant = int

  /** `datetime.isoformat` and `datetime.fromisoformat`, the latter None for text that does
      not parse and for text without an offset. */
  datatype TimeCodec = TimeCodec(render: Instant -> string, parse: string -> Option<Instant>)
  {
    /** What the standard library promises of an aware timestamp. */
    ghost predicate RoundTrips() {
      forall t :: parse(render(t)) == Some(t)
    }
  }

  datatype Unreadable = MalformedEnvelope

  datatype Envelope = Envelope(
    originTopic: string,
    originPartition: int,
    originOffset: int,
    attempts: int,
    firstFailedAt: Instant,
    notBefore: Instant,
    error: string,
    replays: int)
  {
    /** `__post_init__`. */
    predicate Valid() {
      attempts >= 1 && originPartition >= 0 && originOffset >= 0 && replays >= 0
    }

    /** `wait_for`: time left before the record is due. */
    function WaitFor(now: Instant): Instant {
      if notBefore > now then notBefore - now else 0
    }
  }

  /** `truncate_error`. */
  function Truncate(text: string, limit: nat): string
    requires limit >= 1
  {
    if |text| <= limit then text
    else if limit <= |TRUNCATION_MARKER| then text[..limit]
    else text[..limit - |TRUNCATION_MARKER|] + TRUNCATION_MARKER
  }

  predicate Ours(name: string) {
    PREFIX <= name
  }

  /** `strip`: the application's own headers, in wire order. */
  function Strip(headers: Headers): Headers {
    if headers == [] then []
    else if Ours(headers[0].0) then Strip(headers[1..])
    else [headers[0]] + Strip(headers[1..])
  }

  function ToHeaders(c: TimeCodec, e: Envelope): Headers {
    [ (ORIGIN_TOPIC, Utf8(e.originTopic)),
      (ORIGIN_PARTITION, Utf8(PrintInt(e.originPartition))),
      (ORIGIN_OFFSET, Utf8(PrintInt(e.originOffset))),
      (ATTEMPTS, Utf8(PrintInt(e.attempts))),
      (FIRST_FAILED_AT, Utf8(c.render(e.firstFailedAt))),
      (NOT_BEFORE, Utf8(c.render(e.notBefore))),
      (ERROR, Utf8(Truncate(e.error, MAX_ERROR_LENGTH))),
      (REPLAYS, Utf8(PrintInt(e.replays))) ]
  }

  function Stamp(c: TimeCodec, headers: Headers, e: Envelope): Headers {
    Strip(headers) + ToHeaders(c, e)
  }

  function DecodeText(v: HeaderValue): Option<string> {
    if v.Utf8? then Some(v.text) else None
  }

  function DecodeInt(v: HeaderValue): Option<int> {
    if v.Utf8? then ParseInt(v.text) else None
  }

  function DecodeTime(c: TimeCodec, v: HeaderValue): Option<Instant> {
    if v.Utf8? then c.parse(v.text) else None
  }

  /** `read`: absent, an envelope, or unreadable. */
  function Read(c: TimeCodec, h: Headers): (r: Result<Option<Envelope>, Unreadable>)
    ensures r.Ok? ==> (r.value.Some? <==> FirstHeader(h, ATTEMPTS).Some?)
    ensures r.Ok? && r.value.Some? ==> r.value.value.Valid()
  {
    var rawAttempts := FirstHeader(h, ATTEMPTS);
    if rawAttempts.None? then Ok(None)
    else
      var rawFirst, rawDue := FirstHeader(h, FIRST_FAILED_AT), FirstHeader(h, NOT_BEFORE);
      var rawTopic, rawPartition := FirstHeader(h, ORIGIN_TOPIC), FirstHeader(h, ORIGIN_PARTITION);
      var rawOffset := FirstHeader(h, ORIGIN_OFFSET);
      if rawFirst.None? || rawDue.None? || rawTopic.None? || rawPartition.None? || rawOffset.None? then
        Err(MalformedEnvelope)
      else
        var rawError, rawReplays := FirstHeader(h, ERROR), FirstHeader(h, REPLAYS);
        var attempts := DecodeInt(rawAttempts.value);
        var topic, partition := DecodeText(rawTopic.value), DecodeInt(rawPartition.value);
        var offset := DecodeInt(rawOffset.value);
        var first, due := DecodeTime(c, rawFirst.value), DecodeTime(c, rawDue.value);
        var error := if rawError.None? then Some("") else DecodeText(rawError.value);
        var replays := if rawReplays.None? then Some(0) else DecodeInt(rawReplays.value);
        if attempts.None? || topic.None? || partition.None? || offset.None? || first.None? || due.None?
           || error.None? || replays.None? then Err(MalformedEnvelope)
        else
          var e := Envelope(topic.value, partition.value, offset.value, attempts.value, first.value, due.value,
                            error.value, replays.value);
          if e.Valid() then Ok(Some(e)) else Err(MalformedEnvelope)
  }

  /** `read_replays`. Unlike `read` it does not refuse a negative count. */
  function ReadReplays(h: Headers): Result<int, Unreadable> {
    var raw := FirstHeader(h, REPLAYS);
    if raw.None? then Ok(0)
    else
      var n := DecodeInt(raw.value);
      if n.Some? then Ok(n.value) else Err(MalformedEnvelope)
  }

  /** `timedelta(seconds=delay)` in microseconds: nearest, ties to even. */
  function Micros(delay: real): int {
    var scaled := delay * 1000000.0;
    var whole := scaled.Floor;
    var part := scaled - whole as real;
    if part < 0.5 || (part == 0.5 && whole % 2 == 0) then whole else whole + 1
  }

  function DueAt(now: Instant, delay: real): Instant {
    if delay <= 0.0 then now else now + Micros(delay)
  }

  /** `advance`: the envelope of the next hop. None is the `ValueError` a negative
      replay count provokes in the envelope's own validation. */
  function Advance(previous: Option<Envelope>, m: Message, now: Instant, delay: real, error: string, replays: int,
                   originTopic: string): Option<Envelope>
  {
    if previous.Some? then
      var next := previous.value.(attempts := previous.value.attempts + 1, notBefore := DueAt(now, delay), error := error);
      if next.Valid() then Some(next) else None
    else
      var e := Envelope(originTopic, m.partition.number, m.offset, 1, now, DueAt(now, delay), error, replays);
      if e.Valid() then Some(e) else None
  }

  // Truncation.

  lemma TruncateBounded(text: string, limit: nat)
    requires limit >= 1
    ensures |Truncate(text, limit)| <= limit
    ensures Truncate(Truncate(text, limit), limit) == Truncate(text, limit)
    ensures Truncate(text, limit) == text <==> |text| <= limit
    ensures |text| > limit > |TRUNCATION_MARKER| ==> EndsWith(Truncate(text, limit), TRUNCATION_MARKER)
    ensures var kept := if |text| <= limit || limit <= |TRUNCATION_MARKER| then limit else limit - |TRUNCATION_MARKER|;
            kept <= |text| ==> Truncate(text, limit)[..kept] == text[..kept]
  {
  }

  // Stripping and stamping.

  lemma {:induction false} StripAppend(a: Headers, b: Headers)
    ensures Strip(a + b) == Strip(a) + Strip(b)
  {
    if a == [] {
      assert a + b == b;
    } else {
      hide Ours;
      StripAppend(a[1..], b);
      assert (a + b)[1..] == a[1..] + b && (a + b)[0] == a[0];
    }
  }

  lemma {:induction false} StripLeavesOthers(h: Headers)
    ensures forall j :: 0 <= j < |Strip(h)| ==> !Ours(Strip(h)[j].0)
    ensures Strip(Strip(h)) == Strip(h)
    ensures forall name :: !Ours(name) ==> AllHeaders(Strip(h), name) == AllHeaders(h, name)
  {
    if h != [] {
      StripLeavesOthers(h[1..]);
      if !Ours(h[0].0) {
        assert Strip(h)[1..] == Strip(h[1..]);
      }
    }
  }

  lemma {:induction false} StripOursIsEmpty(h: Headers)
    requires forall j :: 0 <= j < |h| ==> Ours(h[j].0)
    ensures Strip(h) == []
  {
    if h != [] {
      StripOursIsEmpty(h[1..]);
    }
  }

  lemma WrittenHeadersAreOurs(c: TimeCodec, e: Envelope)
    ensures Strip(ToHeaders(c, e)) == []
  {
    StripOursIsEmpty(ToHeaders(c, e));
  }

  /** Stripping a stamped list gives the application's headers back, and stamping again
      replaces what was stamped before. */
  lemma StampReplaces(c: TimeCodec, h: Headers, e: Envelope, f: Envelope)
    ensures Strip(Stamp(c, h, e)) == Strip(h)
    ensures Stamp(c, Stamp(c, h, e), f) == Stamp(c, h, f)
  {
    StripAppend(Strip(h), ToHeaders(c, e));
    StripLeavesOthers(h);
    WrittenHeadersAreOurs(c, e);
  }

  // Reading back.

  /** An application header never hides one of ours. */
  lemma OursComeFromTheEnd(h: Headers, back: Headers, name: string)
    requires Ours(name)
    ensures FirstHeader(Strip(h) + back, name) == FirstHeader(back, name)
  {
    StripLeavesOthers(h);
    FirstHeaderSkips(Strip(h), back, name);
  }

  lemma WrittenHeadersReadBack(c: TimeCodec, e: Envelope)
    ensures var w := ToHeaders(c, e);
            && FirstHeader(w, ORIGIN_TOPIC) == Some(Utf8(e.originTopic))
            && FirstHeader(w, ORIGIN_PARTITION) == Some(Utf8(PrintInt(e.originPartition)))
            && FirstHeader(w, ORIGIN_OFFSET) == Some(Utf8(PrintInt(e.originOffset)))
            && FirstHeader(w, ATTEMPTS) == Some(Utf8(PrintInt(e.attempts)))
            && FirstHeader(w, FIRST_FAILED_AT) == Some(Utf8(c.render(e.firstFailedAt)))
            && FirstHeader(w, NOT_BEFORE) == Some(Utf8(c.render(e.notBefore)))
            && FirstHeader(w, ERROR) == Some(Utf8(Truncate(e.error, MAX_ERROR_LENGTH)))
            && FirstHeader(w, REPLAYS) == Some(Utf8(PrintInt(e.replays)))
  {
    var w := ToHeaders(c, e);
    FirstHeaderAt(w, ORIGIN_TOPIC, 0);
    FirstHeaderAt(w, ORIGIN_PARTITION, 1);
    FirstHeaderAt(w, ORIGIN_OFFSET, 2);
    FirstHeaderAt(w, ATTEMPTS, 3);
    FirstHeaderAt(w, FIRST_FAILED_AT, 4);
    FirstHeaderAt(w, NOT_BEFORE, 5);
    FirstHeaderAt(w, ERROR, 6);
    FirstHeaderAt(w, REPLAYS, 7);
  }

  lemma StampedHeadersReadBack(c: TimeCodec, h: Headers, e: Envelope)
    ensures var s := Stamp(c, h, e);
            && FirstHeader(s, ORIGIN_TOPIC) == Some(Utf8(e.originTopic))
            && FirstHeader(s, ORIGIN_PARTITION) == Some(Utf8(PrintInt(e.originPartition)))
            && FirstHeader(s, ORIGIN_OFFSET) == Some(Utf8(PrintInt(e.originOffset)))
            && FirstHeader(s, ATTEMPTS) == Some(Utf8(PrintInt(e.attempts)))
            && FirstHeader(s, FIRST_FAILED_AT) == Some(Utf8(c.render(e.firstFailedAt)))
            && FirstHeader(s, NOT_BEFORE) == Some(Utf8(c.render(e.notBefore)))
            && FirstHeader(s, ERROR) == Some(Utf8(Truncate(e.error, MAX_ERROR_LENGTH)))
            && FirstHeader(s, REPLAYS) == Some(Utf8(PrintInt(e.replays)))
  {
    hide FirstHeader, Strip, ToHeaders, PrintInt, Truncate;
    var w := ToHeaders(c, e);
    WrittenHeadersReadBack(c, e);
    OursComeFromTheEnd(h, w, ORIGIN_TOPIC);
    OursComeFromTheEnd(h, w, ORIGIN_PARTITION);
    OursComeFromTheEnd(h, w, ORIGIN_OFFSET);
    OursComeFromTheEnd(h, w, ATTEMPTS);
    OursComeFromTheEnd(h, w, FIRST_FAILED_AT);
    OursComeFromTheEnd(h, w, NOT_BEFORE);
    OursComeFromTheEnd(h, w, ERROR);
    OursComeFromTheEnd(h, w, REPLAYS);
  }

  /** Round trip: a stamped record reads back as the envelope it was stamped with, its
      error cut to size, whatever headers it carried before. */
  lemma ReadUndoesStamp(c: TimeCodec, h: Headers, e: Envelope)
    requires c.RoundTrips() && e.Valid()
    ensures Read(c, Stamp(c, h, e)) == Ok(Some(e.(error := Truncate(e.error, MAX_ERROR_LENGTH))))
    ensures ReadReplays(Stamp(c, h, e)) == Ok(e.replays)
  {
    hide FirstHeader, Stamp, PrintInt, ParseInt, Truncate;
    StampedHeadersReadBack(c, h, e);
    ParseUndoesPrint(e.originPartition);
    ParseUndoesPrint(e.originOffset);
    ParseUndoesPrint(e.attempts);
    ParseUndoesPrint(e.replays);
    assert c.parse(c.render(e.firstFailedAt)) == Some(e.firstFailedAt);
    assert c.parse(c.render(e.notBefore)) == Some(e.notBefore);
  }

  /** A record with none of our headers reads as one that has never failed. */
  lemma NothingOfOurs(c: TimeCodec, h: Headers)
    requires Strip(h) == h
    ensures Read(c, h) == Ok(None) && ReadReplays(h) == Ok(0)
  {
    OursComeFromTheEnd(h, [], ATTEMPTS);
    OursComeFromTheEnd(h, [], REPLAYS);
    assert h + [] == h;
  }

  // Due times.

  lemma MicrosMonotone(x: real, y: real)
    requires 0.0 <= x <= y
    ensures 0 <= Micros(x) <= Micros(y)
  {
    var a, b := x * 1000000.0, y * 1000000.0;
    assert a.Floor <= b.Floor;
  }

  /** With one fixed delay, a later clock reading never gives an earlier due time. */
  lemma DueAtMonotone(earlier: Instant, later: Instant, delay: real)
    requires earlier <= later
    ensures earlier <= DueAt(earlier, delay) <= DueAt(later, delay)
  {
    if delay > 0.0 {
      MicrosMonotone(0.0, delay);
    }
  }

  /** A duration is rounded to the nearest microsecond, so a due time is never more than half of one
      away from the delay asked for. */
  lemma DueAtIsNearest(now: Instant, delay: real)
    requires delay >= 0.0
    ensures -0.5 <= (DueAt(now, delay) - now) as real - delay * 1000000.0 <= 0.5
  {
  }

  /** A required or optional header that is there must decode. */
  predicate Decodes(c: TimeCodec, h: Headers, e: Envelope) {
    && FirstHeader(h, ATTEMPTS).Some? && DecodeInt(FirstHeader(h, ATTEMPTS).value) == Some(e.attempts)
    && FirstHeader(h, ORIGIN_TOPIC).Some? && DecodeText(FirstHeader(h, ORIGIN_TOPIC).value) == Some(e.originTopic)
    && FirstHeader(h, ORIGIN_PARTITION).Some? && DecodeInt(FirstHeader(h, ORIGIN_PARTITION).value) == Some(e.originPartition)
    && FirstHeader(h, ORIGIN_OFFSET).Some? && DecodeInt(FirstHeader(h, ORIGIN_OFFSET).value) == Some(e.originOffset)
    && FirstHeader(h, FIRST_FAILED_AT).Some? && DecodeTime(c, FirstHeader(h, FIRST_FAILED_AT).value) == Some(e.firstFailedAt)
    && FirstHeader(h, NOT_BEFORE).Some? && DecodeTime(c, FirstHeader(h, NOT_BEFORE).value) == Some(e.notBefore)
    && (if FirstHeader(h, ERROR).Some? then DecodeText(FirstHeader(h, ERROR).value) == Some(e.error) else e.error == "")
    && (if FirstHeader(h, REPLAYS).Some? then DecodeInt(FirstHeader(h, REPLAYS).value) == Some(e.replays) else e.replays == 0)
  }

  /** Exactly what is read: for any headers, whoever wrote them, an envelope is what the first header
      of each name decodes to; no attempt count means no envelope; anything else is unreadable. */
  lemma ReadIff(c: TimeCodec, h: Headers, e: Envelope)
    ensures Read(c, h) == Ok(Some(e)) <==> Decodes(c, h, e) && e.Valid()
    ensures Read(c, h) == Ok(None) <==> FirstHeader(h, ATTEMPTS).None?
  {
    hide FirstHeader, ParseInt;
  }
}
