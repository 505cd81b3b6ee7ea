/** The retry ladder of `src/dlq/base.py`: which topics it has, how long each tier waits,
    and how a topic name is turned back into the origin it was derived from. */
module TopicNames {
  import opened Prelude
  import opened Text

  const MAX_TIER_EXPONENT: nat := 32

  datatype RetryTier = RetryTier(index: nat, topic: string, delay: real)

  datatype RetryLadder = RetryLadder(originTopic: string, tiers: seq<RetryTier>, deadLetterTopic: string)
  {
    /** `RetryLadder.destination`: the rung after the `attempts`-th failure. */
    function Destination(attempts: nat): Option<RetryTier>
      requires attempts >= 1
    {
      if attempts > |tiers| then None else Some(tiers[attempts - 1])
    }

    function Topics(): seq<string> {
      [originTopic] + seq(|tiers|, i requires 0 <= i < |tiers| => tiers[i].topic) + [deadLetterTopic]
    }
  }

  datatype LadderRefusal = EmptyOrigin | AlreadyOnALadder

  datatype RetryPolicy = RetryPolicy(
    baseDelay: real,
    multiplier: real,
    tiers: nat,
    maxDelay: real,
    retrySuffix: string,
    deadLetterSuffix: string)
  {
    /** `__post_init__`. */
    predicate Valid() {
      && baseDelay > 0.0
      && multiplier >= 1.0
      && maxDelay >= baseDelay
      && retrySuffix != ""
      && deadLetterSuffix != ""
      && retrySuffix != deadLetterSuffix
    }

    function TierDelay(index: nat): real
      requires index >= 1
    {
      var exponent := if index - 1 < MAX_TIER_EXPONENT then index - 1 else MAX_TIER_EXPONENT;
      var wait := baseDelay * Pow(multiplier, exponent);
      if wait < maxDelay then wait else maxDelay
    }

    function Marker(): string {
      retrySuffix + "."
    }

    function RetryTopic(origin: string, index: nat): string {
      origin + Marker() + Print(index)
    }

    function DeadLetterTopic(origin: string): string {
      origin + deadLetterSuffix
    }

    /** `origin_of`: the inverse of the naming convention. */
    function OriginOf(topic: string): Option<string> {
      if EndsWith(topic, deadLetterSuffix) then
        var head := topic[..|topic| - |deadLetterSuffix|];
        if head == "" then None else Some(head)
      else
        var at := LastOccurrence(topic, Marker(), |topic|);
        if at.None? then None
        else
          var head, tail := topic[..at.value], topic[at.value + |Marker()|..];
          if head != "" && tail != "" && AllDigits(tail) then Some(head) else None
    }

    function LadderFor(origin: string): Result<RetryLadder, LadderRefusal> {
      if origin == "" then Err(EmptyOrigin)
      else if OriginOf(origin).Some? then Err(AlreadyOnALadder)
      else
        Ok(RetryLadder(
             origin,
             seq(tiers, i requires 0 <= i < tiers => RetryTier(i + 1, RetryTopic(origin, i + 1), TierDelay(i + 1))),
             DeadLetterTopic(origin)))
    }

    /** The suffix cannot be mistaken for the end of a tier's name. The default `.dlt` qualifies. */
    predicate SuffixEndsInNoDigit() {
      deadLetterSuffix != "" && !IsDigit(deadLetterSuffix[|deadLetterSuffix| - 1])
    }
  }

  function Pow(b: real, e: nat): real {
    if e == 0 then 1.0 else b * Pow(b, e - 1)
  }

  lemma {:induction false} PowGrows(b: real, d: nat, e: nat)
    requires b >= 1.0 && d <= e
    ensures 1.0 <= Pow(b, d) <= Pow(b, e)
    decreases e
  {
    if d < e {
      PowGrows(b, d, e - 1);
    } else if e > 0 {
      PowGrows(b, e - 1, e - 1);
    }
  }

  /** Waits are positive, bounded by the clamp and never shrink down the ladder. */
  lemma TierDelaysGrow(p: RetryPolicy, i: nat, j: nat)
    requires p.Valid() && 1 <= i <= j
    ensures 0.0 < p.baseDelay <= p.TierDelay(i) <= p.TierDelay(j) <= p.maxDelay
  {
    hide Pow;
    var d := if i - 1 < MAX_TIER_EXPONENT then i - 1 else MAX_TIER_EXPONENT;
    var e := if j - 1 < MAX_TIER_EXPONENT then j - 1 else MAX_TIER_EXPONENT;
    PowGrows(p.multiplier, d, e);
    ScaleMonotone(p.baseDelay, 1.0, Pow(p.multiplier, d));
    ScaleMonotone(p.baseDelay, Pow(p.multiplier, d), Pow(p.multiplier, e));
  }

  lemma ScaleMonotone(k: real, x: real, y: real)
    requires k > 0.0 && x <= y
    ensures k * x <= k * y
  {
  }

  // Names back to origins.

  lemma RetryTopicEndsInDigit(p: RetryPolicy, origin: string, index: nat)
    ensures var t := p.RetryTopic(origin, index); t != "" && IsDigit(t[|t| - 1])
  {
    PrintIsDigits(index);
  }

  /** The last marker in a tier's name is the one the name was built with: a later one
      would have to end in a dot among the digits. */
  lemma LastMarker(p: RetryPolicy, origin: string, index: nat)
    ensures var t := p.RetryTopic(origin, index);
            LastOccurrence(t, p.Marker(), |t|) == Some(|origin|)
  {
    PrintIsDigits(index);
    var t, mark := p.RetryTopic(origin, index), p.Marker();
    assert OccursAt(t, mark, |origin|);
    forall i | |origin| < i <= |t| - |mark| ensures !OccursAt(t, mark, i) {
      var last := i + |mark| - 1;
      assert t[last] == Print(index)[last - |origin| - |mark|];
      assert IsDigit(t[last]) && mark[|mark| - 1] == '.';
      assert t[i..i + |mark|][|mark| - 1] == t[last];
    }
  }

  lemma DeadLetterNameInvertible(p: RetryPolicy, origin: string)
    requires origin != ""
    ensures p.OriginOf(p.DeadLetterTopic(origin)) == Some(origin)
  {
    assert p.DeadLetterTopic(origin)[..|origin|] == origin;
  }

  /** Exactly when a tier's name gives its origin back: unless it also reads as a
      dead-letter name, and not even then if the two suffixes spell the same text. */
  lemma TierNameInvertible(p: RetryPolicy, origin: string, index: nat)
    requires origin != ""
    ensures p.OriginOf(p.RetryTopic(origin, index)) == Some(origin) <==>
            (EndsWith(p.RetryTopic(origin, index), p.deadLetterSuffix) ==>
               p.deadLetterSuffix == p.Marker() + Print(index))
  {
    var t := p.RetryTopic(origin, index);
    if EndsWith(t, p.deadLetterSuffix) {
      var head := t[..|t| - |p.deadLetterSuffix|];
      assert t == head + p.deadLetterSuffix;
      if head == origin {
        assert t[|origin|..] == p.deadLetterSuffix;
        assert t[|origin|..] == p.Marker() + Print(index);
      }
      if p.deadLetterSuffix == p.Marker() + Print(index) {
        assert head == origin;
      }
    } else {
      LastMarker(p, origin, index);
      PrintIsDigits(index);
      assert t[..|origin|] == origin;
      assert t[|origin| + |p.Marker()|..] == Print(index);
    }
  }

  /** With a suffix that ends in no digit, every name of a ladder leads back to its origin. */
  lemma NamesInvertible(p: RetryPolicy, origin: string, index: nat)
    requires origin != "" && p.SuffixEndsInNoDigit()
    ensures p.OriginOf(p.RetryTopic(origin, index)) == Some(origin)
    ensures p.OriginOf(p.DeadLetterTopic(origin)) == Some(origin)
  {
    TierNameInvertible(p, origin, index);
    DeadLetterNameInvertible(p, origin);
    RetryTopicEndsInDigit(p, origin, index);
  }

  /** A suffix ending in a digit can hide a tier: this policy sends `a.retry.1` back to `a.retry`
      instead of `a`. */
  lemma DigitSuffixHidesATier()
    ensures var p := RetryPolicy(5.0, 5.0, 3, 900.0, ".retry", ".1");
            p.Valid() && p.OriginOf(p.RetryTopic("a", 1)) == Some("a.retry")
  {
    var p := RetryPolicy(5.0, 5.0, 3, 900.0, ".retry", ".1");
    assert Print(1) == "1";
    assert p.RetryTopic("a", 1) == "a.retry.1" == "a.retry" + ".1";
    assert "a.retry.1"[..7] == "a.retry";
  }

  /** Tier names are one-to-one in origin and index, whatever the suffixes. */
  lemma TierNamesDistinct(p: RetryPolicy, a: string, i: nat, b: string, j: nat)
    requires p.RetryTopic(a, i) == p.RetryTopic(b, j)
    ensures a == b && i == j
  {
    LastMarker(p, a, i);
    LastMarker(p, b, j);
    var t := p.RetryTopic(a, i);
    assert a == t[..|a|] == b;
    assert Print(i) == t[|a| + |p.Marker()|..] == Print(j);
    PrintInjective(i, j);
  }

  /** The `k`-th topic of a ladder: origin first, dead letter last. */
  function Rung(p: RetryPolicy, origin: string, k: nat): string {
    if k == 0 then origin else if k <= p.tiers then p.RetryTopic(origin, k) else p.DeadLetterTopic(origin)
  }

  lemma TopicsAreRungs(p: RetryPolicy, origin: string)
    requires p.LadderFor(origin).Ok?
    ensures p.LadderFor(origin).value.Topics() == seq(p.tiers + 2, k requires 0 <= k => Rung(p, origin, k))
  {
  }

  /** Two topics of one ladder coincide only when the dead-letter suffix spells out a tier. */
  lemma LadderTopicsDiffer(p: RetryPolicy, origin: string, j: nat, k: nat)
    requires p.Valid() && j < k <= p.tiers + 1
    ensures Rung(p, origin, j) == Rung(p, origin, k) <==>
            1 <= j && k == p.tiers + 1 && p.deadLetterSuffix == p.Marker() + Print(j)
    ensures p.SuffixEndsInNoDigit() ==> Rung(p, origin, j) != Rung(p, origin, k)
  {
    if j == 0 {
      assert |Rung(p, origin, k)| > |origin|;
    } else if k > p.tiers {
      RetryTopicEndsInDigit(p, origin, j);
      var tier, dlt := p.RetryTopic(origin, j), p.DeadLetterTopic(origin);
      assert tier == origin + (p.Marker() + Print(j));
      assert tier[|origin|..] == p.Marker() + Print(j) && dlt[|origin|..] == p.deadLetterSuffix;
    } else if p.RetryTopic(origin, j) == p.RetryTopic(origin, k) {
      TierNamesDistinct(p, origin, j, origin, k);
    }
  }

  /** Ladders of different admitted origins share no topic. */
  lemma LaddersDisjoint(p: RetryPolicy, a: string, b: string, topic: string)
    requires p.LadderFor(a).Ok? && p.LadderFor(b).Ok? && a != b && p.SuffixEndsInNoDigit()
    requires topic in p.LadderFor(a).value.Topics()
    ensures topic !in p.LadderFor(b).value.Topics()
  {
    OnOneLadder(p, a, topic);
    if topic in p.LadderFor(b).value.Topics() {
      OnOneLadder(p, b, topic);
    }
  }

  /** Every topic of a ladder names that ladder's origin, or is it. */
  lemma OnOneLadder(p: RetryPolicy, origin: string, topic: string)
    requires p.LadderFor(origin).Ok? && p.SuffixEndsInNoDigit()
    requires topic in p.LadderFor(origin).value.Topics()
    ensures (if p.OriginOf(topic).Some? then p.OriginOf(topic).value else topic) == origin
  {
    TopicsAreRungs(p, origin);
    var k: nat :| k < p.tiers + 2 && Rung(p, origin, k) == topic;
    NamesInvertible(p, origin, k);
  }

  /** The first tier waits the base delay, and every tier up to the exponent's limit the multiplier
      times as long as the one before, up to the cap. */
  lemma TierDelayStep(p: RetryPolicy, i: nat)
    requires p.Valid() && i >= 1
    ensures p.TierDelay(1) == p.baseDelay
    ensures i <= MAX_TIER_EXPONENT ==>
              p.TierDelay(i + 1) == if p.multiplier * p.TierDelay(i) < p.maxDelay then p.multiplier * p.TierDelay(i) else p.maxDelay
    ensures i > MAX_TIER_EXPONENT ==> p.TierDelay(i + 1) == p.TierDelay(i)
  {
    if i <= MAX_TIER_EXPONENT {
      var wait := p.baseDelay * Pow(p.multiplier, i - 1);
      assert Pow(p.multiplier, i) == p.multiplier * Pow(p.multiplier, i - 1);
      Swapped(p.baseDelay, p.multiplier, Pow(p.multiplier, i - 1));
      Capped(p.multiplier, wait, p.maxDelay);
    }
  }

  lemma Swapped(a: real, b: real, c: real)
    ensures a * (b * c) == b * (a * c)
  {
  }

  lemma Capped(k: real, x: real, cap: real)
    requires k >= 1.0 && cap > 0.0
    ensures x >= cap ==> k * cap >= cap && k * x >= cap
  {
    if x >= cap {
      ScaleMonotone(k, cap, x);
      ScaleMonotone(cap, 1.0, k);
    }
  }

  /** `origin_of` answers only for names the convention can have built. */
  lemma OriginOfIsSound(p: RetryPolicy, topic: string)
    requires p.OriginOf(topic).Some?
    ensures var origin := p.OriginOf(topic).value;
            && origin != ""
            && (topic == p.DeadLetterTopic(origin) ||
                exists digits :: digits != "" && AllDigits(digits) && topic == origin + p.Marker() + digits)
  {
    var origin := p.OriginOf(topic).value;
    if EndsWith(topic, p.deadLetterSuffix) {
      assert topic == origin + p.deadLetterSuffix;
    } else {
      var at := LastOccurrence(topic, p.Marker(), |topic|).value;
      var digits := topic[at + |p.Marker()|..];
      assert topic == topic[..at] + topic[at..at + |p.Marker()|] + digits;
    }
  }

  /** A ladder is built exactly for a name that is not empty and not itself on a ladder, and it has the
      origin, every tier in order and the dead-letter topic. */
  lemma LadderForIff(p: RetryPolicy, origin: string)
    ensures p.LadderFor(origin).Ok? <==> origin != "" && p.OriginOf(origin).None?
    ensures p.LadderFor(origin).Ok? ==>
              var topics := p.LadderFor(origin).value.Topics();
              && |topics| == p.tiers + 2 && topics[0] == origin && topics[p.tiers + 1] == origin + p.deadLetterSuffix
              && forall i :: 1 <= i <= p.tiers ==> topics[i] == origin + p.retrySuffix + "." + Print(i)
  {
    hide Print;
    if p.LadderFor(origin).Ok? {
      forall i | 1 <= i <= p.tiers ensures p.LadderFor(origin).value.Topics()[i] == origin + p.retrySuffix + "." + Print(i) {
        assert origin + (p.retrySuffix + ".") + Print(i) == origin + p.retrySuffix + "." + Print(i);
      }
    }
  }
}
