/** The whole ladder at work: any number of consumer groups whose handlers are wrapped by
    `with_dead_letter` or `retry_tier_handler`, groups that replay dead letters, and producers,
    over the shared append-only logs. No origin record is ever committed past and gone. */
module NoLoss {
  import opened Prelude
  import opened Text
  import opened Records
  import opened Envelope
  import opened Routing
  import opened Assignment
  import opened Groups
  import opened GroupRuns

  type GroupId = string

  /** What a group's handler is: the application's wrapped by `with_dead_letter`, the same behind
      the due-time gate as `retry_tier_handler` composes them, or the replayer's. */
  datatype Role = Origin | RetryTier(grace: Instant) | Replaying

  datatype Deployment = Deployment(cfg: Config, counts: string -> nat, roles: map<GroupId, Role>)

  /** A routing: group `g` put a copy of the record at `(p, o)` at `(q, k)`. */
  datatype Copy = Copy(g: GroupId, p: Partition, o: nat, q: Partition, k: nat)

  /** `accepted` is every record for which the application handler of a group has returned, and
      `copies` every copy a group's router has published. */
  datatype System = System(
    logs: map<Partition, seq<Record>>,
    groups: map<GroupId, Group>,
    accepted: set<(GroupId, Partition, nat)>,
    copies: set<Copy>)

  function Log(s: System, p: Partition): seq<Record> {
    if p in s.logs then s.logs[p] else []
  }

  function Ends(s: System): map<Partition, nat> {
    map p | p in s.logs :: |s.logs[p]|
  }

  predicate Stored(s: System, p: Partition, o: nat) {
    o < |Log(s, p)|
  }

  function At(s: System, p: Partition, o: nat): Message
    requires Stored(s, p, o)
  {
    Message(p, o, Log(s, p)[o])
  }

  /** `_Topic.append`, on a partition the topic has. */
  function Appended(s: System, p: Partition, r: Record): System {
    s.(logs := s.logs[p := Log(s, p) + [r]])
  }

  /** How the publish inside a handler fares: acknowledged, refused, or acknowledged to a handler
      that was cut off before it could return. */
  datatype Fate = Lands | IsRefused | LandsCutOff

  datatype Move =
    | Produce(p: Partition, record: Record)
    | Act(g: GroupId, step: Step)
    | Handle(g: GroupId, m: MemberId, clock: Instant, now: Instant, ending: Ending, number: nat, fate: Fate)
    | Drive(g: GroupId, m: MemberId, number: nat, fate: Fate)

  predicate Holding(s: System, g: GroupId, m: MemberId) {
    g in s.groups && Handling(s.groups[g], m) &&
    var q := s.groups[g].member[m].phase.todo[0]; Stored(s, q.partition, q.next)
  }

  /** The record member `m` is handling. */
  function Held(s: System, g: GroupId, m: MemberId): Message
    requires Holding(s, g, m)
  {
    var q := s.groups[g].member[m].phase.todo[0];
    At(s, q.partition, q.next)
  }

  function Stepped(d: Deployment, s: System, g: GroupId, step: Step): System
    requires g in s.groups
  {
    s.(groups := s.groups[g := GroupNext(s.groups[g], Ends(s), d.counts, step)])
  }

  /** The group's handler routes its failures. */
  predicate Laddered(d: Deployment, g: GroupId) {
    g in d.roles && !d.roles[g].Replaying?
  }

  /** What the wrapped handler does with a record whose application handler would end as `ending`. */
  function Wrapped(d: Deployment, g: GroupId, msg: Message, clock: Instant, now: Instant, ending: Ending): Reaction
    requires Laddered(d, g)
  {
    var inner := if d.roles[g].RetryTier? then WithDueTime(d.cfg, msg, clock, d.roles[g].grace, ending) else ending;
    WithDeadLetter(d.cfg, msg, now, inner)
  }

  /** A handler that publishes and then, unless something went wrong, returns. */
  function Published(d: Deployment, s: System, g: GroupId, m: MemberId, pub: Publication, number: nat, fate: Fate): System
    requires Holding(s, g, m)
  {
    if fate.IsRefused? || number >= d.counts(pub.topic) then Stepped(d, s, g, Halt(m))
    else
      var q := Partition(pub.topic, number);
      var after := if fate.Lands? then Stepped(d, s, g, Return(m)) else s;
      Appended(after, q, pub.record).(copies := s.copies + Made(d, s, g, m, q))
  }

  /** A routing group's publish is a copy of what it holds; a replayer's is not. */
  function Made(d: Deployment, s: System, g: GroupId, m: MemberId, q: Partition): set<Copy>
    requires Holding(s, g, m)
  {
    if Laddered(d, g) then {Copy(g, Held(s, g, m).partition, Held(s, g, m).offset, q, |Log(s, q)|)} else {}
  }

  function Accepted(d: Deployment, s: System, g: GroupId, m: MemberId): System
    requires Holding(s, g, m)
  {
    Stepped(d, s, g, Return(m)).(accepted := s.accepted + {(g, Held(s, g, m).partition, Held(s, g, m).offset)})
  }

  /** One move: a producer, a runner's step outside its handler, or a handler's whole turn. */
  function Moved(d: Deployment, s: System, move: Move): System {
    match move
    case Produce(p, record) =>
      if Publishable(p.topic, record) && p.number < d.counts(p.topic) then Appended(s, p, record) else s
    case Act(g, step) =>
      if g in s.groups && !step.Return? && !step.Append? then Stepped(d, s, g, step) else s
    case Handle(g, m, clock, now, ending, number, fate) =>
      if !Holding(s, g, m) || !Laddered(d, g) then s
      else
        (match Wrapped(d, g, Held(s, g, m), clock, now, ending)
         case PassOn(Returned) => Accepted(d, s, g, m)
         case Publish(r) => Published(d, s, g, m, r.publication, number, fate)
         case _ => Stepped(d, s, g, Halt(m)))
    case Drive(g, m, number, fate) =>
      if !Holding(s, g, m) || g !in d.roles || !d.roles[g].Replaying? then s
      else
        (match ReplayOf(d.cfg, Held(s, g, m))
         case Refused => Stepped(d, s, g, Return(m))
         case NotPublishable => Stepped(d, s, g, Halt(m))
         case PutBack(pub) => Published(d, s, g, m, pub, number, fate))
  }

  function RunAll(d: Deployment, s: System, moves: seq<Move>): System {
    if moves == [] then s else Moved(d, RunAll(d, s, moves[..|moves| - 1]), moves[|moves| - 1])
  }

  predicate Initial(s: System) {
    && s.logs == map[]
    && s.accepted == {} && s.copies == {}
    && forall g :: g in s.groups ==> Fresh(World(map[], s.groups[g]))
  }

  // Logs only grow.

  predicate Extends(s: System, t: System) {
    && (forall p :: p in s.logs ==> Log(s, p) <= Log(t, p))
    && s.accepted <= t.accepted && s.copies <= t.copies
  }

  /** Group `g`'s own router published a copy of the record at `(p, o)`. */
  ghost predicate RouterCopied(d: Deployment, s: System, g: GroupId, p: Partition, o: nat) {
    exists q: Partition, k: nat, now: Instant, f: Failure :: CopyAt(d, s, g, p, o, q, k, now, f)
  }

  predicate CopyAt(d: Deployment, s: System, g: GroupId, p: Partition, o: nat, q: Partition, k: nat, now: Instant, f: Failure) {
    && Copy(g, p, o, q, k) in s.copies
    && Stored(s, p, o) && Stored(s, q, k)
    && Route(d.cfg, At(s, p, o), now, f).Ok?
    && Route(d.cfg, At(s, p, o), now, f).value.publication == Publication(q.topic, Log(s, q)[k])
  }

  /** The wrapped handler of `g` returned for a reason of its own: its application handler did, or
      its router published a copy. */
  ghost predicate Settled(d: Deployment, s: System, g: GroupId, p: Partition, o: nat) {
    (g, p, o) in s.accepted || RouterCopied(d, s, g, p, o)
  }

  ghost predicate HistorySettled(d: Deployment, s: System, g: GroupId)
    requires g in s.groups
  {
    forall p, o :: (p, o) in s.groups[g].history ==> Settled(d, s, g, p, o)
  }

  ghost predicate SystemSafe(d: Deployment, s: System) {
    && (forall g :: g in s.groups ==> GroupSafe(s.groups[g], Ends(s)))
    && (forall g :: g in s.groups && Laddered(d, g) ==> HistorySettled(d, s, g))
  }

  lemma SettledStays(d: Deployment, s: System, t: System, g: GroupId, p: Partition, o: nat)
    requires Settled(d, s, g, p, o) && Extends(s, t)
    ensures Settled(d, t, g, p, o)
  {
    hide Route;
    if (g, p, o) !in s.accepted {
      var q: Partition, k: nat, now: Instant, f: Failure :| CopyAt(d, s, g, p, o, q, k, now, f);
      assert At(t, p, o) == At(s, p, o) && Log(t, q)[k] == Log(s, q)[k];
      assert CopyAt(d, t, g, p, o, q, k, now, f);
    }
  }

  lemma EndsExtend(s: System, t: System)
    requires Extends(s, t)
    ensures forall p :: EndOf(Ends(s), p) <= EndOf(Ends(t), p)
  {
    forall p ensures EndOf(Ends(s), p) <= EndOf(Ends(t), p) {
      if p in s.logs { assert Log(s, p) <= Log(t, p); }
    }
  }

  lemma HistoryOf(g: Group, ends: map<Partition, nat>, counts: string -> nat, step: Step)
    ensures !step.Return? ==> GroupNext(g, ends, counts, step).history == g.history
    ensures step.Return? && Handling(g, step.m) ==>
              var q := g.member[step.m].phase.todo[0];
              GroupNext(g, ends, counts, step).history == g.history + [(q.partition, q.next)]
  {
    hide Share, Drain, CommitAll;
  }

  /** A move that steps one group by `step` and extends the logs keeps the system safe, provided a
      return is backed by something. */
  lemma SteppedSafe(d: Deployment, s: System, t: System, g: GroupId, step: Step)
    requires SystemSafe(d, s) && Extends(s, t) && g in s.groups && !step.Append?
    requires t.groups == s.groups[g := GroupNext(s.groups[g], Ends(s), d.counts, step)]
    requires step.Return? ==> Handling(s.groups[g], step.m)
    requires step.Return? && Laddered(d, g) ==>
               var q := s.groups[g].member[step.m].phase.todo[0]; Settled(d, t, g, q.partition, q.next)
    ensures SystemSafe(d, t)
  {
    hide GroupSafe, GroupNext, Settled, Extends;
    EndsExtend(s, t);
    StepSafe(s.groups[g], Ends(s), d.counts, step);
    HistoryOf(s.groups[g], Ends(s), d.counts, step);
    forall x | x in t.groups ensures GroupSafe(t.groups[x], Ends(t)) {
      EndsGrow(t.groups[x], Ends(s), Ends(t));
    }
    forall x, p, o | x in t.groups && Laddered(d, x) && (p, o) in t.groups[x].history ensures Settled(d, t, x, p, o) {
      if (p, o) in s.groups[x].history {
        SettledStays(d, s, t, x, p, o);
      }
    }
  }

  lemma ExtendedSafe(d: Deployment, s: System, t: System)
    requires SystemSafe(d, s) && Extends(s, t) && t.groups == s.groups
    ensures SystemSafe(d, t)
  {
    hide GroupSafe, Settled, Extends;
    EndsExtend(s, t);
    forall x | x in t.groups ensures GroupSafe(t.groups[x], Ends(t)) {
      EndsGrow(t.groups[x], Ends(s), Ends(t));
    }
    forall x, p, o | x in t.groups && Laddered(d, x) && (p, o) in t.groups[x].history ensures Settled(d, t, x, p, o) {
      SettledStays(d, s, t, x, p, o);
    }
  }

  lemma AppendedExtends(s: System, p: Partition, r: Record)
    ensures Extends(s, Appended(s, p, r))
    ensures Log(Appended(s, p, r), p) == Log(s, p) + [r]
    ensures Appended(s, p, r).groups == s.groups
  {
  }

  lemma SameLogs(s: System, t: System, u: System)
    requires Extends(s, t) && u.logs == t.logs && u.accepted == t.accepted && t.copies <= u.copies
    ensures Extends(s, u)
  {
  }

  lemma Reflexive(s: System)
    ensures Extends(s, s)
  {
  }

  lemma CopyLands(d: Deployment, s: System, t: System, g: GroupId, msg: Message, now: Instant, f: Failure, q: Partition)
    requires Stored(s, msg.partition, msg.offset) && msg == At(s, msg.partition, msg.offset) && Extends(s, t)
    requires Route(d.cfg, msg, now, f).Ok? && q.topic == Route(d.cfg, msg, now, f).value.publication.topic
    requires Log(t, q) == Log(s, q) + [Route(d.cfg, msg, now, f).value.publication.record]
    requires Copy(g, msg.partition, msg.offset, q, |Log(s, q)|) in t.copies
    ensures Settled(d, t, g, msg.partition, msg.offset)
  {
    hide Route;
    assert At(t, msg.partition, msg.offset) == msg;
    assert CopyAt(d, t, g, msg.partition, msg.offset, q, |Log(s, q)|, now, f);
  }

  lemma StepAloneSafe(d: Deployment, s: System, g: GroupId, step: Step)
    requires SystemSafe(d, s) && g in s.groups && !step.Append?
    requires step.Return? ==> Handling(s.groups[g], step.m) && !Laddered(d, g)
    ensures SystemSafe(d, Stepped(d, s, g, step))
  {
    hide SystemSafe, GroupNext, Extends, Settled;
    Reflexive(s);
    SameLogs(s, s, Stepped(d, s, g, step));
    SteppedSafe(d, s, Stepped(d, s, g, step), g, step);
  }

  lemma AcceptedSafe(d: Deployment, s: System, g: GroupId, m: MemberId)
    requires SystemSafe(d, s) && Holding(s, g, m)
    ensures SystemSafe(d, Accepted(d, s, g, m))
  {
    hide SystemSafe, GroupNext, RouterCopied;
    SteppedSafe(d, s, Accepted(d, s, g, m), g, Return(m));
  }

  /** A publishing handler is safe to return once its copy is in the log. */
  lemma PublishedSafe(d: Deployment, s: System, g: GroupId, m: MemberId, pub: Publication, number: nat, fate: Fate, now: Instant, f: Failure)
    requires SystemSafe(d, s) && Holding(s, g, m)
    requires Laddered(d, g) ==> Route(d.cfg, Held(s, g, m), now, f).Ok? && Route(d.cfg, Held(s, g, m), now, f).value.publication == pub
    ensures SystemSafe(d, Published(d, s, g, m, pub, number, fate))
  {
    hide SystemSafe, GroupNext, Route, Extends, Settled;
    if fate.IsRefused? || number >= d.counts(pub.topic) {
      StepAloneSafe(d, s, g, Halt(m));
    } else {
      var p, t := Partition(pub.topic, number), Published(d, s, g, m, pub, number, fate);
      AppendedExtends(s, p, pub.record);
      SameLogs(s, Appended(s, p, pub.record), t);
      if fate.Lands? {
        if Laddered(d, g) {
          CopyLands(d, s, t, g, Held(s, g, m), now, f, p);
        }
        SteppedSafe(d, s, t, g, Return(m));
      } else {
        ExtendedSafe(d, s, t);
      }
    }
  }

  lemma HandleSafe(d: Deployment, s: System, g: GroupId, m: MemberId, clock: Instant, now: Instant, ending: Ending, number: nat, fate: Fate)
    requires SystemSafe(d, s) && Holding(s, g, m) && Laddered(d, g)
    ensures SystemSafe(d, Moved(d, s, Handle(g, m, clock, now, ending, number, fate)))
  {
    hide SystemSafe, GroupNext, Route, Published, Read;
    var msg := Held(s, g, m);
    var inner := if d.roles[g].RetryTier? then WithDueTime(d.cfg, msg, clock, d.roles[g].grace, ending) else ending;
    match Wrapped(d, g, msg, clock, now, ending)
    case PassOn(Returned) => AcceptedSafe(d, s, g, m);
    case Publish(r) => PublishedSafe(d, s, g, m, r.publication, number, fate, now, inner.failure);
    case _ => StepAloneSafe(d, s, g, Halt(m));
  }

  lemma DriveSafe(d: Deployment, s: System, g: GroupId, m: MemberId, number: nat, fate: Fate)
    requires SystemSafe(d, s) && Holding(s, g, m) && !Laddered(d, g)
    ensures SystemSafe(d, Moved(d, s, Drive(g, m, number, fate)))
  {
    hide SystemSafe, GroupNext, Route, Published, ReplayOf;
    match ReplayOf(d.cfg, Held(s, g, m))
    case Refused => StepAloneSafe(d, s, g, Return(m));
    case NotPublishable => StepAloneSafe(d, s, g, Halt(m));
    case PutBack(pub) => PublishedSafe(d, s, g, m, pub, number, fate, 0, Failure(false, ""));
  }

  lemma MoveSafe(d: Deployment, s: System, move: Move)
    requires SystemSafe(d, s)
    ensures SystemSafe(d, Moved(d, s, move))
  {
    hide SystemSafe, GroupNext, Extends, Wrapped, ReplayOf;
    match move
    case Produce(p, record) =>
      AppendedExtends(s, p, record);
      ExtendedSafe(d, s, Appended(s, p, record));
    case Act(g, step) =>
      if g in s.groups && !step.Return? && !step.Append? {
        StepAloneSafe(d, s, g, step);
      }
    case Handle(g, m, clock, now, ending, number, fate) =>
      if Holding(s, g, m) && Laddered(d, g) {
        HandleSafe(d, s, g, m, clock, now, ending, number, fate);
      }
    case Drive(g, m, number, fate) =>
      if Holding(s, g, m) && !Laddered(d, g) {
        DriveSafe(d, s, g, m, number, fate);
      }
  }

  lemma {:induction false} RunAllSafe(d: Deployment, s: System, moves: seq<Move>)
    requires SystemSafe(d, s)
    ensures SystemSafe(d, RunAll(d, s, moves))
  {
    hide SystemSafe, Moved;
    if moves != [] {
      RunAllSafe(d, s, moves[..|moves| - 1]);
      MoveSafe(d, RunAll(d, s, moves[..|moves| - 1]), moves[|moves| - 1]);
    }
  }

  // Following a record down the ladder.

  /** The record at `(q, k)` carries the payload and application headers of `x`, and an envelope
      that names `x`'s own coordinates as its origin. */
  ghost predicate DescendsFrom(d: Deployment, s: System, x: Message, q: Partition, k: nat, attempts: nat) {
    && Stored(s, q, k)
    && var r := Log(s, q)[k];
       var read := Read(d.cfg.codec, r.headers);
       && r.value == x.record.value
       && Strip(r.headers) == Strip(x.record.headers)
       && read.Ok? && read.value.Some?
       && var e := read.value.value;
          && e.originTopic == x.partition.topic
          && e.originPartition == x.partition.number
          && e.originOffset == x.offset
          && e.attempts == attempts
  }

  /** `(q, k)` still counts: handled by the retry group, dead-lettered, or waiting in a tier at or
      beyond what the retry group has committed. */
  predicate Alive(d: Deployment, s: System, retry: GroupId, origin: string, q: Partition, k: nat)
    requires retry in s.groups
  {
    || (retry, q, k) in s.accepted
    || q.topic == d.cfg.policy.DeadLetterTopic(origin)
    || (k >= StartAt(s.groups[retry].committed, q) &&
        exists i :: 1 <= i <= d.cfg.policy.tiers && q.topic == d.cfg.policy.RetryTopic(origin, i))
  }

  /** `n` routings by the retry group lead from `(q, k)` to `(q', k')`. */
  ghost predicate Leads(s: System, retry: GroupId, q: Partition, k: nat, q': Partition, k': nat, n: nat)
    decreases n
  {
    if n == 0 then q == q' && k == k'
    else exists a: Partition, b: nat :: Copy(retry, q, k, a, b) in s.copies && Leads(s, retry, a, b, q', k', n - 1)
  }

  /** Where a descendant after `attempts` failures can be. */
  predicate OnRung(d: Deployment, origin: string, q: Partition, attempts: nat) {
    || q.topic == d.cfg.policy.DeadLetterTopic(origin)
    || (1 <= attempts <= d.cfg.policy.tiers && q.topic == d.cfg.policy.RetryTopic(origin, attempts))
  }

  /** Group `g` handled `x`, or routed a copy of it from which the retry group's own routings lead
      to a descendant that is alive. */
  ghost predicate Survives(d: Deployment, s: System, g: GroupId, retry: GroupId, x: Message)
    requires retry in s.groups
  {
    || (g, x.partition, x.offset) in s.accepted
    || exists q: Partition, k: nat :: Copy(g, x.partition, x.offset, q, k) in s.copies && LivesOn(d, s, retry, x, q, k)
  }

  ghost predicate LivesOn(d: Deployment, s: System, retry: GroupId, x: Message, q: Partition, k: nat)
    requires retry in s.groups
  {
    exists q': Partition, k': nat, attempts: nat, n: nat ::
      && Leads(s, retry, q, k, q', k', n)
      && DescendsFrom(d, s, x, q', k', attempts) && Alive(d, s, retry, x.partition.topic, q', k')
  }

  lemma ReadImpliesReplays(c: TimeCodec, h: Headers)
    requires Read(c, h).Ok? && Read(c, h).value.Some?
    ensures ReadReplays(h) == Ok(Read(c, h).value.value.replays)
  {
    hide ParseInt, FirstHeader;
  }

  /** A router's copy of a descendant is a descendant, one rung on. */
  lemma NextDescendant(d: Deployment, s: System, g: GroupId, x: Message, q: Partition, k: nat, attempts: nat,
                       q': Partition, k': nat, now: Instant, f: Failure)
    requires d.cfg.Valid() && DescendsFrom(d, s, x, q, k, attempts) && CopyAt(d, s, g, q, k, q', k', now, f)
    ensures DescendsFrom(d, s, x, q', k', attempts + 1)
    ensures OnRung(d, x.partition.topic, q', attempts + 1)
  {
    hide Read, ReadReplays, Route, Strip;
    var m := At(s, q, k);
    ReadImpliesReplays(d.cfg.codec, m.record.headers);
    RouteMovesOneRung(d.cfg, m, now, f);
    RouteKeepsRecord(d.cfg, m, now, f);
  }

  /** A router's copy of an origin record that has never failed names it as its origin. */
  lemma FirstDescendant(d: Deployment, s: System, g: GroupId, p: Partition, o: nat, q: Partition, k: nat, now: Instant, f: Failure)
    requires d.cfg.Valid() && CopyAt(d, s, g, p, o, q, k, now, f)
    requires d.cfg.policy.OriginOf(p.topic).None?
    requires FirstHeader(Log(s, p)[o].headers, ATTEMPTS).None?
    ensures DescendsFrom(d, s, At(s, p, o), q, k, 1)
    ensures OnRung(d, p.topic, q, 1)
  {
    var m := At(s, p, o);
    AbsentEnvelope(d.cfg.codec, m.record.headers);
    hide Read, ReadReplays, Strip;
    RouteKeepsRecord(d.cfg, m, now, f);
    if ReadReplays(m.record.headers).Ok? {
      RouteMovesOneRung(d.cfg, m, now, f);
    }
  }

  lemma CommittedIsStored(d: Deployment, s: System, g: GroupId, p: Partition, o: nat)
    requires SystemSafe(d, s) && g in s.groups && o < StartAt(s.groups[g].committed, p)
    ensures Stored(s, p, o)
  {
    var h := s.groups[g].history;
    assert AllBelow(h, p, s.groups[g].committed[p]);
    assert (p, o) in h;
    assert InLog(h, Ends(s));
  }

  lemma {:induction false} GroupsStay(d: Deployment, s: System, moves: seq<Move>)
    ensures RunAll(d, s, moves).groups.Keys == s.groups.Keys
  {
    hide GroupNext, Wrapped, ReplayOf;
    if moves != [] {
      GroupsStay(d, s, moves[..|moves| - 1]);
    }
  }

  lemma CommittedIsSettled(d: Deployment, s: System, g: GroupId, p: Partition, o: nat)
    requires SystemSafe(d, s) && g in s.groups && Laddered(d, g) && o < StartAt(s.groups[g].committed, p)
    ensures Settled(d, s, g, p, o)
  {
    hide Settled;
    assert CommittedSafe(s.groups[g]) && AllBelow(s.groups[g].history, p, s.groups[g].committed[p]);
    assert (p, o) in s.groups[g].history;
    assert HistorySettled(d, s, g);
  }

  lemma {:induction false} FollowDescendant(d: Deployment, s: System, retry: GroupId, x: Message, q: Partition, k: nat, attempts: nat)
    requires d.cfg.Valid() && SystemSafe(d, s) && retry in s.groups && Laddered(d, retry)
    requires DescendsFrom(d, s, x, q, k, attempts) && OnRung(d, x.partition.topic, q, attempts)
    ensures LivesOn(d, s, retry, x, q, k)
    decreases d.cfg.policy.tiers + 1 - attempts
  {
    hide SystemSafe, DescendsFrom, CopyAt, LivesOn;
    if Alive(d, s, retry, x.partition.topic, q, k) {
      AliveHere(d, s, retry, x, q, k, attempts);
    } else {
      CommittedIsSettled(d, s, retry, q, k);
      var q': Partition, k': nat, now: Instant, f: Failure :| CopyAt(d, s, retry, q, k, q', k', now, f);
      NextDescendant(d, s, retry, x, q, k, attempts, q', k', now, f);
      FollowDescendant(d, s, retry, x, q', k', attempts + 1);
      CopyRecorded(d, s, retry, q, k, q', k', now, f);
      OneMore(d, s, retry, x, q, k, q', k');
    }
  }

  lemma AliveHere(d: Deployment, s: System, retry: GroupId, x: Message, q: Partition, k: nat, attempts: nat)
    requires retry in s.groups && DescendsFrom(d, s, x, q, k, attempts) && Alive(d, s, retry, x.partition.topic, q, k)
    ensures LivesOn(d, s, retry, x, q, k)
  {
    hide DescendsFrom, Alive;
    assert Leads(s, retry, q, k, q, k, 0);
  }

  lemma CopyRecorded(d: Deployment, s: System, g: GroupId, p: Partition, o: nat, q: Partition, k: nat, now: Instant, f: Failure)
    requires CopyAt(d, s, g, p, o, q, k, now, f)
    ensures Copy(g, p, o, q, k) in s.copies
  {
  }

  lemma OneMore(d: Deployment, s: System, retry: GroupId, x: Message, q: Partition, k: nat, a: Partition, b: nat)
    requires retry in s.groups && Copy(retry, q, k, a, b) in s.copies && LivesOn(d, s, retry, x, a, b)
    ensures LivesOn(d, s, retry, x, q, k)
  {
    hide DescendsFrom, Alive;
    var q': Partition, k': nat, attempts: nat, n: nat :|
      && Leads(s, retry, a, b, q', k', n)
      && DescendsFrom(d, s, x, q', k', attempts) && Alive(d, s, retry, x.partition.topic, q', k');
    assert Leads(s, retry, q, k, q', k', n + 1);
  }

  lemma CommittedSurvives(d: Deployment, s: System, g: GroupId, retry: GroupId, p: Partition, o: nat)
    requires d.cfg.Valid() && SystemSafe(d, s)
    requires g in s.groups && Laddered(d, g) && retry in s.groups && Laddered(d, retry)
    requires Stored(s, p, o) && o < StartAt(s.groups[g].committed, p)
    requires d.cfg.policy.OriginOf(p.topic).None?
    requires FirstHeader(Log(s, p)[o].headers, ATTEMPTS).None?
    ensures Survives(d, s, g, retry, At(s, p, o))
  {
    hide SystemSafe, DescendsFrom, CopyAt, Alive, FirstHeader, OnRung, LivesOn;
    CommittedIsSettled(d, s, g, p, o);
    if (g, p, o) !in s.accepted {
      var q: Partition, k: nat, now: Instant, f: Failure :| CopyAt(d, s, g, p, o, q, k, now, f);
      FirstDescendant(d, s, g, p, o, q, k, now, f);
      FollowDescendant(d, s, retry, At(s, p, o), q, k, 1);
      CopyRecorded(d, s, g, p, o, q, k, now, f);
    }
  }

  /** No record is lost. In every run, with failures, refused and interrupted publishes,
      rebalances and cancellations at any point, an origin record below its group's committed
      offset was handled by that group, or that group routed a copy of it from which the retry
      group's own routings lead to a copy with the same payload and application headers, whose
      envelope points back at the record, and which the retry group has handled, which lies in the
      dead-letter topic, or which waits in a tier at or beyond the retry group's committed offset.
      What another group did with the record is never taken for an answer. */
  lemma NoRecordLost(d: Deployment, s: System, moves: seq<Move>, g: GroupId, retry: GroupId, p: Partition, o: nat)
    requires d.cfg.Valid() && Initial(s)
    requires g in s.groups && Laddered(d, g) && retry in s.groups && Laddered(d, retry)
    requires d.cfg.policy.OriginOf(p.topic).None?
    ensures var t := RunAll(d, s, moves);
            && g in t.groups && retry in t.groups
            && (o < StartAt(t.groups[g].committed, p) ==>
                  && Stored(t, p, o)
                  && (FirstHeader(Log(t, p)[o].headers, ATTEMPTS).None? ==> Survives(d, t, g, retry, At(t, p, o))))
  {
    hide Moved, RunAll, FirstHeader, Survives;
    assert SystemSafe(d, s);
    RunAllSafe(d, s, moves);
    GroupsStay(d, s, moves);
    var t := RunAll(d, s, moves);
    if o < StartAt(t.groups[g].committed, p) {
      CommittedIsStored(d, t, g, p, o);
      if FirstHeader(Log(t, p)[o].headers, ATTEMPTS).None? {
        CommittedSurvives(d, t, g, retry, p, o);
      }
    }
  }

  // And nothing is left undone that could be done.

  /** The record has been dealt with by `g`: its handler returned for it. */
  predicate MovedOn(s: System, t: System, g: GroupId, m: MemberId)
    requires Holding(s, g, m)
  {
    && g in t.groups
    && t.groups[g].history == s.groups[g].history + [(Held(s, g, m).partition, Held(s, g, m).offset)]
    && m in t.groups[g].member && t.groups[g].member[m] == Succeeded(s.groups[g].member[m])
  }

  /** The record is still there to be read again. */
  predicate StaysPut(s: System, t: System, g: GroupId, m: MemberId)
    requires Holding(s, g, m)
  {
    && t.logs == s.logs && t.accepted == s.accepted && t.copies == s.copies
    && g in t.groups && t.groups[g].history == s.groups[g].history
    && m in t.groups[g].member && t.groups[g].member[m] == Halted(s.groups[g].member[m])
  }

  /** What one turn of a routing handler comes to, in every case. `inner` is how the handler ends once
      the gate of a retry tier has had its say. */
  lemma HandlerTurn(d: Deployment, s: System, g: GroupId, m: MemberId, clock: Instant, now: Instant, ending: Ending, number: nat)
    requires Holding(s, g, m) && Laddered(d, g)
    ensures var msg := Held(s, g, m);
            var inner := if d.roles[g].RetryTier? then WithDueTime(d.cfg, msg, clock, d.roles[g].grace, ending) else ending;
            var t := Moved(d, s, Handle(g, m, clock, now, ending, number, Fate.Lands));
            && (inner == Returned ==> MovedOn(s, t, g, m) && (g, msg.partition, msg.offset) in t.accepted && t.logs == s.logs)
            && (inner.NotYet? ==> StaysPut(s, t, g, m))
            && (inner.Raised? && Route(d.cfg, msg, now, inner.failure).Err? ==> StaysPut(s, t, g, m))
            && (inner.Raised? && Route(d.cfg, msg, now, inner.failure).Ok? ==>
                  var pub := Route(d.cfg, msg, now, inner.failure).value.publication;
                  var q := Partition(pub.topic, number);
                  if number < d.counts(pub.topic) then
                    && MovedOn(s, t, g, m)
                    && Log(t, q) == Log(s, q) + [pub.record]
                    && Copy(g, msg.partition, msg.offset, q, |Log(s, q)|) in t.copies
                  else StaysPut(s, t, g, m))
  {
    hide Route, WithDueTime, Succeeded, Halted, Read;
  }
}
