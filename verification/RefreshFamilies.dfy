/** Refresh tokens, the grants they descend from, and the transactions that rotate and revoke them:
    `src/auth/service.py` over the store of `src/repositories/refresh_token.py`. */
module RefreshFamilies {
  import opened Prelude

  type UserId = nat
  type FamilyId = nat

  datatype Reason = Rotated | Reused | LoggedOut

  datatype Revocation = Revocation(reason: Reason, at: int)

  datatype Row = Row(user: UserId, expiresAt: int, family: FamilyId, revoked: Option<Revocation>)

  type Tokens = map<string, Row>

  datatype User = User(hash: Option<string>, active: bool)

  /** Rows of the outbox, which commit with the change they announce. */
  datatype Event = UserLoggedIn(user: UserId) | ReuseDetected(user: UserId, family: FamilyId, sessionsRevoked: nat)

  datatype Database = Database(
    users: map<UserId, User>,
    emails: map<string, UserId>,
    tokens: Tokens,
    outbox: seq<Event>)

  datatype AuthError = InvalidCredentials | InactiveAccount | InvalidToken | WrongType | UnknownOrRevoked | ExpiredToken | NoUser

  /** What cannot be seen into: JWT decoding, giving the `type` claim, and password checking. */
  datatype Codec = Codec(typeOf: string -> Option<string>, verify: (string, string) -> bool)

  // The store.

  predicate LiveToken(tokens: Tokens, token: string) {
    token in tokens && tokens[token].revoked.None?
  }

  function LiveIn(tokens: Tokens, family: FamilyId): set<string> {
    set t | t in tokens && tokens[t].family == family && tokens[t].revoked.None?
  }

  function Marked(row: Row, reason: Reason, at: int): Row {
    row.(revoked := Some(Revocation(reason, at)))
  }

  /** `revoke_family`: live members only, so the provenance of the others stays. */
  function FamilyRevoked(tokens: Tokens, family: FamilyId, reason: Reason, at: int): Tokens {
    map t | t in tokens :: if t in LiveIn(tokens, family) then Marked(tokens[t], reason, at) else tokens[t]
  }

  // Each service call as the transaction it commits. `successor` and `family` are the new token
  // and grant identifiers minted along the way.

  function LoggedIn(db: Database, codec: Codec, email: string, password: string, successor: string, family: FamilyId, expires: int):
    (Database, Result<string, AuthError>)
  {
    if email !in db.emails || db.emails[email] !in db.users || db.users[db.emails[email]].hash.None? then
      (db, Err(InvalidCredentials))
    else
      var id := db.emails[email];
      if !codec.verify(password, db.users[id].hash.value) then (db, Err(InvalidCredentials))
      else if !db.users[id].active then (db, Err(InactiveAccount))
      else
        (db.(tokens := db.tokens[successor := Row(id, expires, family, None)], outbox := db.outbox + [UserLoggedIn(id)]),
         Ok(successor))
  }

  predicate Replayed(db: Database, codec: Codec, token: string) {
    && codec.typeOf(token) == Some("refresh")
    && token in db.tokens && db.tokens[token].revoked.Some?
  }

  function Refreshed(db: Database, codec: Codec, token: string, now: int, at: int, successor: string, expires: int):
    (Database, Result<string, AuthError>)
  {
    if codec.typeOf(token).None? then (db, Err(InvalidToken))
    else if codec.typeOf(token).value != "refresh" then (db, Err(WrongType))
    else if token !in db.tokens then (db, Err(UnknownOrRevoked))
    else
      var stored := db.tokens[token];
      if stored.revoked.Some? then
        (db.(tokens := FamilyRevoked(db.tokens, stored.family, Reused, at),
             outbox := db.outbox + [ReuseDetected(stored.user, stored.family, |LiveIn(db.tokens, stored.family)|)]),
         Err(UnknownOrRevoked))
      else if stored.expiresAt < now then (db, Err(ExpiredToken))
      else if stored.user !in db.users then (db, Err(NoUser))
      else if !db.users[stored.user].active then (db, Err(InactiveAccount))
      else
        (db.(tokens := db.tokens[token := Marked(stored, Rotated, at)][successor := Row(stored.user, expires, stored.family, None)]),
         Ok(successor))
  }

  function LoggedOff(db: Database, token: string, at: int): Database {
    if token in db.tokens then db.(tokens := FamilyRevoked(db.tokens, db.tokens[token].family, LoggedOut, at)) else db
  }

  /** One request's service and its session: `working` is what the request sees and writes, and
      only a commit makes it last. */
  class AuthService {
    const codec: Codec
    var committed: Database
    var working: Database

    constructor (codec: Codec, db: Database)
      ensures this.codec == codec && committed == db && working == db
    {
      this.codec, committed, working := codec, db, db;
    }

    method Commit()
      modifies this`committed
      ensures committed == working
    {
      committed := working;
    }

    /** The session closes without committing. */
    method Close()
      modifies this`working
      ensures working == committed
    {
      working := committed;
    }

    method RevokeFamily(family: FamilyId, reason: Reason, at: int) returns (count: nat)
      modifies this`working
      ensures working == old(working).(tokens := FamilyRevoked(old(working).tokens, family, reason, at))
      ensures count == |LiveIn(old(working).tokens, family)|
    {
      var selected := LiveIn(working.tokens, family);
      count := |selected|;
      var todo := selected;
      while todo != {}
        invariant todo <= selected
        invariant working == old(working).(tokens := working.tokens)
        invariant working.tokens.Keys == old(working).tokens.Keys
        invariant forall t :: t in working.tokens ==>
                    working.tokens[t] == if t in selected - todo then Marked(old(working).tokens[t], reason, at) else old(working).tokens[t]
        decreases todo
      {
        var t :| t in todo;
        working := working.(tokens := working.tokens[t := Marked(working.tokens[t], reason, at)]);
        todo := todo - {t};
      }
    }

    /** `_issue_tokens`: the row that continues or begins a grant. */
    method IssueTokens(user: UserId, family: FamilyId, successor: string, expires: int) returns (token: string)
      requires successor !in working.tokens
      modifies this`working
      ensures token == successor
      ensures working == old(working).(tokens := old(working).tokens[successor := Row(user, expires, family, None)])
    {
      working := working.(tokens := working.tokens[successor := Row(user, expires, family, None)]);
      token := successor;
    }

    method Login(email: string, password: string, successor: string, family: FamilyId, expires: int) returns (r: Result<string, AuthError>)
      requires working == committed && successor !in working.tokens
      modifies this
      ensures (committed, r) == LoggedIn(old(committed), codec, email, password, successor, family, expires)
    {
      if email !in working.emails {
        return Err(InvalidCredentials);
      }
      var id := working.emails[email];
      if id !in working.users || working.users[id].hash.None? {
        return Err(InvalidCredentials);
      }
      if !codec.verify(password, working.users[id].hash.value) {
        return Err(InvalidCredentials);
      }
      if !working.users[id].active {
        return Err(InactiveAccount);
      }
      var token := IssueTokens(id, family, successor, expires);
      working := working.(outbox := working.outbox + [UserLoggedIn(id)]);
      Commit();
      r := Ok(token);
    }

    /** `_handle_reuse`: commits, then refuses. */
    method HandleReuse(stored: Row, at: int) returns (refusal: AuthError)
      modifies this
      ensures refusal == UnknownOrRevoked
      ensures committed == old(working).(
                tokens := FamilyRevoked(old(working).tokens, stored.family, Reused, at),
                outbox := old(working).outbox + [ReuseDetected(stored.user, stored.family, |LiveIn(old(working).tokens, stored.family)|)])
    {
      var revoked := RevokeFamily(stored.family, Reused, at);
      working := working.(outbox := working.outbox + [ReuseDetected(stored.user, stored.family, revoked)]);
      Commit();
      refusal := UnknownOrRevoked;
    }

    /** `refresh`. The rotation is written before the user is checked; a refusal leaves it pending. */
    method Refresh(token: string, now: int, at: int, successor: string, expires: int) returns (r: Result<string, AuthError>)
      requires working == committed && successor !in working.tokens
      modifies this
      ensures (committed, r) == Refreshed(old(committed), codec, token, now, at, successor, expires)
    {
      var kind := codec.typeOf(token);
      if kind.None? {
        return Err(InvalidToken);
      }
      if kind.value != "refresh" {
        return Err(WrongType);
      }
      if token !in working.tokens {
        return Err(UnknownOrRevoked);
      }
      var stored := working.tokens[token];
      if stored.revoked.Some? {
        var refusal := HandleReuse(stored, at);
        return Err(refusal);
      }
      if stored.expiresAt < now {
        return Err(ExpiredToken);
      }
      working := working.(tokens := working.tokens[token := Marked(stored, Rotated, at)]);
      if stored.user !in working.users {
        return Err(NoUser);
      }
      if !working.users[stored.user].active {
        return Err(InactiveAccount);
      }
      var next := IssueTokens(stored.user, stored.family, successor, expires);
      Commit();
      r := Ok(next);
    }

    method Logout(token: string, at: int)
      requires working == committed
      modifies this
      ensures committed == LoggedOff(old(committed), token, at)
    {
      if token in working.tokens {
        var _ := RevokeFamily(working.tokens[token].family, LoggedOut, at);
      }
      Commit();
    }
  }

  // Whole histories of committed states.

  /** `minted` is every grant identifier ever used and `texts` every token, those of deleted rows
      included. */
  datatype World = World(db: Database, minted: set<FamilyId>, texts: set<string>)

  datatype Step =
    | Login(email: string, password: string, successor: string, family: FamilyId, expires: int)
    | Refresh(token: string, now: int, at: int, successor: string, expires: int)
    | Logout(token: string, at: int)
    | DeleteExpired(now: int)
    | ChangeUsers(users: map<UserId, User>, emails: map<string, UserId>)

  function Next(w: World, codec: Codec, step: Step): World {
    match step
    case Login(email, password, successor, family, expires) =>
      if successor in w.texts || family in w.minted then w
      else World(LoggedIn(w.db, codec, email, password, successor, family, expires).0, w.minted + {family}, w.texts + {successor})
    case Refresh(token, now, at, successor, expires) =>
      if successor in w.texts then w
      else w.(db := Refreshed(w.db, codec, token, now, at, successor, expires).0, texts := w.texts + {successor})
    case Logout(token, at) => w.(db := LoggedOff(w.db, token, at))
    case DeleteExpired(now) =>
      w.(db := w.db.(tokens := map t | t in w.db.tokens && w.db.tokens[t].expiresAt >= now :: w.db.tokens[t]))
    case ChangeUsers(users, emails) => w.(db := w.db.(users := users, emails := emails))
  }

  function Run(w: World, codec: Codec, steps: seq<Step>): World {
    if steps == [] then w else Next(Run(w, codec, steps[..|steps| - 1]), codec, steps[|steps| - 1])
  }

  predicate Fresh(w: World) {
    w.db.tokens == map[] && w.db.outbox == []
  }

  ghost predicate OneLivePerFamily(tokens: Tokens) {
    forall a, b :: LiveToken(tokens, a) && LiveToken(tokens, b) && tokens[a].family == tokens[b].family ==> a == b
  }

  predicate FamiliesMinted(w: World) {
    forall t :: t in w.db.tokens ==> t in w.texts && w.db.tokens[t].family in w.minted
  }

  /** A grant that was begun and has no live token left. */
  ghost predicate Ended(w: World, family: FamilyId) {
    family in w.minted && forall t :: LiveToken(w.db.tokens, t) ==> w.db.tokens[t].family != family
  }

  ghost predicate AlertsTrue(w: World) {
    forall i :: 0 <= i < |w.db.outbox| && w.db.outbox[i].ReuseDetected? ==> Ended(w, w.db.outbox[i].family)
  }

  ghost predicate Sound(w: World) {
    OneLivePerFamily(w.db.tokens) && FamiliesMinted(w) && AlertsTrue(w)
  }

  lemma StepEnded(w: World, codec: Codec, step: Step, family: FamilyId)
    requires FamiliesMinted(w) && Ended(w, family)
    ensures Ended(Next(w, codec, step), family)
  {
    hide FamiliesMinted;
    var w' := Next(w, codec, step);
    forall t | LiveToken(w'.db.tokens, t) ensures w'.db.tokens[t].family != family {
      assert t in w.db.tokens ==> w.db.tokens[t].revoked.None? ==> LiveToken(w.db.tokens, t);
      if step.Refresh? && step.token in w.db.tokens {
        assert w.db.tokens[step.token].revoked.None? ==> LiveToken(w.db.tokens, step.token);
      }
    }
  }

  lemma RevokedEnds(w: World, family: FamilyId, reason: Reason, at: int)
    requires family in w.minted
    ensures Ended(w.(db := w.db.(tokens := FamilyRevoked(w.db.tokens, family, reason, at))), family)
  {
  }

  lemma StepSound(w: World, codec: Codec, step: Step)
    requires Sound(w)
    ensures Sound(Next(w, codec, step))
  {
    var w' := Next(w, codec, step);
    StepOneLive(w, codec, step);
    forall i | 0 <= i < |w'.db.outbox| && w'.db.outbox[i].ReuseDetected? ensures Ended(w', w'.db.outbox[i].family) {
      StepAlert(w, codec, step, i);
    }
  }

  lemma StepAlert(w: World, codec: Codec, step: Step, i: nat)
    requires Sound(w)
    requires var w' := Next(w, codec, step); i < |w'.db.outbox| && w'.db.outbox[i].ReuseDetected?
    ensures var w' := Next(w, codec, step); Ended(w', w'.db.outbox[i].family)
  {
    hide OneLivePerFamily, FamilyRevoked, LiveIn;
    var w' := Next(w, codec, step);
    var family := w'.db.outbox[i].family;
    if i < |w.db.outbox| {
      assert w.db.outbox[i] == w'.db.outbox[i];
      StepEnded(w, codec, step, family);
    } else {
      RevokedEnds(w, family, Reused, step.at);
    }
  }

  /** What a step leaves live was live before, or is the one token it issued: into a family nobody
      had, or into the family of the live token it spent. */
  lemma StepOneLive(w: World, codec: Codec, step: Step)
    requires OneLivePerFamily(w.db.tokens) && FamiliesMinted(w)
    ensures OneLivePerFamily(Next(w, codec, step).db.tokens) && FamiliesMinted(Next(w, codec, step))
  {
    StepMinted(w, codec, step);
    hide FamilyRevoked;
    var before, after := w.db.tokens, Next(w, codec, step).db.tokens;
    forall a, b | LiveToken(after, a) && LiveToken(after, b) && after[a].family == after[b].family ensures a == b {
      StillLive(w, codec, step, a);
      StillLive(w, codec, step, b);
    }
  }

  lemma StepMinted(w: World, codec: Codec, step: Step)
    requires FamiliesMinted(w)
    ensures FamiliesMinted(Next(w, codec, step))
  {
  }

  lemma StillLive(w: World, codec: Codec, step: Step, a: string)
    requires FamiliesMinted(w) && LiveToken(Next(w, codec, step).db.tokens, a)
    ensures var before, after := w.db.tokens, Next(w, codec, step).db.tokens;
            if a in before then LiveToken(before, a) && after[a].family == before[a].family && (step.Refresh? && after != before ==> a != step.token)
            else
              && (step.Login? || step.Refresh?) && a == step.successor
              && (step.Login? ==> after[a].family !in w.minted)
              && (step.Refresh? ==> LiveToken(before, step.token) && after[a].family == before[step.token].family)
  {
  }

  lemma {:induction false} RunSound(w: World, codec: Codec, steps: seq<Step>)
    requires Sound(w)
    ensures Sound(Run(w, codec, steps))
  {
    hide Sound, Next;
    if steps != [] {
      RunSound(w, codec, steps[..|steps| - 1]);
      StepSound(Run(w, codec, steps[..|steps| - 1]), codec, steps[|steps| - 1]);
    }
  }

  /** In every committed state a family has at most one unrevoked token, and every reuse alert in
      the outbox names a grant that has ended: the alert and the revocation committed together. */
  lemma OneLiveTokenPerFamily(w: World, codec: Codec, steps: seq<Step>)
    requires Fresh(w)
    ensures OneLivePerFamily(Run(w, codec, steps).db.tokens)
    ensures AlertsTrue(Run(w, codec, steps))
  {
    hide Run, Next;
    RunSound(w, codec, steps);
  }

  /** A grant that has ended never gains a live token again. */
  lemma {:induction false} EndedStaysEnded(w: World, codec: Codec, steps: seq<Step>, family: FamilyId)
    requires Sound(w) && Ended(w, family)
    ensures Ended(Run(w, codec, steps), family)
  {
    hide Next, OneLivePerFamily, AlertsTrue, FamiliesMinted, Ended;
    if steps != [] {
      var front := steps[..|steps| - 1];
      EndedStaysEnded(w, codec, front, family);
      RunSound(w, codec, front);
      StepEnded(Run(w, codec, front), codec, steps[|steps| - 1], family);
    }
  }

  /** What ends a grant: a logout with any of its tokens, and a refresh with a revoked one. */
  lemma LogoutAndReuseEnd(w: World, codec: Codec, token: string, now: int, at: int, successor: string, expires: int)
    requires Sound(w) && token in w.db.tokens && successor !in w.texts
    ensures Ended(Next(w, codec, Logout(token, at)), w.db.tokens[token].family)
    ensures Replayed(w.db, codec, token) ==>
              Ended(Next(w, codec, Refresh(token, now, at, successor, expires)), w.db.tokens[token].family)
  {
    hide FamilyRevoked, LiveIn;
    RevokedEnds(w, w.db.tokens[token].family, LoggedOut, at);
    RevokedEnds(w, w.db.tokens[token].family, Reused, at);
  }

  /** A refresh commits a change in exactly two cases: it succeeds, or it is a replay. Only a replay
      adds a reuse event, only together with the revocation of the family, and the event counts the
      sessions that ended; a success adds none and moves the one live link to the new token. */
  lemma RefreshCommits(db: Database, codec: Codec, token: string, now: int, at: int, successor: string, expires: int)
    requires successor !in db.tokens && OneLivePerFamily(db.tokens)
    ensures var (db', r) := Refreshed(db, codec, token, now, at, successor, expires);
            && (r.Err? && !Replayed(db, codec, token) ==> db' == db)
            && (Replayed(db, codec, token) <==> db'.outbox != db.outbox)
            && (Replayed(db, codec, token) ==>
                  var family := db.tokens[token].family;
                  && r == Err(UnknownOrRevoked)
                  && LiveIn(db'.tokens, family) == {}
                  && db'.outbox == db.outbox + [ReuseDetected(db.tokens[token].user, family, |LiveIn(db.tokens, family)|)])
            && (r.Ok? ==>
                  && LiveIn(db.tokens, db.tokens[token].family) == {token}
                  && LiveIn(db'.tokens, db.tokens[token].family) == {successor})
  {
    var (db', r) := Refreshed(db, codec, token, now, at, successor, expires);
    if r.Ok? {
      var family := db.tokens[token].family;
      assert LiveToken(db.tokens, token);
      forall t | t in LiveIn(db.tokens, family) ensures t == token {
        assert LiveToken(db.tokens, t);
      }
      assert forall t :: t in LiveIn(db'.tokens, family) && t != successor ==> t in LiveIn(db.tokens, family);
      assert successor in LiveIn(db'.tokens, family);
    }
  }

  /** The token is spent: while its row is there it carries this revocation. */
  predicate Spent(w: World, token: string, revocation: Revocation) {
    token in w.texts && (token in w.db.tokens ==> w.db.tokens[token].revoked == Some(revocation))
  }

  lemma StepSpent(w: World, codec: Codec, step: Step, token: string, revocation: Revocation)
    requires Spent(w, token, revocation)
    ensures Spent(Next(w, codec, step), token, revocation)
  {
  }

  lemma {:induction false} SpentStaysSpent(w: World, codec: Codec, steps: seq<Step>, token: string, revocation: Revocation)
    requires Spent(w, token, revocation)
    ensures Spent(Run(w, codec, steps), token, revocation)
  {
    hide Spent, Next;
    if steps != [] {
      SpentStaysSpent(w, codec, steps[..|steps| - 1], token, revocation);
      StepSpent(Run(w, codec, steps[..|steps| - 1]), codec, steps[|steps| - 1], token, revocation);
    }
  }

  /** A revocation is never undone or rewritten, in any run: not by a later revocation of the
      family, and not by deleting the row, since its text is never minted again. */
  lemma RevocationIsKept(w: World, codec: Codec, steps: seq<Step>, token: string)
    requires Sound(w) && token in w.db.tokens && w.db.tokens[token].revoked.Some?
    ensures var tokens := Run(w, codec, steps).db.tokens;
            token in tokens ==> tokens[token].revoked == w.db.tokens[token].revoked
  {
    hide Run, OneLivePerFamily, AlertsTrue;
    SpentStaysSpent(w, codec, steps, token, w.db.tokens[token].revoked.value);
  }

  // Which calls succeed.

  /** A login succeeds exactly for a known address with a password, the right one, on an active account;
      it begins the new family with a live token of that user, and everything else stays. */
  lemma LoginSucceedsIff(db: Database, codec: Codec, email: string, password: string, successor: string, family: FamilyId, expires: int)
    requires successor !in db.tokens
    ensures var (db', r) := LoggedIn(db, codec, email, password, successor, family, expires);
            && (r.Ok? <==>
                  && email in db.emails && db.emails[email] in db.users
                  && var user := db.users[db.emails[email]];
                     user.hash.Some? && codec.verify(password, user.hash.value) && user.active)
            && (r.Ok? ==>
                  && r.value == successor && successor in db'.tokens
                  && db'.tokens[successor] == Row(db.emails[email], expires, family, None)
                  && db'.tokens - {successor} == db.tokens && db'.outbox == db.outbox + [UserLoggedIn(db.emails[email])])
            && (r.Err? ==> db' == db)
            && (r == Err(InactiveAccount) <==>
                  && email in db.emails && db.emails[email] in db.users
                  && var user := db.users[db.emails[email]];
                     user.hash.Some? && codec.verify(password, user.hash.value) && !user.active)
  {
  }

  /** A refresh succeeds exactly for a live refresh token that has not expired, of an active user. Its
      successor is a live token of the same user and family, and the presented one is marked rotated. */
  lemma RefreshSucceedsIff(db: Database, codec: Codec, token: string, now: int, at: int, successor: string, expires: int)
    requires successor !in db.tokens
    ensures var (db', r) := Refreshed(db, codec, token, now, at, successor, expires);
            && (r.Ok? <==>
                  && codec.typeOf(token) == Some("refresh")
                  && LiveToken(db.tokens, token) && now <= db.tokens[token].expiresAt
                  && db.tokens[token].user in db.users && db.users[db.tokens[token].user].active)
            && (r.Ok? ==>
                  && r.value == successor && successor in db'.tokens && token in db'.tokens
                  && db'.tokens[successor] == Row(db.tokens[token].user, expires, db.tokens[token].family, None)
                  && db'.tokens[token] == db.tokens[token].(revoked := Some(Revocation(Rotated, at)))
                  && db'.tokens - {successor, token} == db.tokens - {token} && db'.outbox == db.outbox)
            && (r == Err(ExpiredToken) <==>
                  codec.typeOf(token) == Some("refresh") && LiveToken(db.tokens, token) && db.tokens[token].expiresAt < now)
  {
  }

  /** A revoked family keeps who was revoked before and why; the others get this reason and time. */
  lemma FamilyRevokedMarks(tokens: Tokens, family: FamilyId, reason: Reason, at: int, t: string)
    requires t in tokens
    ensures var after := FamilyRevoked(tokens, family, reason, at);
            && after.Keys == tokens.Keys
            && after[t].(revoked := None) == tokens[t].(revoked := None)
            && after[t].revoked ==
               if tokens[t].family == family && tokens[t].revoked.None? then Some(Revocation(reason, at)) else tokens[t].revoked
  {
  }

  /** What ends a grant is written on the tokens it ended, and on no others: logout on those that were
      live at logout, reuse on those that were live when the reuse was seen. */
  lemma EndingIsRecorded(db: Database, codec: Codec, token: string, now: int, at: int, successor: string, expires: int, t: string)
    requires token in db.tokens && t in db.tokens
    ensures var ended := db.tokens[t].family == db.tokens[token].family && db.tokens[t].revoked.None?;
            var off := LoggedOff(db, token, at);
            && off.(tokens := db.tokens) == db && off.tokens.Keys == db.tokens.Keys
            && off.tokens[t] == (if ended then db.tokens[t].(revoked := Some(Revocation(LoggedOut, at))) else db.tokens[t])
            && (Replayed(db, codec, token) ==>
                  var reused := Refreshed(db, codec, token, now, at, successor, expires).0;
                  && reused.(tokens := db.tokens, outbox := db.outbox) == db && reused.tokens.Keys == db.tokens.Keys
                  && reused.tokens[t] == if ended then db.tokens[t].(revoked := Some(Revocation(Reused, at))) else db.tokens[t])
  {
  }
}
