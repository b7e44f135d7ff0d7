/** The authentication workflows, statement by statement, and their agreement with the interleaved programs. */
module AuthWorkflows {
  import opened Common
  import opened Audit
  import opened TokenTable
  import opened RefreshTokens
  import opened AuthProtocol
  import opened AuthInvariants
  import opened Grounds

  /** The verdict on a token read live. */
  function VerdictOnLive(users: map<Uuid, bool>, now: Time, row: Row, newId: Uuid): Verdict {
    if row.expiresAt <= now then Refused(ExpiredToken)
    else if !Active(users, row.user) then Refused(InactiveOwner)
    else Issued(newId)
  }

  /** How a refresh that nobody interferes with must end. */
  ghost function VerdictAlone(t: Table, users: map<Uuid, bool>, now: Time, token: Uuid, newId: Uuid): Verdict {
    if token !in t then Refused(UnknownToken)
    else if t[token].revokedAt.None? then VerdictOnLive(users, now, t[token], newId)
    else if t[token].replacedBy.None? then Refused(RevokedToken)
    else ReuseDetected(Victim(t, token))
  }

  /** How a login ends: the checks leave no choice. */
  function LoginAlone(users: map<Uuid, bool>, user: Uuid, verified: bool, newId: Uuid): LoginOutcome {
    var failure := CheckLogin(users, user, verified);
    if failure.None? then LoggedIn(newId) else NotLoggedIn(failure.value)
  }

  /** A login leaves a new root, or no trace in the table. */
  function AfterLogin(t: Table, user: Uuid, now: Time, outcome: LoginOutcome): Table {
    if outcome.LoggedIn? then Inserted(t, outcome.root, user, now + REFRESH_TTL) else t
  }

  /** The one write that a verdict stands for. */
  function WriteFor(token: Uuid, now: Time, v: Verdict): Write {
    match v
    case Issued(child) => Rotate(token, child, now + REFRESH_TTL, now)
    case ReuseDetected(killed) => if killed.Some? then RevokeLive(killed.value, now) else NoWrite
    case Refused(_) => NoWrite
  }

  /** The table right after a refresh was granted. */
  ghost predicate Granted(t: Table, token: Uuid, now: Time, child: Uuid) {
    && token in t && child in t
    && t[child] == Row(t[token].user, now + REFRESH_TTL, None, None)
    && t[token].replacedBy == Some(child) && t[token].revokedAt == Some(now)
  }

  /** A rotation attempted on a table that has evolved since the presented row was read live. */
  lemma RotationOutcome(seen: Table, t: Table, token: Uuid, now: Time, newId: Uuid, outcome: Verdict)
    requires Live(seen, token) && now < seen[token].expiresAt <= now + REFRESH_TTL
    requires Evolves(seen, t) && Sound(t) && newId !in t
    requires outcome == if Live(t, token) then Issued(newId) else Refused(RotationLost)
    ensures var t' := Apply(t, WriteFor(token, now, outcome));
      && t' == Rotated(t, token, newId, now + REFRESH_TTL, now)
      && Sound(t') && Evolves(seen, t') && Truthful(t', now, token, now, Some(seen[token]), outcome)
      && (outcome.Issued? ==> Granted(t', token, now, newId))
  {
    RotateEvolves(t, token, newId, now + REFRESH_TTL, now);
    EvolvesTransitive(seen, t, Rotated(t, token, newId, now + REFRESH_TTL, now));
  }

  /** Alone, a refresh decides by the row it reads, and it is granted whenever the checks allow it. */
  lemma AloneDecides(t: Table, users: map<Uuid, bool>, now: Time, token: Uuid, newId: Uuid)
    ensures var v := VerdictAlone(t, users, now, token, newId);
      && RefreshDecided(users, RowOf(t, token), now, v)
      && v != Refused(RotationLost)
      && (v.Issued? ==> v.child == newId)
      && (v.ReuseDetected? ==> v.killed == Victim(t, token))
  {
  }

  lemma OneEventTrail(token: Uuid, now: Time, read: Option<Row>, v: Verdict)
    requires !KilledFamily(v)
    ensures Stamped(now, Trail(RefreshDone(token, now, read, v))) == [StoredEvent(now, VerdictEvent(token, read, v))]
  {
  }

  class AuthService {
    const tokens: RefreshTokenRepository
    const audit: AuditLogRepository
    var users: map<Uuid, bool>

    constructor (tokens: RefreshTokenRepository, audit: AuditLogRepository, users: map<Uuid, bool>)
      ensures this.tokens == tokens && this.audit == audit && this.users == users
    {
      this.tokens, this.audit, this.users := tokens, audit, users;
    }

    /** A failed check is recorded and ends the login; otherwise record it, then insert the root of a new family. */
    method Login(user: Uuid, verified: bool, now: Time, newId: Uuid) returns (outcome: LoginOutcome)
      requires newId !in tokens.rows
      modifies tokens, audit
      ensures outcome.LoggedIn? <==> Active(users, user) && verified
      ensures LoginDecided(users, user, verified, FailureOf(LoginDone(user, outcome)))
      ensures outcome == LoginAlone(users, user, verified, newId)
      ensures outcome.LoggedIn? ==>
                && outcome.root == newId && newId in tokens.rows && tokens.rows[newId] == Row(user, now + REFRESH_TTL, None, None)
                && tokens.rows.Keys == old(tokens.rows).Keys + {newId}
                && forall x | x in old(tokens.rows) :: tokens.rows[x] == old(tokens.rows)[x]
      ensures !outcome.LoggedIn? ==> tokens.rows == old(tokens.rows)
      ensures audit.rows == old(audit.rows) + Stamped(now, LoginEvents(user, outcome))
      ensures tokens.rows == AfterLogin(old(tokens.rows), user, now, outcome)
      ensures audit.rows == old(audit.rows) + Stamped(now, Trail(LoginDone(user, outcome)))
    {
      if user !in users {
        outcome := NotLoggedIn(UnknownEmail);
        audit.Record(now, LoginFailedEvent(user, UnknownEmail));
        return;
      }
      if !users[user] {
        outcome := NotLoggedIn(InactiveAccount);
        audit.Record(now, LoginFailedEvent(user, InactiveAccount));
        return;
      }
      if !verified {
        outcome := NotLoggedIn(WrongPassword);
        audit.Record(now, LoginFailedEvent(user, WrongPassword));
        return;
      }
      LoginTrail(user, LoggedIn(newId));
      audit.Record(now, UserEvent(UserLoginSucceeded, user));
      tokens.Create(newId, user, now + REFRESH_TTL);
      outcome := LoggedIn(newId);
    }

    /**
      `between` is what others commit between the lookup and the rotation, `around` what they commit
      during a family walk. The verdict recorded is truthful about the resulting table whatever
      they commit; without them it is the one that the row read dictates. Every reachable table is
      sound and bounded (`AuthInvariants.Reachable`).
     */
    method Refresh(token: Uuid, now: Time, newId: Uuid, between: seq<Write>, around: nat -> Interference)
      returns (response: Response, ghost verdict: Verdict)
      requires Sound(tokens.rows) && Bounded(tokens.rows, now)
      requires newId !in Committed(tokens.rows, between)
      modifies tokens, audit
      ensures Sound(tokens.rows) && Evolves(old(tokens.rows), tokens.rows)
      ensures response == Answer(verdict)
      ensures audit.rows == old(audit.rows)
                + Stamped(now, Trail(RefreshDone(token, now, old(RowOf(tokens.rows, token)), verdict)))
      ensures Truthful(tokens.rows, now, token, now, old(RowOf(tokens.rows, token)), verdict)
      ensures RefreshDecided(users, old(RowOf(tokens.rows, token)), now, verdict)
      ensures response.NewTokens? ==>
                verdict.Issued? && response.refreshToken == newId && Granted(tokens.rows, token, now, newId)
      ensures between == [] && (forall n :: around(n).Quiet()) ==>
                && verdict == old(VerdictAlone(tokens.rows, users, now, token, newId))
                && tokens.rows == Apply(old(tokens.rows), WriteFor(token, now, verdict))
    {
      response := InvalidRefreshToken;
      var read := tokens.GetById(token);
      if read.None? {
        verdict := Refused(UnknownToken);
        audit.Record(now, VerdictEvent(token, read, Refused(UnknownToken)));
        return;
      }
      var row := read.value;
      if row.revokedAt.Some? {
        verdict := HandleRevokedToken(token, row, now, around);
        return;
      }
      if row.expiresAt <= now {
        verdict := Refused(ExpiredToken);
        audit.Record(now, VerdictEvent(token, read, Refused(ExpiredToken)));
        return;
      }
      if row.user !in users || !users[row.user] {
        verdict := Refused(InactiveOwner);
        audit.Record(now, VerdictEvent(token, read, Refused(InactiveOwner)));
        return;
      }
      response, verdict := Rotate(token, row, now, newId, between);
    }

    /** The end of a refresh that passed every check: win the rotation, or lose it to somebody else. */
    method Rotate(token: Uuid, row: Row, now: Time, newId: Uuid, between: seq<Write>)
      returns (response: Response, ghost verdict: Verdict)
      requires Sound(tokens.rows) && Bounded(tokens.rows, now)
      requires Live(tokens.rows, token) && tokens.rows[token] == row && now < row.expiresAt
      requires newId !in Committed(tokens.rows, between)
      modifies tokens, audit
      ensures Sound(tokens.rows) && Evolves(old(tokens.rows), tokens.rows)
      ensures verdict == if Live(Committed(old(tokens.rows), between), token) then Issued(newId) else Refused(RotationLost)
      ensures response == Answer(verdict)
      ensures response.NewTokens? ==> verdict.Issued? && response.refreshToken == newId && Granted(tokens.rows, token, now, newId)
      ensures tokens.rows == Apply(Committed(old(tokens.rows), between), WriteFor(token, now, verdict))
      ensures audit.rows == old(audit.rows) + Stamped(now, Trail(RefreshDone(token, now, Some(row), verdict)))
      ensures Truthful(tokens.rows, now, token, now, Some(row), verdict)
    {
      var outcome := AttemptRotation(token, row, now, newId, between);
      OneEventTrail(token, now, Some(row), outcome);
      audit.Record(now, VerdictEvent(token, Some(row), outcome));
      verdict := outcome;
      response := if outcome.Issued? then NewTokens(outcome.child) else InvalidRefreshToken;
    }

    /** The transaction of a rotation, after whatever others have committed since the lookup. */
    method AttemptRotation(token: Uuid, row: Row, now: Time, newId: Uuid, between: seq<Write>) returns (outcome: Verdict)
      requires Sound(tokens.rows) && Bounded(tokens.rows, now)
      requires Live(tokens.rows, token) && tokens.rows[token] == row && now < row.expiresAt
      requires newId !in Committed(tokens.rows, between)
      modifies tokens
      ensures Sound(tokens.rows) && Evolves(old(tokens.rows), tokens.rows)
      ensures outcome == if Live(Committed(old(tokens.rows), between), token) then Issued(newId) else Refused(RotationLost)
      ensures tokens.rows == Apply(Committed(old(tokens.rows), between), WriteFor(token, now, outcome))
      ensures outcome.Issued? ==> Granted(tokens.rows, token, now, newId)
      ensures Truthful(tokens.rows, now, token, now, Some(row), outcome)
    {
      tokens.Interleave(between);
      ghost var t := tokens.rows;
      ghost var expected := if Live(t, token) then Issued(newId) else Refused(RotationLost);
      RotationOutcome(old(tokens.rows), t, token, now, newId, expected);
      var created := tokens.CreateRotationPair(token, newId, now + REFRESH_TTL, now);
      assert tokens.rows == Apply(t, WriteFor(token, now, expected));
      outcome := if created.None? then Refused(RotationLost) else Issued(created.value);
    }

    method HandleRevokedToken(token: Uuid, row: Row, now: Time, around: nat -> Interference)
      returns (ghost verdict: Verdict)
      requires Sound(tokens.rows) && token in tokens.rows && tokens.rows[token] == row && row.revokedAt.Some?
      modifies tokens, audit
      ensures Sound(tokens.rows) && Evolves(old(tokens.rows), tokens.rows)
      ensures Answer(verdict) == InvalidRefreshToken
      ensures audit.rows == old(audit.rows) + Stamped(now, Trail(RefreshDone(token, now, Some(row), verdict)))
      ensures Truthful(tokens.rows, now, token, now, Some(row), verdict)
      ensures row.replacedBy.None? ==> verdict == Refused(RevokedToken) && tokens.rows == old(tokens.rows)
      ensures row.replacedBy.Some? && (forall n :: around(n).Quiet()) ==>
                && verdict == ReuseDetected(Victim(old(tokens.rows), token))
                && tokens.rows == Apply(old(tokens.rows), WriteFor(token, now, verdict))
    {
      if row.replacedBy.None? {
        verdict := Refused(RevokedToken);
        audit.Record(now, VerdictEvent(token, Some(row), Refused(RevokedToken)));
        return;
      }
      var killed := tokens.RevokeDescendants(token, now, around);
      verdict := ReuseDetected(killed);
      audit.Record(now, VerdictEvent(token, Some(row), ReuseDetected(killed)));
      if killed.Some? {
        audit.Record(now, FamilyEvent(token, Some(row), killed));
      }
    }

    /** `between` is what others commit between the lookup and the unguarded write. */
    method Logout(token: Uuid, now: Time, between: seq<Write>)
      requires Sound(tokens.rows)
      modifies tokens, audit
      ensures Sound(tokens.rows) && Evolves(old(tokens.rows), tokens.rows)
      ensures old(Live(tokens.rows, token)) ==>
                && tokens.rows == Overwritten(Committed(old(tokens.rows), between), token, now)
                && tokens.rows[token].revokedAt == Some(now)
                && var owner := tokens.rows[token].user;
                   audit.rows == old(audit.rows) + [StoredEvent(now, Event(UserLogout, Some(owner), Some(owner), None, NoMetadata))]
      ensures !old(Live(tokens.rows, token)) ==> tokens.rows == old(tokens.rows) && audit.rows == old(audit.rows)
    {
      var read := tokens.GetById(token);
      if read.None? || read.value.revokedAt.Some? {
        return;
      }
      tokens.Interleave(between);
      OverwriteEvolves(tokens.rows, token, now);
      EvolvesTransitive(old(tokens.rows), tokens.rows, Overwritten(tokens.rows, token, now));
      tokens.Revoke(token, now);
      audit.Record(now, UserEvent(UserLogout, read.value.user));
    }
  }

  // ---------------------------------------------------------------- agreement with the interleaved programs

  /** One request taking `n` turns in a row. */
  function Turns(r: nat, newId: Uuid, n: nat): seq<Label> {
    if n == 0 then [] else Turns(r, newId, n - 1) + [Go(r, newId)]
  }

  /** The state after these turns. */
  function After(s: State, r: nat, newId: Uuid, n: nat): State {
    if n == 0 then s else Step(After(s, r, newId, n - 1), Go(r, newId))
  }

  lemma {:induction false} AfterIsExec(s: State, r: nat, newId: Uuid, n: nat)
    ensures Exec(s, Turns(r, newId, n)) == After(s, r, newId, n)
  {
    if n > 0 {
      AfterIsExec(s, r, newId, n - 1);
      assert Turns(r, newId, n)[..|Turns(r, newId, n)| - 1] == Turns(r, newId, n - 1);
    }
  }

  /** The state in which nothing but the table, the log and the place of request `r` differ from `s`. */
  function Moved(s: State, r: nat, rows: Table, pc: Pc, log: seq<Entry>): State {
    State(rows, s.users, s.now, s.requests[r := pc], log)
  }

  /** `n` turns of request `r` lead from `s` to this place. */
  ghost predicate Leads(s: State, r: nat, newId: Uuid, n: nat, rows: Table, pc: Pc, log: seq<Entry>) {
    After(s, r, newId, n) == Moved(s, r, rows, pc, log)
  }

  lemma NoTurns(s: State, r: nat, newId: Uuid)
    requires r in s.requests
    ensures Leads(s, r, newId, 0, s.rows, s.requests[r], s.log)
  {
    assert s.requests[r := s.requests[r]] == s.requests;
  }

  /** One more turn after `n` of them. */
  lemma Next(s: State, r: nat, newId: Uuid, n: nat, rows: Table, pc: Pc, log: seq<Entry>)
    requires r in s.requests && Leads(s, r, newId, n, rows, pc, log)
    ensures var e := Advance(rows, s.users, s.now, pc, newId);
      Leads(s, r, newId, n + 1, Apply(rows, e.write), e.pc, log + Tagged(r, e.events))
  {
    assert s.requests[r := pc][r := Advance(rows, s.users, s.now, pc, newId).pc]
        == s.requests[r := Advance(rows, s.users, s.now, pc, newId).pc];
  }

  /** One more turn that records nothing. */
  lemma Quietly(s: State, r: nat, newId: Uuid, n: nat, rows: Table, pc: Pc, log: seq<Entry>)
    requires r in s.requests && Leads(s, r, newId, n, rows, pc, log)
    requires Advance(rows, s.users, s.now, pc, newId).events == []
    ensures var e := Advance(rows, s.users, s.now, pc, newId);
      Leads(s, r, newId, n + 1, Apply(rows, e.write), e.pc, log)
  {
    Next(s, r, newId, n, rows, pc, log);
    assert log + Tagged(r, []) == log;
  }

  /** The last iteration of a walk that meets a leaf. */
  lemma LeafAlone(s: State, r: nat, newId: Uuid, m: nat, t: Table, token: Uuid, began: Time, row: Row, spent: nat, next: Uuid)
    returns (n: nat)
    requires r in s.requests && next in t && t[next].replacedBy.None?
    requires Leads(s, r, newId, m, t, WalkRead(token, began, row, spent, next), s.log)
    ensures var v := ReuseDetected(if Live(t, next) then Some(next) else None);
      Leads(s, r, newId, n, Apply(t, WriteFor(token, s.now, v)), RefreshAudit(token, began, Some(row), v), s.log)
  {
    Quietly(s, r, newId, m, t, WalkRead(token, began, row, spent, next), s.log);
    Quietly(s, r, newId, m + 1, t, WalkTry(token, began, row, spent, next), s.log);
    n := m + 2;
    if !Live(t, next) {
      Quietly(s, r, newId, n, t, WalkReRead(token, began, row, spent, next), s.log);
      n := n + 1;
    }
  }

  /** What a walk in an undisturbed table meets next. */
  lemma WalkAhead(t: Table, now: Time, token: Uuid, row: Row, spent: nat, next: Uuid)
    requires Sound(t) && Walking(t, token, row, spent, next) && NoLeafWithin(t, token, spent)
    ensures next in t
    ensures t[next].replacedBy.None? ==> Victim(t, token) == if Live(t, next) then Some(next) else None
    ensures t[next].replacedBy.Some? ==>
              && Successor(t, token, spent + 2) == t[next].replacedBy
              && NoLeafWithin(t, token, spent + 1)
              && (spent + 1 == MAX_FAMILY_WALK_STEPS ==> Victim(t, token).None?)
  {
    SuccessorExists(t, token, spent + 1);
    if t[next].replacedBy.None? {
      assert LeafAt(t, token, spent + 1, next);
      VictimOfLeaf(t, token, spent + 1, next);
    } else {
      SoloVisit(t, token, spent, next, now, Follow(t[next].replacedBy.value), t);
      if spent + 1 == MAX_FAMILY_WALK_STEPS { NoVictim(t, token, spent + 1); }
    }
  }

  /** A walk that takes all its turns at once ends with the victim of the table it started in. */
  lemma {:induction false} WalkAlone(s: State, r: nat, newId: Uuid, m: nat, t: Table, token: Uuid, began: Time, row: Row, spent: nat, next: Uuid)
    returns (n: nat)
    requires r in s.requests && Sound(t) && Walking(t, token, row, spent, next) && NoLeafWithin(t, token, spent)
    requires Leads(s, r, newId, m, t, WalkRead(token, began, row, spent, next), s.log)
    ensures var v := ReuseDetected(Victim(t, token));
      Leads(s, r, newId, n, Apply(t, WriteFor(token, s.now, v)), RefreshAudit(token, began, Some(row), v), s.log)
    decreases MAX_FAMILY_WALK_STEPS - spent
  {
    WalkAhead(t, s.now, token, row, spent, next);
    if t[next].replacedBy.None? {
      n := LeafAlone(s, r, newId, m, t, token, began, row, spent, next);
    } else {
      Quietly(s, r, newId, m, t, WalkRead(token, began, row, spent, next), s.log);
      n := m + 1;
      if spent + 1 < MAX_FAMILY_WALK_STEPS {
        n := WalkAlone(s, r, newId, m + 1, t, token, began, row, spent + 1, t[next].replacedBy.value);
      }
    }
  }

  /** A refresh of a live token, from the expiry check to the verdict. */
  lemma RotateAlone(s: State, r: nat, newId: Uuid, m: nat, token: Uuid, row: Row) returns (n: nat)
    requires newId !in s.rows && r in s.requests && Live(s.rows, token)
    requires Leads(s, r, newId, m, s.rows, RefreshExpiry(token, s.now, row), s.log)
    ensures var v := VerdictOnLive(s.users, s.now, row, newId);
      Leads(s, r, newId, n, Apply(s.rows, WriteFor(token, s.now, v)), RefreshAudit(token, s.now, Some(row), v), s.log)
  {
    Quietly(s, r, newId, m, s.rows, RefreshExpiry(token, s.now, row), s.log);
    n := m + 1;
    if row.expiresAt > s.now {
      Quietly(s, r, newId, n, s.rows, RefreshOwner(token, s.now, row), s.log);
      n := n + 1;
      if Active(s.users, row.user) {
        Quietly(s, r, newId, n, s.rows, RefreshRotate(token, s.now, row, s.now + REFRESH_TTL), s.log);
        n := n + 1;
      }
    }
  }

  /** A refresh up to its verdict, without interference. */
  lemma DecideAlone(s: State, r: nat, token: Uuid, newId: Uuid) returns (n: nat)
    requires Sound(s.rows) && newId !in s.rows
    requires r in s.requests && s.requests[r] == RefreshStart(token, s.now)
    ensures var v := VerdictAlone(s.rows, s.users, s.now, token, newId);
      Leads(s, r, newId, n, Apply(s.rows, WriteFor(token, s.now, v)), RefreshAudit(token, s.now, RowOf(s.rows, token), v), s.log)
  {
    NoTurns(s, r, newId);
    Quietly(s, r, newId, 0, s.rows, RefreshStart(token, s.now), s.log);
    n := 1;
    if token in s.rows {
      var row := s.rows[token];
      if row.revokedAt.None? {
        n := RotateAlone(s, r, newId, 1, token, row);
      } else if row.replacedBy.Some? {
        ReadPresentedKnows(s.rows, s.now, token, s.now);
        n := WalkAlone(s, r, newId, 1, s.rows, token, s.now, row, 0, row.replacedBy.value);
      }
    }
  }

  lemma AuditVerdictAlone(s: State, r: nat, newId: Uuid, m: nat, rows: Table, token: Uuid, read: Option<Row>, v: Verdict)
    requires r in s.requests
    requires Leads(s, r, newId, m, rows, RefreshAudit(token, s.now, read, v), s.log)
    ensures Leads(s, r, newId, m + 1, rows,
                  if KilledFamily(v) then FamilyAudit(token, s.now, read, v) else RefreshDone(token, s.now, read, v),
                  s.log + Tagged(r, [VerdictEvent(token, read, v)]))
  {
    Next(s, r, newId, m, rows, RefreshAudit(token, s.now, read, v), s.log);
  }

  lemma DoneTrail(token: Uuid, began: Time, read: Option<Row>, v: Verdict)
    ensures Trail(RefreshDone(token, began, read, v))
         == if KilledFamily(v) then [VerdictEvent(token, read, v), FamilyEvent(token, read, v.killed)]
            else [VerdictEvent(token, read, v)]
  {
  }

  /** From its verdict on, a refresh only records its events. */
  lemma AuditAlone(s: State, r: nat, newId: Uuid, m: nat, rows: Table, token: Uuid, read: Option<Row>, v: Verdict)
    returns (n: nat)
    requires r in s.requests
    requires Leads(s, r, newId, m, rows, RefreshAudit(token, s.now, read, v), s.log)
    ensures Leads(s, r, newId, n, rows, RefreshDone(token, s.now, read, v),
                  s.log + Tagged(r, Trail(RefreshDone(token, s.now, read, v))))
  {
    AuditVerdictAlone(s, r, newId, m, rows, token, read, v);
    n := m + 1;
    if KilledFamily(v) {
      AuditFamilyAlone(s, r, newId, m + 1, rows, token, read, v);
      n := m + 2;
    }
    DoneTrail(token, s.now, read, v);
  }

  lemma AuditFamilyAlone(s: State, r: nat, newId: Uuid, m: nat, rows: Table, token: Uuid, read: Option<Row>, v: Verdict)
    requires r in s.requests && KilledFamily(v)
    requires Leads(s, r, newId, m, rows, FamilyAudit(token, s.now, read, v), s.log + Tagged(r, [VerdictEvent(token, read, v)]))
    ensures Leads(s, r, newId, m + 1, rows, RefreshDone(token, s.now, read, v),
                  s.log + Tagged(r, [VerdictEvent(token, read, v), FamilyEvent(token, read, v.killed)]))
  {
    var first, second := VerdictEvent(token, read, v), FamilyEvent(token, read, v.killed);
    Next(s, r, newId, m, rows, FamilyAudit(token, s.now, read, v), s.log + Tagged(r, [first]));
    assert s.log + Tagged(r, [first]) + Tagged(r, [second]) == s.log + Tagged(r, [first, second]);
  }

  /**
    Run without interference, the refresh program reaches the same table, the same events and the
    same verdict as the workflow `AuthService.Refresh`.
   */
  lemma RefreshAgrees(s: State, r: nat, token: Uuid, newId: Uuid) returns (n: nat)
    requires Sound(s.rows) && newId !in s.rows
    requires r in s.requests && s.requests[r] == RefreshStart(token, s.now)
    ensures var v := VerdictAlone(s.rows, s.users, s.now, token, newId);
      var done := RefreshDone(token, s.now, RowOf(s.rows, token), v);
      Exec(s, Turns(r, newId, n))
      == Moved(s, r, Apply(s.rows, WriteFor(token, s.now, v)), done, s.log + Tagged(r, Trail(done)))
  {
    var v := VerdictAlone(s.rows, s.users, s.now, token, newId);
    var rows, read := Apply(s.rows, WriteFor(token, s.now, v)), RowOf(s.rows, token);
    var m := DecideAlone(s, r, token, newId);
    n := AuditAlone(s, r, newId, m, rows, token, read, v);
    AfterIsExec(s, r, newId, n);
  }

  /** A login that failed a check only records that. */
  lemma RefusedAlone(s: State, r: nat, user: Uuid, newId: Uuid, failure: LoginFailure)
    requires r in s.requests && Leads(s, r, newId, 1, s.rows, LoginRefused(user, failure), s.log)
    ensures Leads(s, r, newId, 2, s.rows, LoginDone(user, NotLoggedIn(failure)), s.log + Tagged(r, [LoginFailedEvent(user, failure)]))
  {
    Next(s, r, newId, 1, s.rows, LoginRefused(user, failure), s.log);
  }

  /** A login that passed every check, from its event to its row. */
  lemma AdmittedAlone(s: State, r: nat, user: Uuid, newId: Uuid)
    requires newId !in s.rows && r in s.requests && Leads(s, r, newId, 1, s.rows, LoginAudit(user), s.log)
    ensures Leads(s, r, newId, 4, Inserted(s.rows, newId, user, s.now + REFRESH_TTL), LoginDone(user, LoggedIn(newId)),
                  s.log + Tagged(r, [UserEvent(UserLoginSucceeded, user)]))
  {
    var log := s.log + Tagged(r, [UserEvent(UserLoginSucceeded, user)]);
    Next(s, r, newId, 1, s.rows, LoginAudit(user), s.log);
    Quietly(s, r, newId, 2, s.rows, LoginPrepare(user), log);
    Quietly(s, r, newId, 3, s.rows, LoginCreate(user, s.now + REFRESH_TTL), log);
  }

  /** A login with its outcome and its event, without interference. */
  lemma DecideLoginAlone(s: State, r: nat, user: Uuid, verified: bool, newId: Uuid) returns (n: nat)
    requires newId !in s.rows && r in s.requests && s.requests[r] == LoginStart(user, verified)
    ensures var outcome := LoginAlone(s.users, user, verified, newId);
      Leads(s, r, newId, n, AfterLogin(s.rows, user, s.now, outcome), LoginDone(user, outcome),
            s.log + Tagged(r, Trail(LoginDone(user, outcome))))
  {
    NoTurns(s, r, newId);
    Quietly(s, r, newId, 0, s.rows, LoginStart(user, verified), s.log);
    var failure := CheckLogin(s.users, user, verified);
    if failure.None? {
      AdmittedAlone(s, r, user, newId);
      n := 4;
    } else {
      RefusedAlone(s, r, user, newId, failure.value);
      n := 2;
    }
  }

  /** Run without interference, the login program does what the workflow `AuthService.Login` does. */
  lemma LoginAgrees(s: State, r: nat, user: Uuid, verified: bool, newId: Uuid) returns (n: nat)
    requires newId !in s.rows && r in s.requests && s.requests[r] == LoginStart(user, verified)
    ensures var done := LoginDone(user, LoginAlone(s.users, user, verified, newId));
      Exec(s, Turns(r, newId, n))
      == Moved(s, r, AfterLogin(s.rows, user, s.now, done.outcome), done, s.log + Tagged(r, Trail(done)))
  {
    n := DecideLoginAlone(s, r, user, verified, newId);
    AfterIsExec(s, r, newId, n);
  }

  /** A logout of a live token, from the lookup to the event. */
  lemma WriteAlone(s: State, r: nat, token: Uuid, newId: Uuid, user: Uuid)
    requires r in s.requests && Live(s.rows, token) && user == s.rows[token].user
    requires Leads(s, r, newId, 1, s.rows, LogoutWrite(token, s.rows[token]), s.log)
    ensures Leads(s, r, newId, 3, Overwritten(s.rows, token, s.now), LogoutDone(token, Some(user), false),
                  s.log + Tagged(r, [UserEvent(UserLogout, user)]))
  {
    Quietly(s, r, newId, 1, s.rows, LogoutWrite(token, s.rows[token]), s.log);
    Next(s, r, newId, 2, Overwritten(s.rows, token, s.now), LogoutAudit(token, user, false), s.log);
  }

  /** Run without interference, the logout program does what the workflow `AuthService.Logout` does. */
  lemma LogoutAgrees(s: State, r: nat, token: Uuid, newId: Uuid) returns (n: nat)
    requires r in s.requests && s.requests[r] == LogoutStart(token)
    ensures !Live(s.rows, token) ==>
              Exec(s, Turns(r, newId, n)) == Moved(s, r, s.rows, LogoutDone(token, None, false), s.log)
    ensures Live(s.rows, token) ==>
              Exec(s, Turns(r, newId, n))
              == Moved(s, r, Overwritten(s.rows, token, s.now), LogoutDone(token, Some(s.rows[token].user), false),
                       s.log + Tagged(r, [UserEvent(UserLogout, s.rows[token].user)]))
  {
    NoTurns(s, r, newId);
    Quietly(s, r, newId, 0, s.rows, LogoutStart(token), s.log);
    n := 1;
    if Live(s.rows, token) {
      WriteAlone(s, r, token, newId, s.rows[token].user);
      n := 3;
    }
    AfterIsExec(s, r, newId, n);
  }

  // ---------------------------------------------------------------- agreement under interference

  /** No label of this run is a turn of request `r`. */
  predicate Others(run: seq<Label>, r: nat) {
    forall i | 0 <= i < |run| :: !(run[i].Go? && run[i].request == r)
  }

  lemma StepIsWrite(s: State, l: Label, r: nat) returns (w: Write)
    requires Inv(s) && r in s.requests && !(l.Go? && l.request == r)
    ensures Admissible(s.rows, w) && Step(s, l).rows == Apply(s.rows, w)
    ensures r in Step(s, l).requests && Step(s, l).requests[r] == s.requests[r]
  {
    w := NoWrite;
    if l.Go? && l.request in s.requests {
      w := Advance(s.rows, s.users, s.now, s.requests[l.request], l.newId).write;
      AdvanceAdmissible(s.rows, s.users, s.now, s.requests[l.request], l.newId);
    }
  }

  /**
    Whatever happens while a request waits is a list of writes: the parameter of the workflows stands
    for every interference the protocol allows.
   */
  lemma {:induction false} OthersAreWrites(s: State, others: seq<Label>, r: nat) returns (writes: seq<Write>)
    requires Inv(s) && r in s.requests && Others(others, r)
    ensures Exec(s, others).rows == Committed(s.rows, writes)
    ensures r in Exec(s, others).requests && Exec(s, others).requests[r] == s.requests[r]
  {
    writes := [];
    if others != [] {
      var front, l := others[..|others| - 1], others[|others| - 1];
      var before := OthersAreWrites(s, front, r);
      RunEvolves(s, front);
      var w := StepIsWrite(Exec(s, front), l, r);
      writes := before + [w];
      assert writes[..|writes| - 1] == before;
    }
  }

  /** The rotation step after any interference ends as `AuthService.Rotate` does after the same writes. */
  lemma RotateAgreesUnderInterference(s: State, others: seq<Label>, r: nat, newId: Uuid) returns (between: seq<Write>)
    requires Inv(s) && r in s.requests && s.requests[r].RefreshRotate? && Others(others, r)
    requires newId !in Exec(s, others).rows
    ensures var pc, mid, s' := s.requests[r], Exec(s, others), Exec(s, others + [Go(r, newId)]);
      var met := Committed(s.rows, between);
      && r in s'.requests
      && s'.rows == Rotated(met, pc.token, newId, pc.expiresAt, mid.now)
      && s'.requests[r] == RefreshAudit(pc.token, pc.began, Some(pc.snapshot),
                                        if Live(met, pc.token) then Issued(newId) else Refused(RotationLost))
  {
    between := OthersAreWrites(s, others, r);
    ExecThen(s, others, Go(r, newId));
  }

  /** The write of a logout after any interference is the one `AuthService.Logout` makes after the same writes. */
  lemma LogoutAgreesUnderInterference(s: State, others: seq<Label>, r: nat, newId: Uuid) returns (between: seq<Write>)
    requires Inv(s) && r in s.requests && s.requests[r].LogoutWrite? && Others(others, r)
    ensures var pc, mid, s' := s.requests[r], Exec(s, others), Exec(s, others + [Go(r, newId)]);
      var met := Committed(s.rows, between);
      && r in s'.requests
      && s'.rows == Overwritten(met, pc.token, mid.now)
      && s'.requests[r] == LogoutAudit(pc.token, pc.snapshot.user, !Live(met, pc.token))
  {
    between := OthersAreWrites(s, others, r);
    ExecThen(s, others, Go(r, newId));
  }
}
