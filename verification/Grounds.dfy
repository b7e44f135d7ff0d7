/**
  What an outcome rests on: the state in which each check was made, the lifetime of what was issued,
  the instant of each revocation, and the events as a reader of the log sees them.
 */
module Grounds {
  import opened Common
  import opened Audit
  import opened TokenTable
  import opened AuthProtocol
  import opened AuthInvariants
  import opened Deeds
  import opened AuthTheorems

  // ---------------------------------------------------------------- lifetimes

  /** A token issued by a refresh lives for a full lifetime from some instant while that refresh ran. */
  lemma IssuedLivesFullLifetime(s: State, run: seq<Label>, r: nat, child: Uuid)
    requires Init(s) && r in Exec(s, run).requests
    requires VerdictOf(Exec(s, run).requests[r]) == Some(Issued(child))
    ensures var s' := Exec(s, run);
      && child in s'.rows
      && s'.requests[r].began + REFRESH_TTL <= s'.rows[child].expiresAt <= s'.now + REFRESH_TTL
  {
    Reachable(s, run);
  }

  /** A login that began no earlier than `since` computes its expiry no earlier. */
  ghost predicate LoginSince(t: Table, pc: Pc, since: Time) {
    match pc
    case LoginCreate(_, expiresAt) => since + REFRESH_TTL <= expiresAt
    case LoginDone(_, LoggedIn(root)) => root in t && since + REFRESH_TTL <= t[root].expiresAt
    case _ => true
  }

  lemma AdvanceLoginSince(t: Table, users: map<Uuid, bool>, now: Time, pc: Pc, newId: Uuid, since: Time)
    requires since <= now && LoginSince(t, pc, since)
    ensures var e := Advance(t, users, now, pc, newId); LoginSince(Apply(t, e.write), e.pc, since)
  {
  }

  lemma StepLoginSince(s: State, l: Label, r: nat, since: Time)
    requires Inv(s) && since <= s.now && (r in s.requests ==> LoginSince(s.rows, s.requests[r], since))
    ensures r in Step(s, l).requests ==> LoginSince(Step(s, l).rows, Step(s, l).requests[r], since)
  {
    if l.Go? && l.request == r && r in s.requests {
      AdvanceLoginSince(s.rows, s.users, s.now, s.requests[r], l.newId, since);
    } else {
      StepEvolves(s, l);
    }
  }

  lemma {:induction false} LoginRunsSince(here: State, more: seq<Label>, r: nat)
    requires Inv(here) && r !in here.requests
    ensures var later := Exec(here, more); r in later.requests ==> LoginSince(later.rows, later.requests[r], here.now)
  {
    if more != [] {
      var front := more[..|more| - 1];
      LoginRunsSince(here, front, r);
      RunEvolves(here, front);
      StepLoginSince(Exec(here, front), more[|more| - 1], r, here.now);
    }
  }

  /** The root of a login lives for a full lifetime from some instant after that login began. */
  lemma RootLivesFullLifetime(s: State, run: seq<Label>, more: seq<Label>, r: nat, root: Uuid)
    requires Init(s) && r !in Exec(s, run).requests && r in Exec(s, run + more).requests
    requires var pc := Exec(s, run + more).requests[r]; pc.LoginDone? && pc.outcome == LoggedIn(root)
    ensures var later := Exec(s, run + more);
      root in later.rows && Exec(s, run).now + REFRESH_TTL <= later.rows[root].expiresAt <= later.now + REFRESH_TTL
  {
    Reachable(s, run);
    Reachable(s, run + more);
    ExecSplits(s, run, more);
    LoginRunsSince(Exec(s, run), more, r);
  }

  // ---------------------------------------------------------------- the owner check

  predicate RefusedForOwner(pc: Pc) {
    VerdictOf(pc) == Some(Refused(InactiveOwner))
  }

  /** The refresh has passed its owner check, whatever came of it afterwards. */
  predicate PassedOwnerCheck(pc: Pc) {
    pc.RefreshRotate? || Consumed(pc).Some? || VerdictOf(pc) == Some(Refused(RotationLost))
  }

  /** Only the step of the owner check decides about the owner, and it looks at the users of that moment. */
  lemma AdvanceOwnerCheck(t: Table, users: map<Uuid, bool>, now: Time, pc: Pc, newId: Uuid)
    requires Knows(t, now, pc)
    requires !PassedOwnerCheck(pc) && !RefusedForOwner(pc)
    ensures var pc' := Advance(t, users, now, pc, newId).pc;
      PassedOwnerCheck(pc') || RefusedForOwner(pc') ==>
        && pc.RefreshOwner? && pc'.token == pc.token && pc.token in t
        && (PassedOwnerCheck(pc') <==> t[pc.token].user in users && users[t[pc.token].user])
  {
  }

  lemma AdvanceKeepsOwnerCheck(t: Table, users: map<Uuid, bool>, now: Time, pc: Pc, newId: Uuid)
    requires PassedOwnerCheck(pc) || RefusedForOwner(pc)
    ensures var pc' := Advance(t, users, now, pc, newId).pc;
      && pc'.token == pc.token
      && PassedOwnerCheck(pc') == PassedOwnerCheck(pc) && RefusedForOwner(pc') == RefusedForOwner(pc)
  {
  }

  predicate OwnerChecked(pc: Pc) {
    PassedOwnerCheck(pc) || RefusedForOwner(pc)
  }

  /** The check was made among these users, and decided as it should. */
  ghost predicate CheckedAmong(users: map<Uuid, bool>, t: Table, pc: Pc)
    requires OwnerChecked(pc)
  {
    && pc.token in t
    && var owner := t[pc.token].user;
    && (PassedOwnerCheck(pc) <==> owner in users && users[owner] == true)
    && (RefusedForOwner(pc) <==> owner !in users || users[owner] == false)
  }

  lemma StepOwnerCheck(s: State, l: Label, r: nat)
    requires Inv(s) && r in Step(s, l).requests && OwnerChecked(Step(s, l).requests[r])
    requires r in s.requests ==> !OwnerChecked(s.requests[r])
    ensures r in s.requests && CheckedAmong(s.users, s.rows, Step(s, l).requests[r])
  {
    if l.Go? && l.request == r && r in s.requests {
      AdvanceOwnerCheck(s.rows, s.users, s.now, s.requests[r], l.newId);
    }
  }

  lemma StepKeepsOwnerCheck(s: State, l: Label, r: nat, users: map<Uuid, bool>)
    requires Inv(s) && r in s.requests && OwnerChecked(s.requests[r]) && CheckedAmong(users, s.rows, s.requests[r])
    ensures r in Step(s, l).requests && OwnerChecked(Step(s, l).requests[r])
    ensures CheckedAmong(users, s.rows, Step(s, l).requests[r])
  {
    if l.Go? && l.request == r {
      AdvanceKeepsOwnerCheck(s.rows, s.users, s.now, s.requests[r], l.newId);
    }
  }

  /**
    A refresh that was granted, or that lost its rotation, met a state after it began in which the owner
    of its token was active; one refused for its owner met a state in which the owner was not.
   */
  lemma {:induction false} OwnerCheckWasRight(s: State, run: seq<Label>, r: nat) returns (n: nat)
    requires Init(s) && r in Exec(s, run).requests && OwnerChecked(Exec(s, run).requests[r])
    ensures n < |run| && r in Exec(s, run[..n]).requests
    ensures CheckedAmong(Exec(s, run[..n]).users, Exec(s, run).rows, Exec(s, run).requests[r])
  {
    var front, l := run[..|run| - 1], run[|run| - 1];
    var mid := Exec(s, front);
    Reachable(s, front);
    StepEvolves(mid, l);
    if r in mid.requests && OwnerChecked(mid.requests[r]) {
      n := OwnerCheckWasRight(s, front, r);
      assert front[..n] == run[..n];
      StepKeepsOwnerCheck(mid, l, r, Exec(s, run[..n]).users);
    } else {
      n := |front|;
      assert run[..n] == front;
      StepOwnerCheck(mid, l, r);
    }
  }

  lemma {:induction false} RequestsStay(s: State, run: seq<Label>, n: nat, r: nat)
    requires n <= |run| && r in Exec(s, run[..n]).requests
    ensures r in Exec(s, run).requests
  {
    if n == |run| {
      assert run[..n] == run;
    } else {
      assert run[..|run| - 1][..n] == run[..n];
      RequestsStay(s, run[..|run| - 1], n, r);
    }
  }

  lemma {:induction false} StaysInactive(here: State, more: seq<Label>, user: Uuid)
    requires user !in here.users || !here.users[user]
    requires forall i | 0 <= i < |more| :: more[i] != SetActive(user, true)
    ensures user !in Exec(here, more).users || !Exec(here, more).users[user]
  {
    if more != [] {
      StaysInactive(here, more[..|more| - 1], user);
    }
  }

  /** While a user is absent or inactive no refresh that begins then is granted for a token of that user. */
  lemma InactiveOwnerNeverGranted(s: State, run: seq<Label>, more: seq<Label>, r: nat, user: Uuid)
    requires Init(s) && (user !in Exec(s, run).users || !Exec(s, run).users[user])
    requires forall i | 0 <= i < |more| :: more[i] != SetActive(user, true)
    requires r !in Exec(s, run).requests && r in Exec(s, run + more).requests
    ensures var later := Exec(s, run + more); var pc := later.requests[r];
      Consumed(pc).Some? ==> pc.token in later.rows && later.rows[pc.token].user != user
  {
    var pc := Exec(s, run + more).requests[r];
    if Consumed(pc).Some? {
      var n := OwnerCheckWasRight(s, run + more, r);
      if n <= |run| {
        assert (run + more)[..n] == run[..n];
        RequestsStay(s, run, n, r);
      } else {
        var part := more[..n - |run|];
        assert (run + more)[..n] == run + part;
        ExecSplits(s, run, part);
        StaysInactive(Exec(s, run), part, user);
      }
    }
  }

  // ---------------------------------------------------------------- the decision of a refresh

  /** The decision read from the columns of the row presented and of its owner, in the order of the checks. */
  ghost predicate RefreshDecided(users: map<Uuid, bool>, read: Option<Row>, now: Time, v: Verdict) {
    match read
    case None => v == Refused(UnknownToken)
    case Some(Row(_, _, Some(_), None)) => v == Refused(RevokedToken)
    case Some(Row(_, _, Some(_), Some(_))) => v.ReuseDetected?
    case Some(Row(owner, expiresAt, None, _)) =>
      && (v == Refused(ExpiredToken) <==> expiresAt <= now)
      && (v == Refused(InactiveOwner) <==> now < expiresAt && (owner !in users || users[owner] == false))
      && (v.Issued? || v == Refused(RotationLost) <==> now < expiresAt && owner in users && users[owner] == true)
  }

  // ---------------------------------------------------------------- the checks of a login

  /** Why a login failed, once that is decided. */
  function FailureOf(pc: Pc): Option<LoginFailure> {
    match pc
    case LoginRefused(_, failure) => Some(failure)
    case LoginDone(_, NotLoggedIn(failure)) => Some(failure)
    case _ => None
  }

  predicate PastLoginCheck(pc: Pc) {
    pc.LoginRefused? || pc.LoginAudit? || pc.LoginPrepare? || pc.LoginCreate? || pc.LoginDone?
  }

  /** The decision read from the columns of the user, the password checked last. */
  ghost predicate LoginDecided(users: map<Uuid, bool>, user: Uuid, verified: bool, failure: Option<LoginFailure>) {
    && (failure == Some(UnknownEmail) <==> user !in users)
    && (failure == Some(InactiveAccount) <==> user in users && users[user] == false)
    && (failure == Some(WrongPassword) <==> user in users && users[user] == true && verified == false)
    && (failure == None <==> user in users && users[user] == true && verified == true)
  }

  lemma AdvanceLoginCheck(t: Table, users: map<Uuid, bool>, now: Time, pc: Pc, newId: Uuid)
    ensures var pc' := Advance(t, users, now, pc, newId).pc;
      && (PastLoginCheck(pc) ==> PastLoginCheck(pc') && pc'.user == pc.user && FailureOf(pc') == FailureOf(pc))
      && (!PastLoginCheck(pc) && PastLoginCheck(pc') ==>
            pc.LoginStart? && pc'.user == pc.user && LoginDecided(users, pc.user, pc.verified, FailureOf(pc')))
  {
  }

  /** A login met a state in which exactly the check it reports was the first to fail, or none was. */
  lemma {:induction false} LoginCheckWasRight(s: State, run: seq<Label>, r: nat) returns (n: nat)
    requires r !in s.requests && r in Exec(s, run).requests && PastLoginCheck(Exec(s, run).requests[r])
    ensures n < |run| && r in Exec(s, run[..n]).requests
    ensures var pc, start := Exec(s, run).requests[r], Exec(s, run[..n]).requests[r];
      && start.LoginStart? && start.user == pc.user
      && LoginDecided(Exec(s, run[..n]).users, pc.user, start.verified, FailureOf(pc))
  {
    var front, l := run[..|run| - 1], run[|run| - 1];
    var mid := Exec(s, front);
    if l.Go? && l.request == r && r in mid.requests {
      AdvanceLoginCheck(mid.rows, mid.users, mid.now, mid.requests[r], l.newId);
    }
    if r in mid.requests && PastLoginCheck(mid.requests[r]) {
      n := LoginCheckWasRight(s, front, r);
      assert front[..n] == run[..n];
    } else {
      n := |front|;
      assert run[..n] == front;
    }
  }

  // ---------------------------------------------------------------- when a row was revoked

  /** The only instant a step ever writes is its own. */
  lemma StepDatesRevocation(s: State, l: Label, id: Uuid)
    requires Inv(s) && id in Step(s, l).rows
    ensures var row := Step(s, l).rows[id];
      if id in s.rows && row.revokedAt == s.rows[id].revokedAt then true
      else if id in s.rows then l.Go? && row.revokedAt == Some(s.now)
      else row.revokedAt == None
  {
    if l.Go? && l.request in s.requests {
      AdvanceAdmissible(s.rows, s.users, s.now, s.requests[l.request], l.newId);
      WriteDatesRevocation(s.rows, s.users, s.now, s.requests[l.request], l.newId, id);
    }
  }

  lemma WriteDatesRevocation(t: Table, users: map<Uuid, bool>, now: Time, pc: Pc, newId: Uuid, id: Uuid)
    requires Admissible(t, Advance(t, users, now, pc, newId).write)
    requires id in Apply(t, Advance(t, users, now, pc, newId).write)
    ensures var row := Apply(t, Advance(t, users, now, pc, newId).write)[id];
      if id in t then row.revokedAt == t[id].revokedAt || row.revokedAt == Some(now) else row.revokedAt == None
  {
  }

  /** A row that was not revoked at some point and is later carries an instant from between the two. */
  lemma {:induction false} RevocationIsDated(here: State, more: seq<Label>, id: Uuid)
    requires Inv(here) && (id in here.rows ==> here.rows[id].revokedAt == None)
    ensures var later := Exec(here, more);
      id in later.rows && later.rows[id].revokedAt != None ==> here.now <= later.rows[id].revokedAt.value <= later.now
  {
    if more != [] {
      var front := more[..|more| - 1];
      RevocationIsDated(here, front, id);
      RunEvolves(here, front);
      if id in Exec(here, more).rows {
        StepDatesRevocation(Exec(here, front), more[|more| - 1], id);
      }
      StepEvolves(Exec(here, front), more[|more| - 1]);
    }
  }

  // ---------------------------------------------------------------- the events, field by field

  /** The reason recorded for a rejected refresh, from the row it read. */
  lemma RefreshRecords(s: State, run: seq<Label>, r: nat)
    requires Init(s) && r in Exec(s, run).requests && Exec(s, run).requests[r].RefreshDone?
    ensures
      var s' := Exec(s, run);
      var RefreshDone(token, _, read, v) := s'.requests[r];
      var trail := EventsOf(s'.log, r);
      && trail != [] && (read.Some? ==> token in s'.rows)
      && var subject := if read == None then None else Some(s'.rows[token].user);
      && trail[0].actor == subject && trail[0].target == subject && trail[0].organization == None
      && (trail[0].metadata == Reason(UnknownToken) <==> read == None)
      && (trail[0].metadata == Reason(RevokedToken) <==>
            read.Some? && read.value.revokedAt != None && read.value.replacedBy == None)
      && (trail[0].metadata.ReuseOf? <==> read.Some? && read.value.revokedAt != None && read.value.replacedBy != None)
      && (trail[0].metadata == Reason(ExpiredToken) ==> s'.rows[token].expiresAt <= s'.now)
      && (trail[0].metadata == Reason(InactiveOwner) <==> RefusedForOwner(s'.requests[r]))
      && (trail[0].metadata == Reason(RotationLost) ==> read.value.revokedAt == None && s'.rows[token].revokedAt != None)
      && (trail[0].metadata == NoMetadata <==> v.Issued?)
      && (|trail| == 2 ==>
            && v.ReuseDetected? && v.killed.Some?
            && trail[1] == Event(RefreshTokenFamilyRevoked, subject, v.killed, None, PresentedToken(token)))
  {
    Reachable(s, run);
    RefreshReadsConsistentRow(s, run, r);
  }

  /** What a login leaves in the log: one event about its user, unless no such user was found. */
  function LoginEvents(user: Uuid, outcome: LoginOutcome): seq<Event> {
    match outcome
    case LoggedIn(_) => [Event(UserLoginSucceeded, Some(user), Some(user), None, NoMetadata)]
    case NotLoggedIn(UnknownEmail) => [Event(UserLoginFailed, None, None, None, LoginReason(UnknownEmail))]
    case NotLoggedIn(InactiveAccount) => [Event(UserLoginFailed, Some(user), Some(user), None, LoginReason(InactiveAccount))]
    case NotLoggedIn(WrongPassword) => [Event(UserLoginFailed, Some(user), Some(user), None, LoginReason(WrongPassword))]
  }

  lemma LoginTrail(user: Uuid, outcome: LoginOutcome)
    ensures Trail(LoginDone(user, outcome)) == LoginEvents(user, outcome)
  {
  }

  lemma LoginRecords(s: State, run: seq<Label>, r: nat, user: Uuid, outcome: LoginOutcome)
    requires Init(s) && r in Exec(s, run).requests && Exec(s, run).requests[r] == LoginDone(user, outcome)
    ensures EventsOf(Exec(s, run).log, r) == LoginEvents(user, outcome)
  {
    Reachable(s, run);
    LoginTrail(user, outcome);
  }

  /** A finished logout is one event about the owner of its token, or nothing. */
  lemma LogoutRecords(s: State, run: seq<Label>, r: nat)
    requires Init(s) && r in Exec(s, run).requests && Exec(s, run).requests[r].LogoutDone?
    ensures
      var s' := Exec(s, run);
      var LogoutDone(token, wrote, _) := s'.requests[r];
      if wrote == None then EventsOf(s'.log, r) == []
      else
        && token in s'.rows
        && EventsOf(s'.log, r) == [Event(UserLogout, Some(s'.rows[token].user), Some(s'.rows[token].user), None, NoMetadata)]
  {
    Reachable(s, run);
  }
}
