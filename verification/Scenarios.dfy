/** Runs from an empty table in which the code does something other than its comments say. */
module Scenarios {
  import opened Common
  import opened Audit
  import opened TokenTable
  import opened RefreshTokens
  import opened AuthProtocol
  import opened AuthInvariants
  import opened AuthWorkflows
  import opened Deeds

  /** One active user, no token, no request yet. */
  const START: State := State(map[], map[7 := true], 0, map[], [])

  // ---------------------------------------------------------------- whole requests

  lemma ExecOne(s: State, l: Label)
    ensures Exec(s, [l]) == Step(s, l)
  {
    assert [l][..0] == [];
    assert Exec(s, []) == s;
  }

  /** A request that begins now and takes `n` turns in a row. */
  lemma BeginAndGo(s: State, r: nat, call: Call, newId: Uuid, n: nat, rows: Table, pc: Pc, log: seq<Entry>)
    requires r !in s.requests
    requires Exec(Step(s, Begin(r, call)), Turns(r, newId, n)) == Moved(Step(s, Begin(r, call)), r, rows, pc, log)
    ensures Exec(s, [Begin(r, call)] + Turns(r, newId, n)) == Moved(s, r, rows, pc, log)
  {
    ExecSplits(s, [Begin(r, call)], Turns(r, newId, n));
    ExecOne(s, Begin(r, call));
    assert s.requests[r := Start(call, s.now)][r := pc] == s.requests[r := pc];
  }

  /** The labels of a refresh that begins now and runs to its end undisturbed. */
  lemma WholeRefresh(s: State, r: nat, token: Uuid, newId: Uuid) returns (run: seq<Label>)
    requires Sound(s.rows) && newId !in s.rows && r !in s.requests
    ensures var v := VerdictAlone(s.rows, s.users, s.now, token, newId);
      var done := RefreshDone(token, s.now, RowOf(s.rows, token), v);
      Exec(s, run) == Moved(s, r, Apply(s.rows, WriteFor(token, s.now, v)), done, s.log + Tagged(r, Trail(done)))
  {
    var n := RefreshAgrees(Step(s, Begin(r, Refresh(token))), r, token, newId);
    run := [Begin(r, Refresh(token))] + Turns(r, newId, n);
    var v := VerdictAlone(s.rows, s.users, s.now, token, newId);
    var done := RefreshDone(token, s.now, RowOf(s.rows, token), v);
    BeginAndGo(s, r, Refresh(token), newId, n, Apply(s.rows, WriteFor(token, s.now, v)), done, s.log + Tagged(r, Trail(done)));
  }

  /** The labels of a login that begins now and runs to its end undisturbed. */
  lemma WholeLogin(s: State, r: nat, user: Uuid, verified: bool, newId: Uuid) returns (run: seq<Label>)
    requires newId !in s.rows && r !in s.requests
    ensures var done := LoginDone(user, LoginAlone(s.users, user, verified, newId));
      Exec(s, run) == Moved(s, r, AfterLogin(s.rows, user, s.now, done.outcome), done, s.log + Tagged(r, Trail(done)))
  {
    var n := LoginAgrees(Step(s, Begin(r, Login(user, verified))), r, user, verified, newId);
    run := [Begin(r, Login(user, verified))] + Turns(r, newId, n);
    var done := LoginDone(user, LoginAlone(s.users, user, verified, newId));
    BeginAndGo(s, r, Login(user, verified), newId, n, AfterLogin(s.rows, user, s.now, done.outcome), done, s.log + Tagged(r, Trail(done)));
  }

  /** Runs are extended by labels that lead on from their last state. */
  lemma Continue(front: seq<Label>, rest: seq<Label>, s: State)
    requires Exec(START, front) == s
    ensures Exec(START, front + rest) == Exec(s, rest)
  {
    ExecSplits(START, front, rest);
  }

  // ---------------------------------------------------------------- one login, any number of refreshes

  /** Token 0 rotated `n` times at instant 0; token `n` is live. */
  function Chain(n: nat): Table {
    if n == 0 then map[0 := Row(7, REFRESH_TTL, None, None)]
    else Rotated(Chain(n - 1), n - 1, n, REFRESH_TTL, 0)
  }

  lemma {:induction false} ChainRows(n: nat)
    ensures forall i: nat :: i in Chain(n) <==> i <= n
    ensures forall i | i in Chain(n) :: Chain(n)[i].user == 7 && Chain(n)[i].expiresAt == REFRESH_TTL
    ensures Chain(n)[n] == Row(7, REFRESH_TTL, None, None)
    ensures n > 0 ==> Chain(n)[0].revokedAt.Some? && Chain(n)[0].replacedBy.Some?
  {
    if n > 0 {
      ChainRows(n - 1);
    }
  }

  lemma {:induction false} ChainOf(n: nat)
    ensures Sound(Chain(n)) && LeafAt(Chain(n), 0, n, n)
  {
    if n == 0 {
      assert Successor(Chain(0), 0, 0) == Some(0);
    } else {
      ChainOf(n - 1);
      ChainGrows(n - 1);
    }
  }

  lemma RotatedLeaf(t: Table, id: Uuid, d: nat, leaf: Uuid, child: Uuid, expiresAt: Time, now: Time)
    requires Sound(t) && LeafAt(t, id, d, leaf) && Live(t, leaf) && child !in t && t[leaf].expiresAt <= expiresAt
    ensures Sound(Rotated(t, leaf, child, expiresAt, now))
    ensures LeafAt(Rotated(t, leaf, child, expiresAt, now), id, d + 1, child)
  {
    var t' := Rotated(t, leaf, child, expiresAt, now);
    RotateEvolves(t, leaf, child, expiresAt, now);
    SuccessorStable(t, t', id, d);
    assert Successor(t', id, d + 1) == Some(child);
  }

  lemma ChainGrows(n: nat)
    requires Sound(Chain(n)) && LeafAt(Chain(n), 0, n, n)
    ensures Sound(Chain(n + 1)) && LeafAt(Chain(n + 1), 0, n + 1, n + 1)
  {
    ChainRows(n);
    RotatedLeaf(Chain(n), 0, n, n, n + 1, REFRESH_TTL, 0);
  }

  /** `s` is what one login and `n` refreshes, each with the newest token, lead to. */
  ghost predicate RotatedTimes(s: State, n: nat) {
    && s.rows == Chain(n) && s.users == START.users && s.now == 0
    && (forall r: nat :: r in s.requests <==> r <= n)
    && (forall r | r in s.requests :: EndedToken(s.requests[r]).None?)
  }

  lemma LoginThenRotate(n: nat) returns (run: seq<Label>)
    requires REFRESH_TTL > 0
    ensures RotatedTimes(Exec(START, run), n)
  {
    if n == 0 {
      run := WholeLogin(START, 0, 7, true, 0);
    } else {
      var front := LoginThenRotate(n - 1);
      var rest := RotateOnce(Exec(START, front), n - 1);
      Continue(front, rest, Exec(START, front));
      run := front + rest;
    }
  }

  lemma RotateOnce(s: State, n: nat) returns (run: seq<Label>)
    requires REFRESH_TTL > 0 && RotatedTimes(s, n)
    ensures RotatedTimes(Exec(s, run), n + 1)
  {
    ChainOf(n);
    ChainRows(n);
    assert Chain(n + 1) == Rotated(Chain(n), n, n + 1, REFRESH_TTL, 0);
    assert VerdictAlone(s.rows, s.users, s.now, n, n + 1) == Issued(n + 1);
    run := WholeRefresh(s, n + 1, n, n + 1);
  }

  /** What a replay of the first token finds and leaves behind. */
  lemma ReplayOutcome(n: nat)
    requires n >= 1
    ensures Victim(Chain(n), 0) == if n <= MAX_FAMILY_WALK_STEPS then Some(n) else None
    ensures FamilyDead(AfterWalk(Chain(n), 0, 0), 0) <==> n <= MAX_FAMILY_WALK_STEPS
  {
    ChainOf(n);
    VictimOfLeaf(Chain(n), 0, n, n);
    FailsClosedExactly(Chain(n), 0, n, n, 0);
  }

  function VictimAmong(n: nat): Option<Uuid> {
    if n <= 25 then Some(n) else None
  }

  /** `s` is what a replay of the first token, by request `n + 1`, leads to after `n` rotations. */
  ghost predicate Replayed(s: State, n: nat) {
    && s.rows == AfterWalk(Chain(n), 0, 0) && s.users == START.users && s.now == 0
    && (forall r: nat :: r in s.requests <==> r <= n + 1)
    && (forall r | r in s.requests :: EndedToken(s.requests[r]).None?)
    && s.requests[n + 1] == RefreshDone(0, 0, RowOf(Chain(n), 0), ReuseDetected(VictimAmong(n)))
  }

  lemma ReplayFirst(s: State, n: nat) returns (run: seq<Label>)
    requires n >= 1 && RotatedTimes(s, n)
    ensures Replayed(Exec(s, run), n)
  {
    ChainOf(n);
    ChainRows(n);
    ReplayOutcome(n);
    assert VerdictAlone(s.rows, s.users, s.now, 0, n + 1) == ReuseDetected(VictimAmong(n));
    run := WholeRefresh(s, n + 1, 0, n + 1);
  }

  /**
    One login, `n` refreshes, then a replay of the first token, nothing overlapping. Up to 25
    rotations the replay kills the live leaf; from 26 on it leaves the family alive and records it
    as already revoked.
   */
  lemma ReplayAfterRotations(n: nat) returns (run: seq<Label>)
    requires REFRESH_TTL > 0 && n >= 1
    ensures var s' := Exec(START, run);
      && Init(START) && Replayed(s', n)
      && EventsOf(s'.log, n + 1) != [] && EventsOf(s'.log, n + 1)[0].metadata == ReuseOf(0, n > 25)
      && n in s'.rows && (Live(s'.rows, n) <==> n > 25)
      && (FamilyDead(s'.rows, 0) <==> n <= 25)
  {
    var front := LoginThenRotate(n);
    var rest := ReplayFirst(Exec(START, front), n);
    Continue(front, rest, Exec(START, front));
    run := front + rest;
    Reachable(START, run);
    ReplayRecorded(Exec(START, run), n);
  }

  lemma ReplayRecorded(s: State, n: nat)
    requires n >= 1 && Replayed(s, n) && Inv(s)
    ensures EventsOf(s.log, n + 1) != [] && EventsOf(s.log, n + 1)[0].metadata == ReuseOf(0, n > 25)
    ensures n in s.rows && (Live(s.rows, n) <==> n > 25)
    ensures FamilyDead(s.rows, 0) <==> n <= 25
  {
    ReplayOutcome(n);
    ChainRows(n);
    assert EventsOf(s.log, n + 1) == Trail(s.requests[n + 1]);
  }

  // ---------------------------------------------------------------- a dead leaf nobody logged out

  lemma ReplayedOnce()
    ensures var t := AfterWalk(Chain(1), 0, 0); Sound(t) && DeadLeaf(t, 1) && 2 !in t
  {
    ChainOf(1);
    ChainRows(1);
    ReplayOutcome(1);
    RevokeEvolves(Chain(1), 1, 0);
  }

  lemma PresentKilled(s: State) returns (run: seq<Label>)
    requires Replayed(s, 1)
    ensures var s' := Exec(s, run);
      && 3 in s'.requests && s'.requests[3].RefreshDone? && s'.requests[3].token == 1
      && s'.requests[3].verdict == Refused(RevokedToken)
      && KilledByWalk(s'.requests, 1) && !EndedByLogout(s'.requests, 1)
  {
    ReplayedOnce();
    assert VerdictAlone(s.rows, s.users, s.now, 1, 2) == Refused(RevokedToken);
    run := WholeRefresh(s, 3, 1, 2);
    assert KilledLeaf(Exec(s, run).requests[2]) == Some(1);
  }

  /**
    After one rotation the first token is replayed, which kills the second; presenting the second is
    then recorded as an ordinary revoked token although no logout has taken place.
   */
  lemma KilledLeafLooksLoggedOut() returns (run: seq<Label>)
    requires REFRESH_TTL > 0
    ensures var s' := Exec(START, run);
      && Init(START) && 3 in s'.requests && s'.requests[3].RefreshDone? && s'.requests[3].token == 1
      && s'.requests[3].verdict == Refused(RevokedToken)
      && KilledByWalk(s'.requests, 1) && !EndedByLogout(s'.requests, 1)
  {
    var front := ReplayAfterRotations(1);
    var rest := PresentKilled(Exec(START, front));
    Continue(front, rest, Exec(START, front));
    run := front + rest;
  }

  // ---------------------------------------------------------------- a logout in the middle of a chain

  /** The run so far: a login, and a logout that has read its token. */
  lemma LogoutReads() returns (run: seq<Label>)
    ensures var s := Exec(START, run);
      && s.rows == Chain(0) && s.users == START.users && s.now == 0
      && s.requests.Keys == {0, 1} && s.requests[1] == LogoutWrite(0, Chain(0)[0])
  {
    var login := WholeLogin(START, 0, 7, true, 0);
    var loggedIn := Exec(START, login);
    var begun := Step(loggedIn, Begin(1, Logout(0)));
    ExecOne(loggedIn, Begin(1, Logout(0)));
    ExecOne(begun, Go(1, 0));
    Continue(login, [Begin(1, Logout(0))], loggedIn);
    Continue(login + [Begin(1, Logout(0))], [Go(1, 0)], begun);
    run := login + [Begin(1, Logout(0))] + [Go(1, 0)];
  }

  /**
    A logout reads the token live, a refresh rotates it, and the logout's write lands on a row that has
    a successor.
   */
  lemma LogoutLandsMidChain() returns (run: seq<Label>)
    requires REFRESH_TTL > 0
    ensures var s' := Exec(START, run);
      && Init(START) && 1 in s'.requests && s'.requests[1] == LogoutAudit(0, 7, true)
      && 0 in s'.rows && s'.rows[0].replacedBy == Some(1)
  {
    var reading := LogoutReads();
    var s := Exec(START, reading);
    ChainOf(0);
    ChainRows(0);
    assert VerdictAlone(s.rows, s.users, s.now, 0, 1) == Issued(1);
    var refresh := WholeRefresh(s, 2, 0, 1);
    var rotated := Exec(s, refresh);
    Continue(reading, refresh, s);
    Continue(reading + refresh, [Go(1, 0)], rotated);
    ExecOne(rotated, Go(1, 0));
    run := reading + refresh + [Go(1, 0)];
    assert rotated.requests[1] == LogoutWrite(0, Chain(0)[0]);
  }

  // ---------------------------------------------------------------- the last instant, and a deactivated owner

  lemma LoggedIn7() returns (run: seq<Label>)
    ensures var s := Exec(START, run);
      s.rows == Chain(0) && s.users == START.users && s.now == 0 && s.requests.Keys == {0}
  {
    run := WholeLogin(START, 0, 7, true, 0);
  }

  /** A token is good for exactly its lifetime, the last instant excluded. */
  lemma GoodForItsLifetime(age: nat) returns (run: seq<Label>)
    ensures var s' := Exec(START, run);
      && Init(START) && s'.now == age
      && 1 in s'.requests && s'.requests[1].RefreshDone? && s'.requests[1].token == 0
      && s'.requests[1].verdict == if age < REFRESH_TTL then Issued(1) else Refused(ExpiredToken)
  {
    var login := LoggedIn7();
    var s := Exec(START, login);
    var aged := Step(s, Tick(age));
    ChainOf(0);
    ExecOne(s, Tick(age));
    var refresh := WholeRefresh(aged, 1, 0, 1);
    Continue(login, [Tick(age)], s);
    Continue(login + [Tick(age)], refresh, aged);
    run := login + [Tick(age)] + refresh;
  }

  /** An owner deactivated after login is refused, and served again once reactivated. */
  lemma GoodWhileOwnerIsActive(active: bool) returns (run: seq<Label>)
    requires REFRESH_TTL > 0
    ensures var s' := Exec(START, run);
      && Init(START) && s'.users == map[7 := active]
      && 1 in s'.requests && s'.requests[1].RefreshDone? && s'.requests[1].token == 0
      && s'.requests[1].verdict == if active then Issued(1) else Refused(InactiveOwner)
  {
    var login := LoggedIn7();
    var s := Exec(START, login);
    var off := Step(s, SetActive(7, false));
    var settled := Step(off, SetActive(7, active));
    ChainOf(0);
    ExecOne(s, SetActive(7, false));
    ExecOne(off, SetActive(7, active));
    var refresh := WholeRefresh(settled, 1, 0, 1);
    Continue(login, [SetActive(7, false)], s);
    Continue(login + [SetActive(7, false)], [SetActive(7, active)], off);
    Continue(login + [SetActive(7, false)] + [SetActive(7, active)], refresh, settled);
    run := login + [SetActive(7, false)] + [SetActive(7, active)] + refresh;
  }
}
