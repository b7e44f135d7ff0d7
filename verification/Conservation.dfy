/** The token table and the audit log keep the same books: every row is accounted for by an event. */
module Conservation {
  import opened Common
  import opened Audit
  import opened TokenTable
  import opened AuthProtocol
  import opened AuthInvariants

  predicate HasSuccessor(row: Row) { row.replacedBy.Some? }

  predicate IsRevoked(row: Row) { row.revokedAt.Some? }

  predicate IsLive(row: Row) { row.revokedAt.None? }

  /** A login that is in the log but has not inserted its row yet. */
  predicate OwesRoot(pc: Pc) { pc.LoginPrepare? || pc.LoginCreate? }

  /** A rotation, family kill or logout that is committed but not in the log yet. */
  predicate OwesRotated(pc: Pc) { pc.RefreshAudit? && pc.verdict.Issued? }

  predicate OwesFamilyRevoked(pc: Pc) { (pc.RefreshAudit? || pc.FamilyAudit?) && KilledFamily(pc.verdict) }

  predicate OwesLogout(pc: Pc) { pc.LogoutAudit? }

  function HasAction(a: Action): Entry -> bool {
    (e: Entry) => e.event.action == a
  }

  ghost function Events(s: State, a: Action): nat {
    CountIn(s.log, HasAction(a))
  }

  ghost function Requests(s: State, p: Pc -> bool): nat {
    CountValues(s.requests, p)
  }

  ghost function Rows(s: State, p: Row -> bool): nat {
    CountValues(s.rows, p)
  }

  ghost predicate Balanced(s: State) {
    && |s.rows| + Requests(s, OwesRoot) == Events(s, UserLoginSucceeded) + Rows(s, HasSuccessor)
    && Rows(s, HasSuccessor) == Events(s, RefreshTokenRotated) + Requests(s, OwesRotated)
    && Rows(s, IsRevoked) + Requests(s, WroteLate)
       == Rows(s, HasSuccessor)
          + Events(s, RefreshTokenFamilyRevoked) + Requests(s, OwesFamilyRevoked)
          + Events(s, UserLogout) + Requests(s, OwesLogout)
  }

  // ---------------------------------------------------------------- what one step adds to each count

  function One(b: bool): int { if b then 1 else 0 }

  function NewRows(t: Table, w: Write): int {
    One(w.Insert? || (w.Rotate? && Live(t, w.id)))
  }

  function NewLinks(t: Table, w: Write): int {
    One(w.Rotate? && Live(t, w.id))
  }

  function NewRevocations(t: Table, w: Write): int {
    One((w.Rotate? || w.RevokeLive? || w.Overwrite?) && Live(t, w.id))
  }

  lemma WriteCounts(t: Table, w: Write)
    requires Sound(t) && Admissible(t, w)
    ensures |Apply(t, w)| == |t| + NewRows(t, w)
    ensures CountValues(Apply(t, w), HasSuccessor) == CountValues(t, HasSuccessor) + NewLinks(t, w)
    ensures CountValues(Apply(t, w), IsRevoked) == CountValues(t, IsRevoked) + NewRevocations(t, w)
  {
    match w
    case NoWrite =>
    case Insert(id, user, expiresAt) => RowCounts(t, id, Row(user, expiresAt, None, None));
    case Rotate(id, child, expiresAt, at) =>
      if Live(t, id) {
        var parent := t[id].(revokedAt := Some(at), replacedBy := Some(child));
        RowCounts(t, id, parent);
        RowCounts(t[id := parent], child, Row(t[id].user, expiresAt, None, None));
      }
    case RevokeLive(id, at) =>
      if Live(t, id) { RowCounts(t, id, t[id].(revokedAt := Some(at))); }
    case Overwrite(id, at) =>
      if id in t { RowCounts(t, id, t[id].(revokedAt := Some(at))); }
  }

  lemma RowCounts(t: Table, id: Uuid, row: Row)
    ensures |t[id := row]| == |t| + One(id !in t)
    ensures CountValues(t[id := row], HasSuccessor)
         == CountValues(t, HasSuccessor) - One(id in t && HasSuccessor(t[id])) + One(HasSuccessor(row))
    ensures CountValues(t[id := row], IsRevoked)
         == CountValues(t, IsRevoked) - One(id in t && IsRevoked(t[id])) + One(IsRevoked(row))
  {
    CountAfterUpdate(t, id, row, HasSuccessor);
    CountAfterUpdate(t, id, row, IsRevoked);
    assert t[id := row].Keys == t.Keys + {id};
  }

  lemma RequestCounts(requests: map<nat, Pc>, r: nat, pc: Pc, p: Pc -> bool)
    requires r in requests
    ensures CountValues(requests[r := pc], p) == CountValues(requests, p) - One(p(requests[r])) + One(p(pc))
  {
    CountAfterUpdate(requests, r, pc, p);
  }

  function Recorded(events: seq<Event>, a: Action): int {
    One(events != [] && events[0].action == a)
  }

  lemma EventCounts(log: seq<Entry>, r: nat, events: seq<Event>, a: Action)
    requires |events| <= 1
    ensures CountIn(log + Tagged(r, events), HasAction(a)) == CountIn(log, HasAction(a)) + Recorded(events, a)
  {
    if events == [] {
      assert log + Tagged(r, events) == log;
    } else {
      assert Tagged(r, events) == [Entry(r, events[0])];
      CountAfterAppend(log, Entry(r, events[0]), HasAction(a));
    }
  }

  function Owed(pc: Pc, e: Effect, p: Pc -> bool): int {
    One(p(e.pc)) - One(p(pc))
  }

  /** Whatever a step adds to the table, it logs or owes. */
  lemma RowsBalance(t: Table, users: map<Uuid, bool>, now: Time, pc: Pc, newId: Uuid)
    ensures var e := Advance(t, users, now, pc, newId);
      && |e.events| <= 1
      && NewRows(t, e.write) + Owed(pc, e, OwesRoot) == Recorded(e.events, UserLoginSucceeded) + NewLinks(t, e.write)
  {
  }

  lemma LinksBalance(t: Table, users: map<Uuid, bool>, now: Time, pc: Pc, newId: Uuid)
    ensures var e := Advance(t, users, now, pc, newId);
      NewLinks(t, e.write) == Recorded(e.events, RefreshTokenRotated) + Owed(pc, e, OwesRotated)
  {
  }

  /** Whatever a step revokes is a rotation, or is logged or owed, unless the row was revoked before. */
  lemma RevocationsBalance(t: Table, users: map<Uuid, bool>, now: Time, pc: Pc, newId: Uuid)
    requires Knows(t, now, pc)
    ensures var e := Advance(t, users, now, pc, newId);
      NewRevocations(t, e.write) + Owed(pc, e, WroteLate)
      == NewLinks(t, e.write)
         + Recorded(e.events, RefreshTokenFamilyRevoked) + Owed(pc, e, OwesFamilyRevoked)
         + Recorded(e.events, UserLogout) + Owed(pc, e, OwesLogout)
  {
  }

  lemma StepRequestCounts(s: State, r: nat, e: Effect)
    requires r in s.requests
    ensures var requests := s.requests[r := e.pc];
      && CountValues(requests, OwesRoot) == Requests(s, OwesRoot) + Owed(s.requests[r], e, OwesRoot)
      && CountValues(requests, OwesRotated) == Requests(s, OwesRotated) + Owed(s.requests[r], e, OwesRotated)
      && CountValues(requests, OwesFamilyRevoked) == Requests(s, OwesFamilyRevoked) + Owed(s.requests[r], e, OwesFamilyRevoked)
      && CountValues(requests, OwesLogout) == Requests(s, OwesLogout) + Owed(s.requests[r], e, OwesLogout)
      && CountValues(requests, WroteLate) == Requests(s, WroteLate) + Owed(s.requests[r], e, WroteLate)
  {
    RequestCounts(s.requests, r, e.pc, OwesRoot);
    RequestCounts(s.requests, r, e.pc, OwesRotated);
    RequestCounts(s.requests, r, e.pc, OwesFamilyRevoked);
    RequestCounts(s.requests, r, e.pc, OwesLogout);
    RequestCounts(s.requests, r, e.pc, WroteLate);
  }

  lemma GoBalanced(s: State, r: nat, newId: Uuid)
    requires Inv(s) && Balanced(s) && r in s.requests
    ensures Balanced(Step(s, Go(r, newId)))
  {
    var pc := s.requests[r];
    var e := Advance(s.rows, s.users, s.now, pc, newId);
    AdvanceAdmissible(s.rows, s.users, s.now, pc, newId);
    RowsBalance(s.rows, s.users, s.now, pc, newId);
    LinksBalance(s.rows, s.users, s.now, pc, newId);
    RevocationsBalance(s.rows, s.users, s.now, pc, newId);
    WriteCounts(s.rows, e.write);
    StepRequestCounts(s, r, e);
    EventCounts(s.log, r, e.events, UserLoginSucceeded);
    EventCounts(s.log, r, e.events, RefreshTokenRotated);
    EventCounts(s.log, r, e.events, RefreshTokenFamilyRevoked);
    EventCounts(s.log, r, e.events, UserLogout);
  }

  lemma BeginBalanced(s: State, r: nat, call: Call)
    requires Balanced(s)
    ensures Balanced(Step(s, Begin(r, call)))
  {
    if r !in s.requests {
      var pc := Start(call, s.now);
      CountAfterUpdate(s.requests, r, pc, OwesRoot);
      CountAfterUpdate(s.requests, r, pc, OwesRotated);
      CountAfterUpdate(s.requests, r, pc, OwesFamilyRevoked);
      CountAfterUpdate(s.requests, r, pc, OwesLogout);
      CountAfterUpdate(s.requests, r, pc, WroteLate);
    }
  }

  lemma StepBalanced(s: State, l: Label)
    requires Inv(s) && Balanced(s)
    ensures Balanced(Step(s, l))
  {
    match l
    case Begin(r, call) => BeginBalanced(s, r, call);
    case Go(r, newId) => if r in s.requests { GoBalanced(s, r, newId); }
    case Tick(_) =>
    case SetActive(_, _) =>
  }

  lemma InitBalanced(s: State)
    requires Init(s)
    ensures Balanced(s)
  {
    CountNone(s.requests, OwesRoot);
    CountNone(s.requests, OwesRotated);
    CountNone(s.requests, OwesFamilyRevoked);
    CountNone(s.requests, OwesLogout);
    CountNone(s.requests, WroteLate);
    CountNone(s.rows, HasSuccessor);
    CountNone(s.rows, IsRevoked);
  }

  /** The books balance in every reachable state of every interleaving. */
  lemma {:induction false} AlwaysBalanced(s: State, run: seq<Label>)
    requires Init(s)
    ensures Balanced(Exec(s, run))
  {
    if run == [] {
      InitBalanced(s);
    } else {
      var front := run[..|run| - 1];
      AlwaysBalanced(s, front);
      Reachable(s, front);
      StepBalanced(Exec(s, front), run[|run| - 1]);
    }
  }

  ghost predicate Quiescent(s: State) {
    forall r | r in s.requests :: Finished(s.requests[r])
  }

  /**
    With nothing in flight the log alone tells how many rows there are and how many are live: rows are
    logins plus rotations, and each login leaves one live row unless a family kill or a logout took
    it. Logouts that wrote too late are the only entries that took nothing.
   */
  lemma LogAccountsForRows(s: State, run: seq<Label>)
    requires Init(s) && Quiescent(Exec(s, run))
    ensures var s' := Exec(s, run);
      && |s'.rows| == Events(s', UserLoginSucceeded) + Events(s', RefreshTokenRotated)
      && Rows(s', HasSuccessor) == Events(s', RefreshTokenRotated)
      && Rows(s', IsLive) == Events(s', UserLoginSucceeded) - Events(s', RefreshTokenFamilyRevoked)
                             - Events(s', UserLogout) + Requests(s', WroteLate)
  {
    AlwaysBalanced(s, run);
    var s' := Exec(s, run);
    CountNone(s'.requests, OwesRoot);
    CountNone(s'.requests, OwesRotated);
    CountNone(s'.requests, OwesFamilyRevoked);
    CountNone(s'.requests, OwesLogout);
    CountSplits(s'.rows, IsRevoked, IsLive);
  }

  // ---------------------------------------------------------------- serial runs

  ghost predicate AloneInFlight(s: State) {
    forall q, r | q in s.requests && r in s.requests && !Finished(s.requests[q]) && !Finished(s.requests[r]) :: q == r
  }

  /** No request starts before the one before it has finished. */
  ghost predicate Serial(s: State, run: seq<Label>) {
    forall n: nat | n <= |run| :: AloneInFlight(Exec(s, run[..n]))
  }

  /** Without interference a logout writes to the row it has read, still live. */
  ghost predicate Undisturbed(s: State) {
    && (forall r | r in s.requests && s.requests[r].LogoutWrite? :: Live(s.rows, s.requests[r].token))
    && (forall r | r in s.requests :: !WroteLate(s.requests[r]))
  }

  /** The place of one request, and of one token, after a step that nothing else was in flight to disturb. */
  lemma LogoutStaysUndisturbed(s: State, l: Label, r: nat)
    requires AloneInFlight(s) && Undisturbed(s) && r in Step(s, l).requests
    ensures var s' := Step(s, l);
      && (s'.requests[r].LogoutWrite? ==> Live(s'.rows, s'.requests[r].token))
      && !WroteLate(s'.requests[r])
  {
    if l.Go? && l.request in s.requests {
      if r == l.request {
        OwnStepUndisturbed(s.rows, s.users, s.now, s.requests[r], l.newId);
      } else if s.requests[r].LogoutWrite? {
        assert Finished(s.requests[l.request]);
      }
    }
  }

  lemma OwnStepUndisturbed(t: Table, users: map<Uuid, bool>, now: Time, pc: Pc, newId: Uuid)
    requires !WroteLate(pc) && (pc.LogoutWrite? ==> Live(t, pc.token))
    ensures var e := Advance(t, users, now, pc, newId);
      !WroteLate(e.pc) && (e.pc.LogoutWrite? ==> Live(Apply(t, e.write), e.pc.token))
  {
  }

  lemma StepUndisturbed(s: State, l: Label)
    requires AloneInFlight(s) && Undisturbed(s)
    ensures Undisturbed(Step(s, l))
  {
    forall r | r in Step(s, l).requests
      ensures Step(s, l).requests[r].LogoutWrite? ==> Live(Step(s, l).rows, Step(s, l).requests[r].token)
      ensures !WroteLate(Step(s, l).requests[r])
    {
      LogoutStaysUndisturbed(s, l, r);
    }
  }

  lemma {:induction false} SerialUndisturbed(s: State, run: seq<Label>)
    requires Init(s) && Serial(s, run)
    ensures Undisturbed(Exec(s, run))
  {
    if run != [] {
      var front := run[..|run| - 1];
      assert Serial(s, front) by {
        forall n: nat | n <= |front| ensures AloneInFlight(Exec(s, front[..n])) {
          assert front[..n] == run[..n];
        }
      }
      SerialUndisturbed(s, front);
      assert front[..|front|] == front;
      StepUndisturbed(Exec(s, front), run[|run| - 1]);
    }
  }

  /** In a serial run each logout recorded took exactly one live token. */
  lemma SerialLogIsExact(s: State, run: seq<Label>)
    requires Init(s) && Serial(s, run) && Quiescent(Exec(s, run))
    ensures var s' := Exec(s, run);
      Rows(s', IsLive) == Events(s', UserLoginSucceeded) - Events(s', RefreshTokenFamilyRevoked) - Events(s', UserLogout)
  {
    LogAccountsForRows(s, run);
    SerialUndisturbed(s, run);
    CountNone(Exec(s, run).requests, WroteLate);
  }

  /** Of two logouts that have both read one token as live, the second to write is the late one. */
  lemma SecondLogoutIsLate(s: State, q: nat, r: nat, x: Uuid, y: Uuid)
    requires q in s.requests && r in s.requests && q != r
    requires s.requests[q].LogoutWrite? && s.requests[r].LogoutWrite?
    requires s.requests[q].token == s.requests[r].token && Live(s.rows, s.requests[q].token)
    ensures var s' := Step(Step(s, Go(q, x)), Go(r, y));
      s'.requests[q].LogoutAudit? && !s'.requests[q].late && s'.requests[r].LogoutAudit? && s'.requests[r].late
  {
    var mid := Step(s, Go(q, x));
    assert mid.requests[r] == s.requests[r];
    assert !Live(mid.rows, s.requests[r].token);
  }
}
