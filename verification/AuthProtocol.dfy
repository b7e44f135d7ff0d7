/**
  Login, refresh and logout as request programs that interleave at every database access.
  A run is any list of labels; a label that cannot happen leaves the state as it is.
 */
module AuthProtocol {
  import opened Common
  import opened Audit
  import opened TokenTable

  /** The configured lifetime of a refresh token, whatever it is. */
  const REFRESH_TTL: Time

  /** How a refresh ended, as the service knows it. */
  datatype Verdict =
    | Issued(child: Uuid)
    | Refused(reason: Rejection)
    | ReuseDetected(killed: Option<Uuid>)

  /** How a refresh ended, as its caller sees it. */
  datatype Response = NewTokens(refreshToken: Uuid) | InvalidRefreshToken

  function Answer(v: Verdict): Response {
    match v
    case Issued(child) => NewTokens(child)
    case _ => InvalidRefreshToken
  }

  /** How a login ended. */
  datatype LoginOutcome = LoggedIn(root: Uuid) | NotLoggedIn(failure: LoginFailure)

  /**
    Where a request stands, with its local snapshots. `began`, `read` after the walk, and `late`
    only remember what happened; no step depends on them.
   */
  datatype Pc =
    | LoginStart(user: Uuid, verified: bool)
    | LoginRefused(user: Uuid, failure: LoginFailure)
    | LoginAudit(user: Uuid)
    | LoginPrepare(user: Uuid)
    | LoginCreate(user: Uuid, expiresAt: Time)
    | LoginDone(user: Uuid, outcome: LoginOutcome)
    | RefreshStart(token: Uuid, began: Time)
    | RefreshExpiry(token: Uuid, began: Time, snapshot: Row)
    | RefreshOwner(token: Uuid, began: Time, snapshot: Row)
    | RefreshRotate(token: Uuid, began: Time, snapshot: Row, expiresAt: Time)
    | WalkRead(token: Uuid, began: Time, snapshot: Row, spent: nat, next: Uuid)
    | WalkTry(token: Uuid, began: Time, snapshot: Row, spent: nat, next: Uuid)
    | WalkReRead(token: Uuid, began: Time, snapshot: Row, spent: nat, next: Uuid)
    | RefreshAudit(token: Uuid, began: Time, read: Option<Row>, verdict: Verdict)
    | FamilyAudit(token: Uuid, began: Time, read: Option<Row>, verdict: Verdict)
    | RefreshDone(token: Uuid, began: Time, read: Option<Row>, verdict: Verdict)
    | LogoutStart(token: Uuid)
    | LogoutWrite(token: Uuid, snapshot: Row)
    | LogoutAudit(token: Uuid, user: Uuid, late: bool)
    | LogoutDone(token: Uuid, wrote: Option<Uuid>, late: bool)

  predicate Finished(pc: Pc) {
    pc.LoginDone? || pc.RefreshDone? || pc.LogoutDone?
  }

  /** A logout whose write hit a row that somebody else had revoked since it was read. */
  predicate WroteLate(pc: Pc) {
    (pc.LogoutAudit? || pc.LogoutDone?) && pc.late
  }

  /** One uninterruptible piece of a request: at most one committed write, and the events it records. */
  datatype Effect = Effect(write: Write, pc: Pc, events: seq<Event>)

  function Goto(pc: Pc): Effect {
    Effect(NoWrite, pc, [])
  }

  // ---------------------------------------------------------------- events

  function UserEvent(action: Action, user: Uuid): Event {
    Event(action, Some(user), Some(user), None, NoMetadata)
  }

  /** An unknown e-mail address names nobody. */
  function LoginFailedEvent(user: Uuid, failure: LoginFailure): Event {
    var subject := if failure.UnknownEmail? then None else Some(user);
    Event(UserLoginFailed, subject, subject, None, LoginReason(failure))
  }

  function Owner(read: Option<Row>): Option<Uuid> {
    if read.Some? then Some(read.value.user) else None
  }

  function VerdictEvent(token: Uuid, read: Option<Row>, v: Verdict): Event {
    match v
    case Issued(_) => Event(RefreshTokenRotated, Owner(read), Owner(read), None, NoMetadata)
    case Refused(reason) => Event(RefreshTokenRejected, Owner(read), Owner(read), None, Reason(reason))
    case ReuseDetected(killed) =>
      Event(RefreshTokenReuseDetected, Owner(read), Owner(read), None, ReuseOf(token, killed.None?))
  }

  function FamilyEvent(token: Uuid, read: Option<Row>, killed: Option<Uuid>): Event {
    Event(RefreshTokenFamilyRevoked, Owner(read), killed, None, PresentedToken(token))
  }

  predicate KilledFamily(v: Verdict) {
    v.ReuseDetected? && v.killed.Some?
  }

  // ---------------------------------------------------------------- the request programs

  /** The lookup that starts a refresh, and the branch it decides. */
  function ReadPresented(t: Table, token: Uuid, began: Time): Pc {
    if token !in t then RefreshAudit(token, began, None, Refused(UnknownToken))
    else
      var row := t[token];
      if row.revokedAt.None? then RefreshExpiry(token, began, row)
      else match row.replacedBy
        case None => RefreshAudit(token, began, Some(row), Refused(RevokedToken))
        case Some(next) => WalkRead(token, began, row, 0, next)
  }

  /** Every hop costs an iteration, whether or not it followed a lost race. */
  function NextIteration(token: Uuid, began: Time, snapshot: Row, spent: nat, next: Uuid): Pc {
    if spent + 1 < MAX_FAMILY_WALK_STEPS then WalkRead(token, began, snapshot, spent + 1, next)
    else RefreshAudit(token, began, Some(snapshot), ReuseDetected(None))
  }

  /** What a walk concludes from the re-read after it lost the race for `next`. */
  function AfterReRead(token: Uuid, began: Time, snapshot: Row, spent: nat, refreshed: Option<Row>): Pc {
    if refreshed.None? || refreshed.value.replacedBy.None?
    then RefreshAudit(token, began, Some(snapshot), ReuseDetected(None))
    else NextIteration(token, began, snapshot, spent, refreshed.value.replacedBy.value)
  }

  function RowOf(t: Table, id: Uuid): Option<Row> {
    if id in t then Some(t[id]) else None
  }

  predicate Active(users: map<Uuid, bool>, user: Uuid) {
    user in users && users[user]
  }

  /** The checks of a login, in their order; `verified` is the outcome of the password check. */
  function CheckLogin(users: map<Uuid, bool>, user: Uuid, verified: bool): Option<LoginFailure> {
    if user !in users then Some(UnknownEmail)
    else if !users[user] then Some(InactiveAccount)
    else if !verified then Some(WrongPassword)
    else None
  }

  /** `newId` is the key the database would generate; a key already in use is drawn again. */
  function Advance(t: Table, users: map<Uuid, bool>, now: Time, pc: Pc, newId: Uuid): Effect {
    match pc
    case LoginStart(user, verified) =>
      var failure := CheckLogin(users, user, verified);
      Goto(if failure.None? then LoginAudit(user) else LoginRefused(user, failure.value))
    case LoginRefused(user, failure) =>
      Effect(NoWrite, LoginDone(user, NotLoggedIn(failure)), [LoginFailedEvent(user, failure)])
    case LoginAudit(user) =>
      Effect(NoWrite, LoginPrepare(user), [UserEvent(UserLoginSucceeded, user)])
    case LoginPrepare(user) =>
      Goto(LoginCreate(user, now + REFRESH_TTL))
    case LoginCreate(user, expiresAt) =>
      if newId in t then Goto(pc)
      else Effect(Insert(newId, user, expiresAt), LoginDone(user, LoggedIn(newId)), [])

    case RefreshStart(token, began) =>
      Goto(ReadPresented(t, token, began))
    case RefreshExpiry(token, began, snapshot) =>
      Goto(if snapshot.expiresAt <= now
           then RefreshAudit(token, began, Some(snapshot), Refused(ExpiredToken))
           else RefreshOwner(token, began, snapshot))
    case RefreshOwner(token, began, snapshot) =>
      Goto(if Active(users, snapshot.user)
           then RefreshRotate(token, began, snapshot, now + REFRESH_TTL)
           else RefreshAudit(token, began, Some(snapshot), Refused(InactiveOwner)))
    case RefreshRotate(token, began, snapshot, expiresAt) =>
      if !Live(t, token) then
        Goto(RefreshAudit(token, began, Some(snapshot), Refused(RotationLost)))
      else if newId in t then Goto(pc)
      else
        Effect(Rotate(token, newId, expiresAt, now),
               RefreshAudit(token, began, Some(snapshot), Issued(newId)), [])

    case WalkRead(token, began, snapshot, spent, next) =>
      Goto(if next !in t then RefreshAudit(token, began, Some(snapshot), ReuseDetected(None))
           else if t[next].replacedBy.Some?
             then NextIteration(token, began, snapshot, spent, t[next].replacedBy.value)
           else WalkTry(token, began, snapshot, spent, next))
    case WalkTry(token, began, snapshot, spent, next) =>
      if Live(t, next) then
        Effect(RevokeLive(next, now),
               RefreshAudit(token, began, Some(snapshot), ReuseDetected(Some(next))), [])
      else Goto(WalkReRead(token, began, snapshot, spent, next))
    case WalkReRead(token, began, snapshot, spent, next) =>
      Goto(AfterReRead(token, began, snapshot, spent, RowOf(t, next)))

    case RefreshAudit(token, began, read, verdict) =>
      Effect(NoWrite,
             if KilledFamily(verdict) then FamilyAudit(token, began, read, verdict)
             else RefreshDone(token, began, read, verdict),
             [VerdictEvent(token, read, verdict)])
    case FamilyAudit(token, began, read, verdict) =>
      Effect(NoWrite, RefreshDone(token, began, read, verdict),
             [FamilyEvent(token, read, if verdict.ReuseDetected? then verdict.killed else None)])

    case LogoutStart(token) =>
      Goto(if Live(t, token) then LogoutWrite(token, t[token]) else LogoutDone(token, None, false))
    case LogoutWrite(token, snapshot) =>
      Effect(Overwrite(token, now), LogoutAudit(token, snapshot.user, !Live(t, token)), [])
    case LogoutAudit(token, user, late) =>
      Effect(NoWrite, LogoutDone(token, Some(user), late), [UserEvent(UserLogout, user)])

    case LoginDone(_, _) => Goto(pc)
    case RefreshDone(_, _, _, _) => Goto(pc)
    case LogoutDone(_, _, _) => Goto(pc)
  }

  // ---------------------------------------------------------------- interleaved runs

  /** A recorded event, tagged with the request that recorded it. The tag is not part of the log. */
  datatype Entry = Entry(request: nat, event: Event)

  datatype State = State(
    rows: Table,
    users: map<Uuid, bool>,
    now: Time,
    requests: map<nat, Pc>,
    log: seq<Entry>)

  datatype Call = Login(user: Uuid, verified: bool) | Refresh(token: Uuid) | Logout(token: Uuid)

  datatype Label =
    | Begin(request: nat, call: Call)
    | Go(request: nat, newId: Uuid)
    | Tick(delta: nat)
    | SetActive(user: Uuid, active: bool)

  function Start(call: Call, now: Time): Pc {
    match call
    case Login(user, verified) => LoginStart(user, verified)
    case Refresh(token) => RefreshStart(token, now)
    case Logout(token) => LogoutStart(token)
  }

  function Tagged(request: nat, events: seq<Event>): seq<Entry> {
    seq(|events|, i requires 0 <= i < |events| => Entry(request, events[i]))
  }

  function Step(s: State, l: Label): State {
    match l
    case Begin(r, call) =>
      if r in s.requests then s else s.(requests := s.requests[r := Start(call, s.now)])
    case Go(r, newId) =>
      if r !in s.requests then s
      else
        var e := Advance(s.rows, s.users, s.now, s.requests[r], newId);
        s.(rows := Apply(s.rows, e.write),
           requests := s.requests[r := e.pc],
           log := s.log + Tagged(r, e.events))
    case Tick(delta) => s.(now := s.now + delta)
    case SetActive(user, active) => s.(users := s.users[user := active])
  }

  /** An empty token table, any user table, any clock, no request yet. */
  ghost predicate Init(s: State) {
    s.rows == map[] && s.requests == map[] && s.log == []
  }

  function Exec(s: State, run: seq<Label>): State {
    if run == [] then s else Step(Exec(s, run[..|run| - 1]), run[|run| - 1])
  }

  lemma ExecThen(s: State, run: seq<Label>, l: Label)
    ensures Exec(s, run + [l]) == Step(Exec(s, run), l)
  {
    assert (run + [l])[..|run|] == run;
  }

  lemma {:induction false} ExecSplits(s: State, a: seq<Label>, b: seq<Label>)
    ensures Exec(s, a + b) == Exec(Exec(s, a), b)
  {
    if b == [] {
      assert a + b == a;
    } else {
      ExecSplits(s, a, b[..|b| - 1]);
      assert (a + b)[..|a + b| - 1] == a + b[..|b| - 1];
    }
  }

  // ---------------------------------------------------------------- what a request knows

  /** A row read before anything happened to it: only its owner and its expiry can be relied on. */
  ghost predicate Remembers(t: Table, token: Uuid, snapshot: Row) {
    && token in t
    && t[token].user == snapshot.user
    && t[token].expiresAt == snapshot.expiresAt
  }

  /** After `spent` iterations `next` is the successor number `spent + 1` of the presented token. */
  ghost predicate Walking(t: Table, token: Uuid, snapshot: Row, spent: nat, next: Uuid) {
    && Remembers(t, token, snapshot)
    && snapshot.revokedAt.Some?
    && snapshot.replacedBy.Some?
    && spent < MAX_FAMILY_WALK_STEPS
    && Successor(t, token, spent + 1) == Some(next)
  }

  ghost predicate KilledWithinReach(t: Table, token: Uuid, leaf: Uuid) {
    && DeadLeaf(t, leaf)
    && exists d :: 1 <= d <= MAX_FAMILY_WALK_STEPS && LeafAt(t, token, d, leaf)
  }

  /** What each verdict says about the row read and about the table from then on. */
  ghost predicate Truthful(t: Table, now: Time, token: Uuid, began: Time, read: Option<Row>, v: Verdict) {
    && (read.Some? ==> Remembers(t, token, read.value))
    && (read.None? <==> v == Refused(UnknownToken))
    && (v.ReuseDetected? <==> read.Some? && read.value.revokedAt.Some? && read.value.replacedBy.Some?)
    && (v == Refused(RevokedToken) <==> read.Some? && read.value.revokedAt.Some? && read.value.replacedBy.None?)
    && (v == Refused(RevokedToken) ==> DeadLeaf(t, token))
    && (v == Refused(ExpiredToken) ==> token in t && t[token].expiresAt <= now)
    && (v == Refused(RotationLost) ==> token in t && t[token].revokedAt.Some?)
    && (v.Issued? ==>
          && token in t && began < t[token].expiresAt && t[token].replacedBy == Some(v.child)
          && v.child in t && began + REFRESH_TTL <= t[v.child].expiresAt)
    && (KilledFamily(v) ==> KilledWithinReach(t, token, v.killed.value))
    && (v.ReuseDetected? && v.killed.None? ==> FamilyDead(t, token) || BeyondReach(t, token))
  }

  /** A logout that was not late has ended the token for good. */
  ghost predicate LoggedOut(t: Table, token: Uuid, user: Uuid, late: bool) {
    && token in t
    && t[token].user == user
    && t[token].revokedAt.Some?
    && (!late ==> DeadLeaf(t, token))
  }

  ghost predicate Knows(t: Table, now: Time, pc: Pc) {
    match pc
    case LoginCreate(_, expiresAt) => expiresAt <= now + REFRESH_TTL
    case LoginDone(user, outcome) => outcome.LoggedIn? ==> outcome.root in t && t[outcome.root].user == user
    case RefreshStart(_, began) => began <= now
    case RefreshExpiry(token, began, snapshot) =>
      began <= now && Remembers(t, token, snapshot) && snapshot.revokedAt.None?
    case RefreshOwner(token, began, snapshot) =>
      began <= now && Remembers(t, token, snapshot) && snapshot.revokedAt.None? && began < snapshot.expiresAt
    case RefreshRotate(token, began, snapshot, expiresAt) =>
      && Remembers(t, token, snapshot) && snapshot.revokedAt.None? && began < snapshot.expiresAt
      && snapshot.expiresAt <= expiresAt <= now + REFRESH_TTL && began + REFRESH_TTL <= expiresAt
    case WalkRead(token, _, snapshot, spent, next) => Walking(t, token, snapshot, spent, next)
    case WalkTry(token, _, snapshot, spent, next) => Walking(t, token, snapshot, spent, next)
    case WalkReRead(token, _, snapshot, spent, next) =>
      Walking(t, token, snapshot, spent, next) && next in t && t[next].revokedAt.Some?
    case RefreshAudit(token, began, read, v) => Truthful(t, now, token, began, read, v)
    case FamilyAudit(token, began, read, v) => Truthful(t, now, token, began, read, v) && KilledFamily(v)
    case RefreshDone(token, began, read, v) => Truthful(t, now, token, began, read, v)
    case LogoutWrite(token, snapshot) => Remembers(t, token, snapshot)
    case LogoutAudit(token, user, late) => LoggedOut(t, token, user, late)
    case LogoutDone(token, wrote, late) => wrote.Some? ==> LoggedOut(t, token, wrote.value, late)
    case _ => true
  }

  /** Every expiry was computed no later than now, from the fixed lifetime. */
  ghost predicate Bounded(t: Table, now: Time) {
    forall id | id in t :: t[id].expiresAt <= now + REFRESH_TTL
  }

  /** The events a request must have recorded by the time it stands at `pc`. */
  function Trail(pc: Pc): seq<Event> {
    match pc
    case LoginPrepare(user) => [UserEvent(UserLoginSucceeded, user)]
    case LoginCreate(user, _) => [UserEvent(UserLoginSucceeded, user)]
    case LoginDone(user, outcome) =>
      if outcome.LoggedIn? then [UserEvent(UserLoginSucceeded, user)] else [LoginFailedEvent(user, outcome.failure)]
    case FamilyAudit(token, _, read, v) => [VerdictEvent(token, read, v)]
    case RefreshDone(token, _, read, v) =>
      if KilledFamily(v) then [VerdictEvent(token, read, v), FamilyEvent(token, read, v.killed)]
      else [VerdictEvent(token, read, v)]
    case LogoutDone(_, wrote, _) => if wrote.Some? then [UserEvent(UserLogout, wrote.value)] else []
    case _ => []
  }

  function EventsOf(log: seq<Entry>, r: nat): seq<Event> {
    if log == [] then []
    else EventsOf(log[..|log| - 1], r)
         + (if log[|log| - 1].request == r then [log[|log| - 1].event] else [])
  }

  /** The invariant of every reachable state. */
  ghost predicate Inv(s: State) {
    && Sound(s.rows)
    && Bounded(s.rows, s.now)
    && (forall r | r in s.requests :: Knows(s.rows, s.now, s.requests[r]))
    && (forall r :: EventsOf(s.log, r) == if r in s.requests then Trail(s.requests[r]) else [])
  }
}
