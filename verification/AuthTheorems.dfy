/** Whole-run theorems about refresh tokens: consumption, reuse detection, the audit trail and expiry. */
module AuthTheorems {
  import opened Common
  import opened Audit
  import opened TokenTable
  import opened AuthProtocol
  import opened AuthInvariants
  import opened Deeds

  // ---------------------------------------------------------------- consumption

  /** Over any run at most one refresh presenting a given token gets new tokens for it. */
  lemma ConsumedAtMostOnce(s: State, run: seq<Label>, q: nat, r: nat)
    requires Init(s)
    requires q in Exec(s, run).requests && r in Exec(s, run).requests
    requires var requests := Exec(s, run).requests;
      && requests[q].RefreshDone? && Answer(requests[q].verdict).NewTokens?
      && requests[r].RefreshDone? && Answer(requests[r].verdict).NewTokens?
      && requests[q].token == requests[r].token
    ensures q == r
  {
    AlwaysExclusive(s, run);
  }

  /** The token issued by a refresh is the one and only successor of the token presented. */
  lemma IssuedIsTheSuccessor(s: State, run: seq<Label>, r: nat)
    requires Init(s) && r in Exec(s, run).requests
    requires VerdictOf(Exec(s, run).requests[r]).Some?
    ensures var s' := Exec(s, run); var pc := s'.requests[r];
      var v := VerdictOf(pc).value;
      v.Issued? ==>
        && pc.token in s'.rows && s'.rows[pc.token].replacedBy == Some(v.child)
        && v.child in s'.rows && s'.rows[v.child].user == s'.rows[pc.token].user
        && forall x | x in s'.rows && s'.rows[x].replacedBy == Some(v.child) :: x == pc.token
  {
    Reachable(s, run);
    var s' := Exec(s, run);
    var pc := s'.requests[r];
    if VerdictOf(pc).value.Issued? {
      assert Linked(s'.rows, pc.token, s'.rows[pc.token].replacedBy.value);
    }
  }

  // ---------------------------------------------------------------- reuse detection

  /**
    Once a refresh has detected reuse, then, now and in every later state, the family of the
    presented token is dead or the presented token has at least 26 successors; and a leaf it
    reports killed is a leaf of that family, at most 25 links away, dead for good.
   */
  lemma ReuseKillsTheFamily(s: State, run: seq<Label>, more: seq<Label>, r: nat)
    requires Init(s) && r in Exec(s, run).requests
    requires var v := VerdictOf(Exec(s, run).requests[r]); v.Some? && v.value.ReuseDetected?
    ensures
      var pc := Exec(s, run).requests[r];
      var rows := Exec(s, run + more).rows;
      match VerdictOf(pc).value.killed
      case Some(leaf) => KilledWithinReach(rows, pc.token, leaf) && FamilyDead(rows, pc.token)
      case None => FamilyDead(rows, pc.token) || BeyondReach(rows, pc.token)
  {
    Reachable(s, run);
    var here := Exec(s, run);
    RunEvolves(here, more);
    ExecSplits(s, run, more);
    KnowsStable(here.rows, Exec(here, more).rows, here.now, Exec(here, more).now, here.requests[r]);
  }

  lemma {:induction false} LaterExists(t: Table, id: Uuid, j: nat, k: nat)
    requires j <= k && Successor(t, id, k).Some?
    ensures Successor(t, id, j).Some?
    decreases k
  {
    if j < k {
      LaterExists(t, id, j, k - 1);
    }
  }

  lemma LinkedBeforeLeaf(t: Table, id: Uuid, k: nat, x: Uuid, d: nat)
    requires Sound(t) && k < d && Successor(t, id, k) == Some(x) && Successor(t, id, d).Some? && x in t
    ensures t[x].revokedAt.Some?
  {
    LaterExists(t, id, k + 1, d);
    assert Linked(t, x, t[x].replacedBy.value);
  }

  /** Every token of a dead family from the one named onwards is revoked. */
  lemma DeadFamilyIsRevoked(t: Table, id: Uuid, k: nat, x: Uuid)
    requires Sound(t) && FamilyDead(t, id) && Successor(t, id, k) == Some(x)
    ensures x in t && t[x].revokedAt.Some?
  {
    var d: nat, leaf :| LeafAt(t, id, d, leaf) && DeadLeaf(t, leaf);
    SuccessorExists(t, id, k);
    if d < k {
      NothingPastLeaf(t, id, d, leaf, k);
    } else if k < d {
      LinkedBeforeLeaf(t, id, k, x, d);
    }
  }

  /** The token a refresh presents. */
  function Presented(pc: Pc): Option<Uuid> {
    match pc
    case RefreshStart(token, _) => Some(token)
    case RefreshExpiry(token, _, _) => Some(token)
    case RefreshOwner(token, _, _) => Some(token)
    case RefreshRotate(token, _, _, _) => Some(token)
    case WalkRead(token, _, _, _, _) => Some(token)
    case WalkTry(token, _, _, _, _) => Some(token)
    case WalkReRead(token, _, _, _, _) => Some(token)
    case RefreshAudit(token, _, _, _) => Some(token)
    case FamilyAudit(token, _, _, _) => Some(token)
    case RefreshDone(token, _, _, _) => Some(token)
    case _ => None
  }

  predicate OnTheWayToRotate(pc: Pc) {
    pc.RefreshExpiry? || pc.RefreshOwner? || pc.RefreshRotate? || Consumed(pc).Some?
  }

  predicate ShutOut(pc: Pc, token: Uuid) {
    Presented(pc) == Some(token) ==> !OnTheWayToRotate(pc)
  }

  lemma AdvanceShutOut(t: Table, users: map<Uuid, bool>, now: Time, pc: Pc, newId: Uuid, token: Uuid)
    requires token in t && t[token].revokedAt.Some? && ShutOut(pc, token)
    ensures ShutOut(Advance(t, users, now, pc, newId).pc, token)
  {
  }

  lemma StepShutOut(s: State, l: Label, r: nat, token: Uuid)
    requires token in s.rows && s.rows[token].revokedAt.Some?
    requires r in s.requests ==> ShutOut(s.requests[r], token)
    ensures r in Step(s, l).requests ==> ShutOut(Step(s, l).requests[r], token)
  {
    if l.Go? && l.request == r && r in s.requests {
      AdvanceShutOut(s.rows, s.users, s.now, s.requests[r], l.newId, token);
    }
  }

  /** A request that starts after its token was revoked never gets to rotate it. */
  lemma {:induction false} RevokedBeforehand(here: State, more: seq<Label>, r: nat, token: Uuid)
    requires Inv(here) && r !in here.requests && token in here.rows && here.rows[token].revokedAt.Some?
    ensures r in Exec(here, more).requests ==> ShutOut(Exec(here, more).requests[r], token)
  {
    if more != [] {
      var front := more[..|more| - 1];
      RevokedBeforehand(here, front, r, token);
      RunEvolves(here, front);
      StepShutOut(Exec(here, front), more[|more| - 1], r, token);
    }
  }

  /** In a dead family no refresh that starts from then on is ever granted, whichever token it presents. */
  lemma DeadFamilyIssuesNothing(s: State, run: seq<Label>, more: seq<Label>, r: nat, token: Uuid, k: nat)
    requires Init(s) && FamilyDead(Exec(s, run).rows, token)
    requires r !in Exec(s, run).requests && r in Exec(s, run + more).requests
    requires Presented(Exec(s, run + more).requests[r]).Some?
    requires Successor(Exec(s, run).rows, token, k) == Presented(Exec(s, run + more).requests[r])
    ensures !OnTheWayToRotate(Exec(s, run + more).requests[r])
  {
    Reachable(s, run);
    ExecSplits(s, run, more);
    var presented := Presented(Exec(s, run + more).requests[r]).value;
    DeadFamilyIsRevoked(Exec(s, run).rows, token, k, presented);
    RevokedBeforehand(Exec(s, run), more, r, presented);
  }

  // ---------------------------------------------------------------- the audit trail

  predicate ConsistentRow(row: Row) {
    row.replacedBy.Some? ==> row.revokedAt.Some?
  }

  predicate ConsistentRead(read: Option<Row>, v: Verdict) {
    read.Some? ==> ConsistentRow(read.value) && (v.Refused? ==> read.value.replacedBy.None?)
  }

  predicate ConsistentSnapshot(pc: Pc) {
    match pc
    case RefreshExpiry(_, _, snapshot) => ConsistentRow(snapshot)
    case RefreshOwner(_, _, snapshot) => ConsistentRow(snapshot)
    case RefreshRotate(_, _, snapshot, _) => ConsistentRow(snapshot)
    case WalkRead(_, _, snapshot, _, _) => ConsistentRow(snapshot)
    case WalkTry(_, _, snapshot, _, _) => ConsistentRow(snapshot)
    case WalkReRead(_, _, snapshot, _, _) => ConsistentRow(snapshot)
    case RefreshAudit(_, _, read, v) => ConsistentRead(read, v)
    case FamilyAudit(_, _, read, v) => ConsistentRead(read, v)
    case RefreshDone(_, _, read, v) => ConsistentRead(read, v)
    case _ => true
  }

  lemma AdvanceReadsConsistentRow(t: Table, users: map<Uuid, bool>, now: Time, pc: Pc, newId: Uuid)
    requires Sound(t) && Knows(t, now, pc) && ConsistentSnapshot(pc)
    ensures ConsistentSnapshot(Advance(t, users, now, pc, newId).pc)
  {
    if pc.RefreshStart? && pc.token in t && t[pc.token].replacedBy.Some? {
      assert Linked(t, pc.token, t[pc.token].replacedBy.value);
    }
  }

  lemma StepReadsConsistentRow(s: State, l: Label, r: nat)
    requires Inv(s) && (r in s.requests ==> ConsistentSnapshot(s.requests[r]))
    ensures r in Step(s, l).requests ==> ConsistentSnapshot(Step(s, l).requests[r])
  {
    if l.Go? && l.request == r && r in s.requests {
      AdvanceReadsConsistentRow(s.rows, s.users, s.now, s.requests[r], l.newId);
    }
  }

  /** A row is never read with a successor but unrevoked. */
  lemma {:induction false} RefreshReadsConsistentRow(s: State, run: seq<Label>, r: nat)
    requires Init(s)
    ensures r in Exec(s, run).requests ==> ConsistentSnapshot(Exec(s, run).requests[r])
  {
    if run != [] {
      var front := run[..|run| - 1];
      RefreshReadsConsistentRow(s, front, r);
      Reachable(s, front);
      StepReadsConsistentRow(Exec(s, front), run[|run| - 1], r);
    }
  }

  /**
    A finished refresh has recorded exactly one of rotated, rejected and reuse-detected, followed by
    family-revoked exactly when it killed a leaf. Reuse is recorded exactly when the row read
    had a successor; a claim that the family was already revoked is true, or 26 links away from
    being checkable; and every outcome but the rotation answers the caller alike.
   */
  lemma RefreshAuditIsTruthful(s: State, run: seq<Label>, r: nat)
    requires Init(s) && r in Exec(s, run).requests && Exec(s, run).requests[r].RefreshDone?
    ensures
      var s' := Exec(s, run);
      var RefreshDone(token, began, read, v) := s'.requests[r];
      var trail := EventsOf(s'.log, r);
      && |trail| == (if KilledFamily(v) then 2 else 1)
      && (trail[0].action == RefreshTokenRotated <==> Answer(v) != InvalidRefreshToken)
      && (trail[0].action == RefreshTokenRejected <==>
            read.None? || (Answer(v) == InvalidRefreshToken && read.value.replacedBy.None?))
      && (trail[0].action == RefreshTokenReuseDetected <==>
            read.Some? && read.value.revokedAt.Some? && read.value.replacedBy.Some?)
      && (trail[0].action == RefreshTokenReuseDetected ==>
            && trail[0].metadata == ReuseOf(token, |trail| == 1)
            && (|trail| == 1 ==> FamilyDead(s'.rows, token) || BeyondReach(s'.rows, token)))
      && (|trail| == 2 ==>
            && trail[1].action == RefreshTokenFamilyRevoked && trail[1].target.Some?
            && KilledWithinReach(s'.rows, token, trail[1].target.value))
      && (read.Some? ==> token in s'.rows && trail[0].actor == Some(s'.rows[token].user))
  {
    Reachable(s, run);
    RefreshReadsConsistentRow(s, run, r);
  }

  lemma {:induction false} OneOfRequest(log: seq<Entry>, r: nat, i: nat)
    requires i < |log| && log[i].request == r
    ensures exists a :: 0 <= a < |EventsOf(log, r)| && EventsOf(log, r)[a] == log[i].event
  {
    var front := log[..|log| - 1];
    if i < |log| - 1 {
      OneOfRequest(front, r, i);
      var a :| 0 <= a < |EventsOf(front, r)| && EventsOf(front, r)[a] == log[i].event;
      assert EventsOf(log, r)[a] == log[i].event;
    } else {
      assert EventsOf(log, r)[|EventsOf(front, r)|] == log[i].event;
    }
  }

  lemma {:induction false} TwoOfOneRequest(log: seq<Entry>, r: nat, i: nat, j: nat)
    requires i < j < |log| && log[i].request == log[j].request == r
    ensures exists a, b :: 0 <= a < b < |EventsOf(log, r)|
              && EventsOf(log, r)[a] == log[i].event && EventsOf(log, r)[b] == log[j].event
  {
    var front := log[..|log| - 1];
    if j < |log| - 1 {
      TwoOfOneRequest(front, r, i, j);
      var a, b :| 0 <= a < b < |EventsOf(front, r)|
                  && EventsOf(front, r)[a] == log[i].event && EventsOf(front, r)[b] == log[j].event;
      assert EventsOf(log, r)[a] == log[i].event && EventsOf(log, r)[b] == log[j].event;
    } else {
      OneOfRequest(front, r, i);
      var a :| 0 <= a < |EventsOf(front, r)| && EventsOf(front, r)[a] == log[i].event;
      assert EventsOf(log, r)[a] == log[i].event && EventsOf(log, r)[|EventsOf(front, r)|] == log[j].event;
    }
  }

  /** The entry belongs to a request that killed the leaf it names. */
  lemma FamilyEntryHasKiller(s: State, i: nat)
    requires Inv(s) && i < |s.log| && s.log[i].event.action == RefreshTokenFamilyRevoked
    ensures var r := s.log[i].request;
      && r in s.requests
      && KilledLeaf(s.requests[r]).Some? && KilledLeaf(s.requests[r]) == s.log[i].event.target
      && KilledWithinReach(s.rows, s.requests[r].token, KilledLeaf(s.requests[r]).value)
  {
    OneOfRequest(s.log, s.log[i].request, i);
  }

  /** Two entries that report a family revoked never concern one family, so no family is revoked twice. */
  lemma FamilyRevokedOnce(s: State, run: seq<Label>, i: nat, j: nat, root: Uuid, m: nat, n: nat)
    requires Init(s) && i < j < |Exec(s, run).log|
    requires var log := Exec(s, run).log;
      && log[i].event.action == RefreshTokenFamilyRevoked
      && log[j].event.action == RefreshTokenFamilyRevoked
    ensures var s' := Exec(s, run);
      !(s'.log[i].event.target == Successor(s'.rows, root, m) && s'.log[j].event.target == Successor(s'.rows, root, n))
  {
    Reachable(s, run);
    AlwaysExclusive(s, run);
    var s' := Exec(s, run);
    FamilyEntryHasKiller(s', i);
    FamilyEntryHasKiller(s', j);
    var x, y := s'.log[i].event.target.value, s'.log[j].event.target.value;
    if s'.log[i].request == s'.log[j].request {
      TwoOfOneRequest(s'.log, s'.log[i].request, i, j);
    } else if Successor(s'.rows, root, m) == Some(x) && Successor(s'.rows, root, n) == Some(y) {
      LeafUnique(s'.rows, root, m, x, n, y);
    }
  }

  // ---------------------------------------------------------------- expiry

  /** When a refresh began. */
  function Began(pc: Pc): Option<Time> {
    if Presented(pc).Some? then Some(pc.began) else None
  }

  lemma AdvanceBegan(t: Table, users: map<Uuid, bool>, now: Time, pc: Pc, newId: Uuid)
    ensures Began(Advance(t, users, now, pc, newId).pc) == Began(pc)
  {
  }

  lemma StepBegan(s: State, l: Label, r: nat, since: Time)
    requires since <= s.now && (r in s.requests && Began(s.requests[r]).Some? ==> since <= Began(s.requests[r]).value)
    ensures var s' := Step(s, l);
      r in s'.requests && Began(s'.requests[r]).Some? ==> since <= Began(s'.requests[r]).value
  {
    if l.Go? && l.request == r && r in s.requests {
      AdvanceBegan(s.rows, s.users, s.now, s.requests[r], l.newId);
    }
  }

  /** A request that is not there yet will have begun no earlier than now. */
  lemma {:induction false} BeginsLater(here: State, more: seq<Label>, r: nat)
    requires Inv(here) && r !in here.requests
    ensures var later := Exec(here, more);
      r in later.requests && Began(later.requests[r]).Some? ==> here.now <= Began(later.requests[r]).value
  {
    if more != [] {
      var front := more[..|more| - 1];
      BeginsLater(here, front, r);
      RunEvolves(here, front);
      StepBegan(Exec(here, front), more[|more| - 1], r, here.now);
    }
  }

  /** A request that begins when its token has expired is not granted, however late it gets to run. */
  lemma ExpiredBeforehand(here: State, more: seq<Label>, r: nat, token: Uuid)
    requires Inv(here) && r !in here.requests && r in Exec(here, more).requests
    requires token in here.rows && here.rows[token].expiresAt <= here.now
    requires Presented(Exec(here, more).requests[r]) == Some(token)
    ensures Consumed(Exec(here, more).requests[r]).None?
  {
    RunEvolves(here, more);
    BeginsLater(here, more, r);
  }

  /**
    Expiry slides along a chain: it never decreases from a token to its successors and never exceeds
    a full lifetime from now; and once the last token of a chain has expired, no refresh that begins
    from then on is ever granted for any token of that chain.
   */
  lemma SlidingExpiry(s: State, run: seq<Label>, more: seq<Label>, r: nat, token: Uuid, k: nat)
    requires Init(s) && Successor(Exec(s, run).rows, token, k).Some?
    ensures
      var here := Exec(s, run);
      var later := Exec(s, run + more);
      var last := Successor(here.rows, token, k).value;
      && token in here.rows && last in here.rows
      && here.rows[token].expiresAt <= here.rows[last].expiresAt <= here.now + REFRESH_TTL
      && (here.rows[last].expiresAt <= here.now
          && r !in here.requests && r in later.requests && Presented(later.requests[r]) == Some(token)
          ==> Consumed(later.requests[r]).None?)
  {
    Reachable(s, run);
    ExecSplits(s, run, more);
    var here := Exec(s, run);
    AlongTheChain(here.rows, token, k);
    if here.rows[token].expiresAt <= here.now && r !in here.requests && r in Exec(here, more).requests
       && Presented(Exec(here, more).requests[r]) == Some(token) {
      ExpiredBeforehand(here, more, r, token);
    }
  }

  /**
    Once a full lifetime has passed, every token that existed before it is shut: no refresh that
    begins from then on and presents one of them is ever granted, whatever else happens.
   */
  lemma FullLifetimeShuts(s: State, run: seq<Label>, mid: seq<Label>, more: seq<Label>, r: nat)
    requires Init(s) && Exec(s, run).now + REFRESH_TTL <= Exec(s, run + mid).now
    requires r !in Exec(s, run + mid).requests && r in Exec(s, run + mid + more).requests
    requires var token := Presented(Exec(s, run + mid + more).requests[r]);
      token.Some? && token.value in Exec(s, run).rows
    ensures Consumed(Exec(s, run + mid + more).requests[r]).None?
  {
    Reachable(s, run);
    ExecSplits(s, run, mid);
    ExecSplits(s, run + mid, more);
    RunEvolves(Exec(s, run), mid);
    ExpiredBeforehand(Exec(s, run + mid), more, r, Presented(Exec(s, run + mid + more).requests[r]).value);
  }

  // ---------------------------------------------------------------- the re-read matters

  /** Three tokens in a chain, the last one live; a walk from the first has just lost the race for the second. */
  const RACED: Table := map[
    0 := Row(7, 100, Some(1), Some(1)),
    1 := Row(7, 101, Some(2), Some(2)),
    2 := Row(7, 102, None, None)]

  /**
    The guarantee rests on the re-read seeing the committed row. Given the row as it was when first
    read, the same code gives up on a family that is alive and well within reach.
   */
  lemma StaleReReadWouldMissALiveFamily()
    ensures Sound(RACED) && Live(RACED, 2)
    ensures Knows(RACED, 3, WalkReRead(0, 0, RACED[0], 0, 1))
    ensures AfterReRead(0, 0, RACED[0], 0, RowOf(RACED, 1)) == WalkRead(0, 0, RACED[0], 1, 2)
    ensures var stale := Row(7, 101, None, None);
      AfterReRead(0, 0, RACED[0], 0, Some(stale)) == RefreshAudit(0, 0, Some(RACED[0]), ReuseDetected(None))
    ensures !FamilyDead(RACED, 0) && !BeyondReach(RACED, 0)
  {
    assert Successor(RACED, 0, 0) == Some(0);
    assert Successor(RACED, 0, 1) == Some(1);
    assert Successor(RACED, 0, 2) == Some(2);
    assert LeafAt(RACED, 0, 2, 2);
    NothingPastLeaf(RACED, 0, 2, 2, MAX_FAMILY_WALK_STEPS + 1);
    if d: nat, leaf :| LeafAt(RACED, 0, d, leaf) && DeadLeaf(RACED, leaf) {
      LeafUnique(RACED, 0, 2, 2, d, leaf);
    }
  }
}
