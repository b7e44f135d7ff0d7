/**
  Which request did what: every row was created by exactly one request, every revoked row was revoked
  by exactly one request, and a request's outcome says which.
 */
module Deeds {
  import opened Common
  import opened TokenTable
  import opened AuthProtocol
  import opened AuthInvariants
  import Audit
  import opened Families

  // ---------------------------------------------------------------- outcomes

  /** The verdict of a refresh that has one. */
  function VerdictOf(pc: Pc): Option<Verdict> {
    match pc
    case RefreshAudit(_, _, _, v) => Some(v)
    case FamilyAudit(_, _, _, v) => Some(v)
    case RefreshDone(_, _, _, v) => Some(v)
    case _ => None
  }

  /** The token a request has consumed, if it won its rotation. */
  function Consumed(pc: Pc): Option<Uuid> {
    match VerdictOf(pc)
    case Some(Issued(_)) => Some(pc.token)
    case _ => None
  }

  /** The leaf a request has killed by detecting reuse. */
  function KilledLeaf(pc: Pc): Option<Uuid> {
    match VerdictOf(pc)
    case Some(ReuseDetected(killed)) => killed
    case _ => None
  }

  /** The token a logout has ended; a logout that wrote too late has ended none. */
  function EndedToken(pc: Pc): Option<Uuid> {
    match pc
    case LogoutAudit(token, _, late) => if late then None else Some(token)
    case LogoutDone(token, wrote, late) => if wrote.None? || late then None else Some(token)
    case _ => None
  }

  /** What a request, given where it stands, has done to the families. */
  function Deed(pc: Pc): Action {
    if pc.LoginDone? && pc.outcome.LoggedIn? then NewFamily(pc.user, pc.outcome.root)
    else if Consumed(pc).Some? then RotateLeaf(pc.token, VerdictOf(pc).value.child)
    else if KilledLeaf(pc).Some? then Kill(KilledLeaf(pc).value)
    else if EndedToken(pc).Some? then Kill(EndedToken(pc).value)
    else Stutter
  }

  /** The token an action creates. */
  function Made(action: Action): Option<Uuid> {
    match action
    case NewFamily(_, root) => Some(root)
    case RotateLeaf(_, child) => Some(child)
    case _ => None
  }

  /** The token an action revokes. */
  function Took(action: Action): Option<Uuid> {
    match action
    case RotateLeaf(leaf, _) => Some(leaf)
    case Kill(leaf) => Some(leaf)
    case _ => None
  }

  // ---------------------------------------------------------------- one step

  /** A request does at most one thing in its life, and its outcome records that. */
  lemma AdvanceDeed(t: Table, users: map<Uuid, bool>, now: Time, pc: Pc, newId: Uuid)
    ensures var e := Advance(t, users, now, pc, newId); var action := Meaning(t, e.write);
      if action.Stutter? then Deed(e.pc) == Deed(pc) else Deed(pc).Stutter? && Deed(e.pc) == action
  {
  }

  /** Rows are created and revoked by the action a write means, and by nothing else. */
  lemma WriteDoes(t: Table, w: Write, id: Uuid)
    requires Admissible(t, w)
    ensures var t' := Apply(t, w); var action := Meaning(t, w);
      && (id in t' <==> id in t || Made(action) == Some(id))
      && (id in t' && t'[id].revokedAt.Some? <==> (id in t && t[id].revokedAt.Some?) || Took(action) == Some(id))
  {
  }

  /** What a request has done still shows in the table. */
  lemma DeedShows(t: Table, now: Time, pc: Pc)
    requires Sound(t) && Knows(t, now, pc)
    ensures match Deed(pc)
      case Stutter => true
      case NewFamily(user, root) => root in t && t[root].user == user
      case RotateLeaf(leaf, child) => leaf in t && child in t && t[leaf].replacedBy == Some(child) && t[leaf].revokedAt.Some?
      case Kill(leaf) => DeadLeaf(t, leaf)
  {
    if Consumed(pc).Some? {
      assert Linked(t, pc.token, VerdictOf(pc).value.child);
    }
  }

  predicate Disjoint(a: Action, b: Action) {
    && (Made(a).Some? ==> Made(a) != Made(b))
    && (Took(a).Some? ==> Took(a) != Took(b))
  }

  /** A new deed concerns a token nobody has made yet, or one that nobody has revoked yet. */
  lemma NewDeedIsFirst(t: Table, users: map<Uuid, bool>, now: Time, pc: Pc, newId: Uuid, other: Pc)
    requires Sound(t) && Knows(t, now, pc) && Knows(t, now, other)
    ensures var action := Meaning(t, Advance(t, users, now, pc, newId).write);
      Disjoint(action, Deed(other)) && Disjoint(Deed(other), action)
  {
    DeedShows(t, now, other);
  }

  ghost predicate Exclusive(requests: map<nat, Pc>) {
    forall q, r | q in requests && r in requests && q != r :: Disjoint(Deed(requests[q]), Deed(requests[r]))
  }

  lemma MovedExclusive(requests: map<nat, Pc>, r: nat, pc: Pc)
    requires Exclusive(requests)
    requires forall q | q in requests && q != r ::
               Disjoint(Deed(pc), Deed(requests[q])) && Disjoint(Deed(requests[q]), Deed(pc))
    ensures Exclusive(requests[r := pc])
  {
  }

  lemma AdvanceDisjoint(s: State, r: nat, newId: Uuid, q: nat)
    requires Inv(s) && Exclusive(s.requests) && r in s.requests && q in s.requests && q != r
    ensures var pc := Advance(s.rows, s.users, s.now, s.requests[r], newId).pc;
      Disjoint(Deed(pc), Deed(s.requests[q])) && Disjoint(Deed(s.requests[q]), Deed(pc))
  {
    AdvanceDeed(s.rows, s.users, s.now, s.requests[r], newId);
    NewDeedIsFirst(s.rows, s.users, s.now, s.requests[r], newId, s.requests[q]);
  }

  lemma GoExclusive(s: State, r: nat, newId: Uuid)
    requires Inv(s) && Exclusive(s.requests) && r in s.requests
    ensures Exclusive(Step(s, Go(r, newId)).requests)
  {
    var pc := Advance(s.rows, s.users, s.now, s.requests[r], newId).pc;
    forall q | q in s.requests && q != r
      ensures Disjoint(Deed(pc), Deed(s.requests[q])) && Disjoint(Deed(s.requests[q]), Deed(pc))
    {
      AdvanceDisjoint(s, r, newId, q);
    }
    MovedExclusive(s.requests, r, pc);
  }

  lemma BeginExclusive(s: State, r: nat, call: Call)
    requires Exclusive(s.requests)
    ensures Exclusive(Step(s, Begin(r, call)).requests)
  {
    if r !in s.requests {
      assert Deed(Start(call, s.now)) == Stutter;
      MovedExclusive(s.requests, r, Start(call, s.now));
    }
  }

  lemma StepExclusive(s: State, l: Label)
    requires Inv(s) && Exclusive(s.requests)
    ensures Exclusive(Step(s, l).requests)
  {
    match l
    case Begin(r, call) => BeginExclusive(s, r, call);
    case Go(r, newId) => if r in s.requests { GoExclusive(s, r, newId); }
    case _ =>
  }

  /** No two requests have made the same token, and no two have revoked the same token. */
  lemma {:induction false} AlwaysExclusive(s: State, run: seq<Label>)
    requires Init(s)
    ensures Exclusive(Exec(s, run).requests)
  {
    if run != [] {
      AlwaysExclusive(s, run[..|run| - 1]);
      Reachable(s, run[..|run| - 1]);
      StepExclusive(Exec(s, run[..|run| - 1]), run[|run| - 1]);
    }
  }

  // ---------------------------------------------------------------- every row has its maker and its revoker

  /** A deed once done stays the deed of its request; the step of `l.request` adds the action it performs. */
  lemma StepDeed(s: State, l: Label, r: nat)
    requires r in s.requests
    ensures r in Step(s, l).requests
    ensures !Deed(s.requests[r]).Stutter? ==> Deed(Step(s, l).requests[r]) == Deed(s.requests[r])
    ensures l.Go? && l.request == r && !ActionOf(s, l).Stutter? ==> Deed(Step(s, l).requests[r]) == ActionOf(s, l)
  {
    if l.Go? && l.request == r {
      AdvanceDeed(s.rows, s.users, s.now, s.requests[r], l.newId);
    }
  }

  lemma StepDoes(s: State, l: Label, id: Uuid)
    requires Inv(s)
    ensures var s' := Step(s, l);
      && (id in s'.rows <==> id in s.rows || Made(ActionOf(s, l)) == Some(id))
      && (id in s'.rows && s'.rows[id].revokedAt.Some?
          <==> (id in s.rows && s.rows[id].revokedAt.Some?) || Took(ActionOf(s, l)) == Some(id))
  {
    if l.Go? && l.request in s.requests {
      var pc := s.requests[l.request];
      AdvanceAdmissible(s.rows, s.users, s.now, pc, l.newId);
      WriteDoes(s.rows, Advance(s.rows, s.users, s.now, pc, l.newId).write, id);
    }
  }

  ghost predicate OnlyMaker(requests: map<nat, Pc>, id: Uuid, r: nat) {
    && r in requests && Made(Deed(requests[r])) == Some(id)
    && forall q | q in requests && Made(Deed(requests[q])) == Some(id) :: q == r
  }

  ghost predicate OnlyRevoker(requests: map<nat, Pc>, id: Uuid, r: nat) {
    && r in requests && Took(Deed(requests[r])) == Some(id)
    && forall q | q in requests && Took(Deed(requests[q])) == Some(id) :: q == r
  }

  /** No row is an orphan: exactly one login or refresh created it and reports it as its result. */
  lemma {:induction false} EveryRowIsReported(s: State, run: seq<Label>, id: Uuid) returns (r: nat)
    requires Init(s) && id in Exec(s, run).rows
    ensures OnlyMaker(Exec(s, run).requests, id, r)
  {
    var front, l := run[..|run| - 1], run[|run| - 1];
    var mid := Exec(s, front);
    Reachable(s, front);
    StepDoes(mid, l, id);
    if id in mid.rows {
      r := EveryRowIsReported(s, front, id);
    } else {
      r := l.request;
    }
    StepDeed(mid, l, r);
    AlwaysExclusive(s, run);
  }

  /** Every revoked row was revoked by exactly one request: the one that rotated, killed or ended it. */
  lemma {:induction false} EveryRevocationHasItsCause(s: State, run: seq<Label>, id: Uuid) returns (r: nat)
    requires Init(s) && id in Exec(s, run).rows && Exec(s, run).rows[id].revokedAt.Some?
    ensures OnlyRevoker(Exec(s, run).requests, id, r)
    ensures Deed(Exec(s, run).requests[r]).RotateLeaf? <==> Exec(s, run).rows[id].replacedBy.Some?
  {
    var front, l := run[..|run| - 1], run[|run| - 1];
    var mid := Exec(s, front);
    Reachable(s, front);
    StepDoes(mid, l, id);
    if id in mid.rows && mid.rows[id].revokedAt.Some? {
      r := EveryRevocationHasItsCause(s, front, id);
    } else {
      r := l.request;
    }
    StepDeed(mid, l, r);
    AlwaysExclusive(s, run);
    Reachable(s, run);
    DeedShows(Exec(s, run).rows, Exec(s, run).now, Exec(s, run).requests[r]);
  }

  // ---------------------------------------------------------------- what a revoked row means

  ghost predicate RotatedAway(requests: map<nat, Pc>, id: Uuid) {
    exists q :: q in requests && Consumed(requests[q]) == Some(id)
  }

  ghost predicate KilledByWalk(requests: map<nat, Pc>, id: Uuid) {
    exists q :: q in requests && KilledLeaf(requests[q]) == Some(id)
  }

  ghost predicate EndedByLogout(requests: map<nat, Pc>, id: Uuid) {
    exists q :: q in requests && EndedToken(requests[q]) == Some(id)
  }

  /** A revoked row was rotated away, killed by a walk or ended by a logout: exactly one of the three. */
  lemma RevokedInOneWay(s: State, run: seq<Label>, id: Uuid)
    requires Init(s) && id in Exec(s, run).rows
    ensures var s' := Exec(s, run);
      var rotated, killed, ended := RotatedAway(s'.requests, id), KilledByWalk(s'.requests, id), EndedByLogout(s'.requests, id);
      && (s'.rows[id].revokedAt.Some? <==> rotated || killed || ended)
      && (s'.rows[id].replacedBy.Some? <==> rotated)
      && (DeadLeaf(s'.rows, id) <==> killed || ended)
      && !(killed && ended)
  {
    var s' := Exec(s, run);
    Reachable(s, run);
    AlwaysExclusive(s, run);
    forall q | q in s'.requests && Took(Deed(s'.requests[q])) == Some(id)
      ensures s'.rows[id].revokedAt.Some?
      ensures s'.rows[id].replacedBy.Some? <==> Consumed(s'.requests[q]) == Some(id)
    {
      DeedShows(s'.rows, s'.now, s'.requests[q]);
    }
    assert s'.rows[id].replacedBy.Some? ==> Linked(s'.rows, id, s'.rows[id].replacedBy.value);
    if s'.rows[id].revokedAt.Some? {
      var r := EveryRevocationHasItsCause(s, run, id);
      assert Took(Deed(s'.requests[r])) == Some(id);
    }
    WaysOfTaking(s'.requests, id);
  }

  /** The three ways are read off the deeds. */
  lemma WaysOfTaking(requests: map<nat, Pc>, id: Uuid)
    requires Exclusive(requests)
    ensures forall q | q in requests ::
      Took(Deed(requests[q])) == Some(id)
      <==> Consumed(requests[q]) == Some(id) || KilledLeaf(requests[q]) == Some(id) || EndedToken(requests[q]) == Some(id)
    ensures !(KilledByWalk(requests, id) && EndedByLogout(requests, id))
  {
  }

  /** A logout's write lands in the middle of a chain exactly when some refresh has won that token first. */
  lemma MidChainExactly(s: State, run: seq<Label>, r: nat, newId: Uuid)
    requires Init(s) && r in Exec(s, run).requests && Exec(s, run).requests[r].LogoutWrite?
    ensures var here := Exec(s, run); var token := here.requests[r].token;
      var written := Step(here, Go(r, newId)).rows;
      token in written && written[token].revokedAt == Some(here.now)
      && (written[token].replacedBy.Some? <==> RotatedAway(here.requests, token))
  {
    Reachable(s, run);
    LogoutStepWrites(Exec(s, run), r, newId);
    RevokedInOneWay(s, run, Exec(s, run).requests[r].token);
  }

  lemma LogoutStepWrites(here: State, r: nat, newId: Uuid)
    requires Inv(here) && r in here.requests && here.requests[r].LogoutWrite?
    ensures var token := here.requests[r].token; var written := Step(here, Go(r, newId)).rows;
      token in here.rows && token in written && written[token].revokedAt == Some(here.now)
      && written[token].replacedBy == here.rows[token].replacedBy
  {
    assert Knows(here.rows, here.now, here.requests[r]);
  }

  /**
    What a refresh records as an ordinary revoked token was ended by a logout exactly when no walk
    killed it; and it was one of the two.
   */
  lemma RevokedMeansLoggedOutExactly(s: State, run: seq<Label>, r: nat)
    requires Init(s) && r in Exec(s, run).requests
    requires VerdictOf(Exec(s, run).requests[r]) == Some(Refused(Audit.RevokedToken))
    ensures var here := Exec(s, run); var token := here.requests[r].token;
      EndedByLogout(here.requests, token) <==> !KilledByWalk(here.requests, token)
  {
    Reachable(s, run);
    RevokedInOneWay(s, run, Exec(s, run).requests[r].token);
  }

  // ---------------------------------------------------------------- what each request wrote

  /** A write that a request committed, and what it meant at that moment. */
  datatype Commit = Commit(write: Write, action: Action)

  /** The writes that request `r` committed along a run. */
  function CommitsOf(s: State, run: seq<Label>, r: nat): seq<Commit> {
    if run == [] then []
    else
      var l := run[|run| - 1];
      var mid := Exec(s, run[..|run| - 1]);
      var w := if l.Go? && l.request == r && r in mid.requests
               then Advance(mid.rows, mid.users, mid.now, mid.requests[r], l.newId).write
               else NoWrite;
      CommitsOf(s, run[..|run| - 1], r) + (if w.NoWrite? then [] else [Commit(w, Meaning(mid.rows, w))])
  }

  /** The statement that a write came from. */
  predicate IssuedBy(pc: Pc, w: Write) {
    match w
    case NoWrite => false
    case Insert(_, _, _) => pc.LoginDone?
    case Rotate(_, _, _, _) => Consumed(pc).Some?
    case RevokeLive(_, _) => KilledLeaf(pc).Some?
    case Overwrite(id, _) => (pc.LogoutAudit? || pc.LogoutDone?) && pc.token == id
  }

  predicate Accounts(pc: Pc, commits: seq<Commit>) {
    if Deed(pc).Stutter? && !WroteLate(pc) then commits == []
    else |commits| == 1 && commits[0].action == Deed(pc) && IssuedBy(pc, commits[0].write)
  }

  lemma AdvanceAccounts(t: Table, users: map<Uuid, bool>, now: Time, pc: Pc, newId: Uuid, commits: seq<Commit>)
    requires Accounts(pc, commits)
    ensures var e := Advance(t, users, now, pc, newId);
      Accounts(e.pc, commits + if e.write.NoWrite? then [] else [Commit(e.write, Meaning(t, e.write))])
  {
    var e := Advance(t, users, now, pc, newId);
    assert commits + [] == commits;
    assert !e.write.NoWrite? ==> commits == [];
  }

  /**
    Each request has committed exactly the write its outcome reports, and that write had the reported
    effect: new tokens if and only if its own step rotated the live presented token to them, a killed
    leaf if and only if its own step killed that live leaf; any other verdict wrote nothing.
   */
  lemma {:induction false} OutcomeIsWhatWasWritten(s: State, run: seq<Label>, r: nat)
    requires Init(s)
    ensures var requests := Exec(s, run).requests;
      if r in requests then Accounts(requests[r], CommitsOf(s, run, r)) else CommitsOf(s, run, r) == []
  {
    if run != [] {
      var front, l := run[..|run| - 1], run[|run| - 1];
      OutcomeIsWhatWasWritten(s, front, r);
      var mid := Exec(s, front);
      if l.Go? && l.request == r && r in mid.requests {
        AdvanceAccounts(mid.rows, mid.users, mid.now, mid.requests[r], l.newId, CommitsOf(s, front, r));
      }
    }
  }
}
