/** What every interleaving of logins, refreshes and logouts keeps, and what it means for each request. */
module AuthInvariants {
  import opened Common
  import opened Audit
  import opened TokenTable
  import opened AuthProtocol

  // ---------------------------------------------------------------- knowledge survives interference

  lemma TruthfulStable(t: Table, t': Table, now: Time, now': Time, token: Uuid, began: Time, read: Option<Row>, v: Verdict)
    requires Evolves(t, t') && now <= now'
    requires Truthful(t, now, token, began, read, v)
    ensures Truthful(t', now', token, began, read, v)
  {
    if KilledFamily(v) {
      var d :| 1 <= d <= MAX_FAMILY_WALK_STEPS && LeafAt(t, token, d, v.killed.value);
      SuccessorStable(t, t', token, d);
      assert LeafAt(t', token, d, v.killed.value);
    } else if v.ReuseDetected? {
      if FamilyDead(t, token) { FamilyDeadStable(t, t', token); }
      else { BeyondReachStable(t, t', token); }
    }
  }

  /** Nothing another request commits can invalidate what a request has established. */
  lemma KnowsStable(t: Table, t': Table, now: Time, now': Time, pc: Pc)
    requires Evolves(t, t') && now <= now' && Knows(t, now, pc)
    ensures Knows(t', now', pc)
  {
    match pc
    case WalkRead(token, _, _, spent, _) => SuccessorStable(t, t', token, spent + 1);
    case WalkTry(token, _, _, spent, _) => SuccessorStable(t, t', token, spent + 1);
    case WalkReRead(token, _, _, spent, _) => SuccessorStable(t, t', token, spent + 1);
    case RefreshAudit(token, began, read, v) => TruthfulStable(t, t', now, now', token, began, read, v);
    case FamilyAudit(token, began, read, v) => TruthfulStable(t, t', now, now', token, began, read, v);
    case RefreshDone(token, began, read, v) => TruthfulStable(t, t', now, now', token, began, read, v);
    case _ =>
  }

  // ---------------------------------------------------------------- one step of one request

  lemma AdvanceAdmissible(t: Table, users: map<Uuid, bool>, now: Time, pc: Pc, newId: Uuid)
    requires Sound(t) && Bounded(t, now) && Knows(t, now, pc)
    ensures
      var w := Advance(t, users, now, pc, newId).write;
      Admissible(t, w) && Sound(Apply(t, w)) && Evolves(t, Apply(t, w)) && Bounded(Apply(t, w), now)
  {
    WriteEvolves(t, Advance(t, users, now, pc, newId).write);
  }

  lemma NextIterationKnows(t: Table, now: Time, token: Uuid, began: Time, snapshot: Row, spent: nat, next: Uuid, successor: Uuid)
    requires Walking(t, token, snapshot, spent, next) && next in t && t[next].replacedBy == Some(successor)
    ensures Knows(t, now, NextIteration(token, began, snapshot, spent, successor))
  {
    assert Successor(t, token, spent + 2) == Some(successor);
  }

  lemma KillKnows(t: Table, now: Time, token: Uuid, began: Time, snapshot: Row, spent: nat, next: Uuid)
    requires Sound(t) && Walking(t, token, snapshot, spent, next) && Live(t, next)
    ensures Knows(RevokedIfLive(t, next, now), now, RefreshAudit(token, began, Some(snapshot), ReuseDetected(Some(next))))
  {
    var t' := RevokedIfLive(t, next, now);
    RevokeEvolves(t, next, now);
    SuccessorStable(t, t', token, spent + 1);
    assert LeafAt(t', token, spent + 1, next);
    assert DeadLeaf(t', next);
  }

  lemma WalkStepKnows(t: Table, users: map<Uuid, bool>, now: Time, pc: Pc, newId: Uuid)
    requires Sound(t) && Knows(t, now, pc)
    requires pc.WalkRead? || pc.WalkTry? || pc.WalkReRead?
    ensures
      var e := Advance(t, users, now, pc, newId);
      Knows(Apply(t, e.write), now, e.pc)
  {
    var token, spent, next := pc.token, pc.spent, pc.next;
    SuccessorExists(t, token, spent + 1);
    if pc.WalkTry? {
      if Live(t, next) { KillKnows(t, now, token, pc.began, pc.snapshot, spent, next); }
    } else if t[next].replacedBy.Some? {
      NextIterationKnows(t, now, token, pc.began, pc.snapshot, spent, next, t[next].replacedBy.value);
    } else if pc.WalkReRead? {
      assert LeafAt(t, token, spent + 1, next) && DeadLeaf(t, next);
    }
  }

  lemma ReadPresentedKnows(t: Table, now: Time, token: Uuid, began: Time)
    requires Sound(t) && began <= now
    ensures Knows(t, now, ReadPresented(t, token, began))
  {
    if token in t && t[token].replacedBy.Some? {
      assert Successor(t, token, 0) == Some(token);
      assert Successor(t, token, 1) == t[token].replacedBy;
    }
  }

  lemma RotateKnows(t: Table, users: map<Uuid, bool>, now: Time, pc: Pc, newId: Uuid)
    requires Sound(t) && Knows(t, now, pc) && pc.RefreshRotate?
    ensures
      var e := Advance(t, users, now, pc, newId);
      Knows(Apply(t, e.write), now, e.pc)
  {
  }

  lemma AdvanceKnows(t: Table, users: map<Uuid, bool>, now: Time, pc: Pc, newId: Uuid)
    requires Sound(t) && Bounded(t, now) && Knows(t, now, pc)
    ensures
      var e := Advance(t, users, now, pc, newId);
      Knows(Apply(t, e.write), now, e.pc)
  {
    match pc
    case RefreshStart(token, began) => ReadPresentedKnows(t, now, token, began);
    case RefreshRotate(_, _, _, _) => RotateKnows(t, users, now, pc, newId);
    case WalkRead(_, _, _, _, _) => WalkStepKnows(t, users, now, pc, newId);
    case WalkTry(_, _, _, _, _) => WalkStepKnows(t, users, now, pc, newId);
    case WalkReRead(_, _, _, _, _) => WalkStepKnows(t, users, now, pc, newId);
    case _ =>
  }

  /** What a step records is exactly what its new program point has to show for. */
  lemma AdvanceTrail(t: Table, users: map<Uuid, bool>, now: Time, pc: Pc, newId: Uuid)
    requires Knows(t, now, pc)
    ensures var e := Advance(t, users, now, pc, newId); Trail(e.pc) == Trail(pc) + e.events
  {
  }

  // ---------------------------------------------------------------- the log, request by request

  lemma {:induction false} EventsOfAppend(a: seq<Entry>, b: seq<Entry>, r: nat)
    ensures EventsOf(a + b, r) == EventsOf(a, r) + EventsOf(b, r)
  {
    if b == [] {
      assert a + b == a;
    } else {
      EventsOfAppend(a, b[..|b| - 1], r);
      assert (a + b)[..|a + b| - 1] == a + b[..|b| - 1];
    }
  }

  lemma {:induction false} EventsOfTagged(q: nat, events: seq<Event>, r: nat)
    ensures EventsOf(Tagged(q, events), r) == if q == r then events else []
  {
    if events != [] {
      EventsOfTagged(q, events[..|events| - 1], r);
      assert Tagged(q, events)[..|events| - 1] == Tagged(q, events[..|events| - 1]);
    }
  }

  // ---------------------------------------------------------------- every step, every run

  lemma StepEvolves(s: State, l: Label)
    requires Inv(s)
    ensures Evolves(s.rows, Step(s, l).rows) && s.now <= Step(s, l).now
    ensures Sound(Step(s, l).rows) && Bounded(Step(s, l).rows, Step(s, l).now)
  {
    if l.Go? && l.request in s.requests {
      AdvanceAdmissible(s.rows, s.users, s.now, s.requests[l.request], l.newId);
    }
  }

  lemma StepKnows(s: State, l: Label)
    requires Inv(s)
    ensures var s' := Step(s, l); forall r | r in s'.requests :: Knows(s'.rows, s'.now, s'.requests[r])
  {
    var s' := Step(s, l);
    StepEvolves(s, l);
    forall r | r in s'.requests ensures Knows(s'.rows, s'.now, s'.requests[r]) {
      if l.Go? && l.request == r {
        AdvanceKnows(s.rows, s.users, s.now, s.requests[r], l.newId);
      } else if r in s.requests {
        KnowsStable(s.rows, s'.rows, s.now, s'.now, s.requests[r]);
      }
    }
  }

  lemma GoLog(s: State, q: nat, newId: Uuid, r: nat)
    requires Inv(s) && q in s.requests
    ensures EventsOf(Step(s, Go(q, newId)).log, r)
         == EventsOf(s.log, r) + (if q == r then Advance(s.rows, s.users, s.now, s.requests[q], newId).events else [])
  {
    var events := Advance(s.rows, s.users, s.now, s.requests[q], newId).events;
    EventsOfAppend(s.log, Tagged(q, events), r);
    EventsOfTagged(q, events, r);
  }

  lemma StepLogOf(s: State, l: Label, r: nat)
    requires Inv(s)
    ensures var s' := Step(s, l); EventsOf(s'.log, r) == if r in s'.requests then Trail(s'.requests[r]) else []
  {
    if l.Go? && l.request in s.requests {
      GoLog(s, l.request, l.newId, r);
      if l.request == r {
        AdvanceTrail(s.rows, s.users, s.now, s.requests[r], l.newId);
      }
    } else if l.Begin? {
      assert Trail(Start(l.call, s.now)) == [];
    }
  }

  lemma StepLog(s: State, l: Label)
    requires Inv(s)
    ensures var s' := Step(s, l);
      forall r :: EventsOf(s'.log, r) == if r in s'.requests then Trail(s'.requests[r]) else []
  {
    forall r: nat
      ensures EventsOf(Step(s, l).log, r) == if r in Step(s, l).requests then Trail(Step(s, l).requests[r]) else []
    {
      StepLogOf(s, l, r);
    }
  }

  lemma StepInv(s: State, l: Label)
    requires Inv(s)
    ensures Inv(Step(s, l))
  {
    StepEvolves(s, l);
    StepKnows(s, l);
    StepLog(s, l);
  }

  /** Every reachable state satisfies the invariant. */
  lemma {:induction false} Reachable(s: State, run: seq<Label>)
    requires Init(s)
    ensures Inv(Exec(s, run))
  {
    if run != [] {
      Reachable(s, run[..|run| - 1]);
      StepInv(Exec(s, run[..|run| - 1]), run[|run| - 1]);
    }
  }

  /** Over any further run links, owners and expiries are write-once and death is final. */
  lemma {:induction false} RunEvolves(s: State, run: seq<Label>)
    requires Inv(s)
    ensures Inv(Exec(s, run)) && Evolves(s.rows, Exec(s, run).rows) && s.now <= Exec(s, run).now
  {
    if run != [] {
      var mid := Exec(s, run[..|run| - 1]);
      RunEvolves(s, run[..|run| - 1]);
      StepInv(mid, run[|run| - 1]);
      StepEvolves(mid, run[|run| - 1]);
      EvolvesTransitive(s.rows, mid.rows, Step(mid, run[|run| - 1]).rows);
    }
  }
}
