/** The repository that owns the refresh_tokens table, one request at a time. */
module RefreshTokens {
  import opened Common
  import opened TokenTable

  /** The live leaf that a walk from `id` can get to, if there is one. */
  ghost predicate Killable(t: Table, id: Uuid, d: nat, leaf: Uuid) {
    && 1 <= d <= MAX_FAMILY_WALK_STEPS
    && LeafAt(t, id, d, leaf)
    && Live(t, leaf)
  }

  /** What a walk that nobody interferes with revokes. */
  ghost function Victim(t: Table, id: Uuid): Option<Uuid> {
    if exists d, leaf :: Killable(t, id, d, leaf) then
      var d, leaf :| Killable(t, id, d, leaf);
      Some(leaf)
    else None
  }

  /** The exact reach of a walk: the leaf dies when it is live and at most 25 links away. */
  lemma VictimOfLeaf(t: Table, id: Uuid, d: nat, leaf: Uuid)
    requires LeafAt(t, id, d, leaf) && 1 <= d
    ensures Victim(t, id) == if d <= MAX_FAMILY_WALK_STEPS && Live(t, leaf) then Some(leaf) else None
  {
    forall d', leaf' | Killable(t, id, d', leaf') ensures d' == d && leaf' == leaf {
      LeafUnique(t, id, d, leaf, d', leaf');
    }
    if d <= MAX_FAMILY_WALK_STEPS && Live(t, leaf) {
      assert Killable(t, id, d, leaf);
    }
  }

  /** The table after an undisturbed walk. */
  ghost function AfterWalk(t: Table, id: Uuid, now: Time): Table {
    if Victim(t, id).Some? then RevokedIfLive(t, Victim(t, id).value, now) else t
  }

  /**
    A walk fails closed exactly when the leaf is at most 25 links away or was revoked before; a
    longer chain, however it came about, survives the detection of its own reuse.
   */
  lemma FailsClosedExactly(t: Table, id: Uuid, d: nat, leaf: Uuid, now: Time)
    requires LeafAt(t, id, d, leaf) && 1 <= d
    ensures FamilyDead(AfterWalk(t, id, now), id) <==> d <= MAX_FAMILY_WALK_STEPS || t[leaf].revokedAt.Some?
  {
    VictimOfLeaf(t, id, d, leaf);
    var t' := AfterWalk(t, id, now);
    RevokeEvolves(t, leaf, now);
    SuccessorStable(t, t', id, d);
    assert LeafAt(t', id, d, leaf);
    if d': nat, leaf' :| LeafAt(t', id, d', leaf') && DeadLeaf(t', leaf') {
      LeafUnique(t', id, d, leaf, d', leaf');
    }
  }

  ghost predicate NoLeafWithin(t: Table, id: Uuid, k: nat) {
    forall d, leaf | 1 <= d <= k :: !LeafAt(t, id, d, leaf)
  }

  /** A walk that runs off the chain, or runs out of steps, has no victim. */
  lemma NoVictim(t: Table, id: Uuid, k: nat)
    requires NoLeafWithin(t, id, k)
    requires k >= MAX_FAMILY_WALK_STEPS || Successor(t, id, k + 1).None?
             || Successor(t, id, k + 1).value !in t
    ensures Victim(t, id).None?
  {
    if d: nat, leaf :| Killable(t, id, d, leaf) {
      assert d > k;
      if k < MAX_FAMILY_WALK_STEPS {
        EndsThere(t, id, k + 1, d);
      }
    }
  }

  lemma {:induction false} EndsThere(t: Table, id: Uuid, k: nat, d: nat)
    requires k <= d
    requires Successor(t, id, k).None? || Successor(t, id, k).value !in t
    ensures Successor(t, id, d).None? || Successor(t, id, d).value !in t
    decreases d
  {
    if k < d {
      EndsThere(t, id, k, d - 1);
    }
  }

  /** What other requests commit before each of the three database accesses of one iteration. */
  datatype Interference = Interference(
    beforeRead: seq<Write>,
    beforeUpdate: seq<Write>,
    beforeReRead: seq<Write>)
  {
    predicate Quiet() {
      beforeRead == [] && beforeUpdate == [] && beforeReRead == []
    }
  }

  /** What became of an observed leaf. */
  datatype Visit = Killed | NothingLeft | Follow(next: Uuid)

  /** What one iteration does when nobody interferes. */
  ghost predicate Undisturbed(t: Table, next: Uuid, now: Time, visit: Visit, t': Table)
    requires next in t
  {
    && visit == (if t[next].replacedBy.Some? then Follow(t[next].replacedBy.value)
                 else if Live(t, next) then Killed else NothingLeft)
    && t' == if visit.Killed? then RevokedIfLive(t, next, now) else t
  }

  lemma SoloVisit(t: Table, id: Uuid, k: nat, next: Uuid, now: Time, visit: Visit, t': Table)
    requires k < MAX_FAMILY_WALK_STEPS && NoLeafWithin(t, id, k)
    requires Successor(t, id, k + 1) == Some(next) && next in t
    requires Undisturbed(t, next, now, visit, t')
    ensures visit.Killed? ==> Victim(t, id) == Some(next)
    ensures visit.NothingLeft? ==> Victim(t, id).None?
    ensures visit.Follow? ==> NoLeafWithin(t, id, k + 1)
  {
    if !visit.Follow? {
      assert LeafAt(t, id, k + 1, next);
      VictimOfLeaf(t, id, k + 1, next);
    }
  }

  class RefreshTokenRepository {
    var rows: Table

    constructor ()
      ensures rows == map[]
    {
      rows := map[];
    }

    method Create(id: Uuid, user: Uuid, expiresAt: Time)
      requires id !in rows
      modifies this
      ensures rows == Inserted(old(rows), id, user, expiresAt)
      ensures id in rows && rows[id] == Row(user, expiresAt, None, None)
      ensures rows.Keys == old(rows).Keys + {id} && forall x | x in old(rows) :: rows[x] == old(rows)[x]
      ensures Evolves(old(rows), rows) && (old(Sound(rows)) ==> Sound(rows))
    {
      InsertEvolves(rows, id, user, expiresAt);
      rows := rows[id := Row(user, expiresAt, None, None)];
    }

    function GetById(id: Uuid): (row: Option<Row>)
      reads this
      ensures row.Some? <==> id in rows
      ensures row.Some? ==> rows[id] == row.value
    {
      if id in rows then Some(rows[id]) else None
    }

    /** The UPDATE guarded by `revoked_at IS NULL`; `count` is the number of rows it touched. */
    method RevokeWhereLive(id: Uuid, now: Time) returns (count: nat)
      modifies this
      ensures rows == RevokedIfLive(old(rows), id, now)
      ensures count == if Live(old(rows), id) then 1 else 0
      ensures count == 1 <==> id in old(rows) && old(rows)[id].revokedAt == None
      ensures count == 1 ==> id in rows && rows[id] == old(rows)[id].(revokedAt := Some(now))
      ensures count == 0 ==> rows == old(rows)
      ensures rows.Keys == old(rows).Keys && forall x | x in old(rows) && x != id :: rows[x] == old(rows)[x]
      ensures Evolves(old(rows), rows) && (old(Sound(rows)) ==> Sound(rows))
    {
      RevokeEvolves(rows, id, now);
      if id in rows && rows[id].revokedAt.None? {
        rows := rows[id := rows[id].(revokedAt := Some(now))];
        count := 1;
      } else {
        count := 0;
      }
    }

    /** Logout's write: no guard, so an earlier revocation instant is lost. */
    method Revoke(id: Uuid, now: Time)
      requires id in rows
      modifies this
      ensures rows == Overwritten(old(rows), id, now)
      ensures id in rows && rows[id] == old(rows)[id].(revokedAt := Some(now))
      ensures rows.Keys == old(rows).Keys && forall x | x in old(rows) && x != id :: rows[x] == old(rows)[x]
      ensures Evolves(old(rows), rows) && (old(Sound(rows)) ==> Sound(rows))
    {
      OverwriteEvolves(rows, id, now);
      rows := rows[id := rows[id].(revokedAt := Some(now))];
    }

    /** Rotation as one transaction; without a result nothing has changed and no child exists. */
    method CreateRotationPair(token: Uuid, child: Uuid, expiresAt: Time, now: Time) returns (created: Option<Uuid>)
      requires token in rows && child !in rows
      modifies this
      ensures rows == Rotated(old(rows), token, child, expiresAt, now)
      ensures created == if Live(old(rows), token) then Some(child) else None
      ensures created.None? ==> rows == old(rows)
      ensures created.Some? <==> old(rows)[token].revokedAt == None
      ensures created.Some? ==>
                && created.value == child && child in rows && token in rows
                && rows[child] == Row(old(rows)[token].user, expiresAt, None, None)
                && rows[token] == old(rows)[token].(revokedAt := Some(now), replacedBy := Some(child))
                && rows.Keys == old(rows).Keys + {child}
                && forall x | x in old(rows) && x != token :: rows[x] == old(rows)[x]
    {
      var count := RevokeWhereLive(token, now);
      if count == 0 {
        return None;
      }
      rows := rows[child := Row(rows[token].user, expiresAt, None, None)];
      rows := rows[token := rows[token].(replacedBy := Some(child))];
      created := Some(child);
    }

    /** Other requests commit their writes while this one waits for the database. */
    method Interleave(writes: seq<Write>)
      requires Sound(rows)
      modifies this
      ensures rows == Committed(old(rows), writes)
      ensures Sound(rows) && Evolves(old(rows), rows)
    {
      for i := 0 to |writes|
        invariant rows == Committed(old(rows), writes[..i])
        invariant Sound(rows) && Evolves(old(rows), rows)
      {
        assert writes[..i + 1][..i] == writes[..i];
        if Admissible(rows, writes[i]) {
          WriteEvolves(rows, writes[i]);
          EvolvesTransitive(old(rows), rows, Apply(rows, writes[i]));
          rows := Apply(rows, writes[i]);
        }
      }
      assert writes[..|writes|] == writes;
    }

    /** A wait that keeps a walk's place: nobody can cut the chain it has followed so far. */
    method Await(writes: seq<Write>, ghost token: Uuid, ghost k: nat)
      requires Sound(rows) && Successor(rows, token, k).Some?
      modifies this
      ensures Sound(rows) && Evolves(old(rows), rows)
      ensures Successor(rows, token, k) == old(Successor(rows, token, k))
      ensures writes == [] ==> rows == old(rows)
    {
      Interleave(writes);
      SuccessorStable(old(rows), rows, token, k);
    }

    /** The guarded kill of an observed leaf, and the re-read that explains a lost race. */
    method KillOrFollow(next: Uuid, now: Time, others: Interference, ghost token: Uuid, ghost k: nat)
      returns (visit: Visit)
      requires Sound(rows) && Successor(rows, token, k) == Some(next) && next in rows
      modifies this
      ensures Sound(rows) && Evolves(old(rows), rows)
      ensures visit.Follow? ==> Successor(rows, token, k + 1) == Some(visit.next)
      ensures !visit.Follow? ==> LeafAt(rows, token, k, next) && DeadLeaf(rows, next)
      ensures others.Quiet() && old(rows[next]).replacedBy.None? ==>
                && visit == (if old(Live(rows, next)) then Killed else NothingLeft)
                && rows == RevokedIfLive(old(rows), next, now)
    {
      Await(others.beforeUpdate, token, k);
      label updating:
      WriteEvolves(rows, RevokeLive(next, now));
      EvolvesTransitive(old(rows), rows, RevokedIfLive(rows, next, now));
      SuccessorStable(rows, RevokedIfLive(rows, next, now), token, k);
      var count := RevokeWhereLive(next, now);
      if count == 1 {
        return Killed;
      }
      Await(others.beforeReRead, token, k);
      EvolvesTransitive(old(rows), old@updating(rows), rows);
      var refreshed := GetById(next);
      if refreshed.None? || refreshed.value.replacedBy.None? {
        return NothingLeft;
      }
      return Follow(refreshed.value.replacedBy.value);
    }

    /** One iteration: read the candidate, hop over it, or try to kill it. */
    method VisitCandidate(next: Uuid, now: Time, others: Interference, ghost token: Uuid, ghost k: nat)
      returns (visit: Visit)
      requires Sound(rows) && Successor(rows, token, k) == Some(next)
      modifies this
      ensures Sound(rows) && Evolves(old(rows), rows)
      ensures visit.Follow? ==> Successor(rows, token, k + 1) == Some(visit.next)
      ensures !visit.Follow? ==> LeafAt(rows, token, k, next) && DeadLeaf(rows, next)
      ensures others.Quiet() ==> next in old(rows) && Undisturbed(old(rows), next, now, visit, rows)
    {
      SuccessorExists(rows, token, k);
      Await(others.beforeRead, token, k);
      // Rows are never deleted, so the candidate is always found.
      if rows[next].replacedBy.Some? {
        return Follow(rows[next].replacedBy.value);
      }
      label observed:
      visit := KillOrFollow(next, now, others, token, k);
      EvolvesTransitive(old(rows), old@observed(rows), rows);
    }

    /**
      The bounded walk from a superseded token. `others(n)` is what other requests commit around
      the database accesses of its n-th iteration.

      Whatever they commit, a walk that kills reports the dead leaf of the presented token's own
      family, and a walk that reports nothing leaves that family dead or is more than 25 links
      short of its end. Undisturbed, it revokes exactly its victim and nothing else.
     */
    method RevokeDescendants(token: Uuid, now: Time, others: nat -> Interference) returns (killed: Option<Uuid>)
      requires token in rows && Sound(rows)
      modifies this
      ensures Sound(rows) && Evolves(old(rows), rows)
      ensures killed.Some? ==>
                && (exists d :: 1 <= d <= MAX_FAMILY_WALK_STEPS && LeafAt(rows, token, d, killed.value))
                && DeadLeaf(rows, killed.value)
      ensures killed.None? && old(rows[token]).replacedBy.Some? ==> FamilyDead(rows, token) || BeyondReach(rows, token)
      ensures (forall n :: others(n).Quiet()) ==>
                && killed == Victim(old(rows), token)
                && rows == if killed.Some? then RevokedIfLive(old(rows), killed.value, now) else old(rows)
    {
      ghost var start := rows;
      ghost var alone := forall n :: others(n).Quiet();
      assert Successor(rows, token, 0) == Some(token);
      if rows[token].replacedBy.None? {
        NothingPastLeaf(rows, token, 0, token, 1);
        NoVictim(rows, token, 0);
        return None;
      }
      var next := rows[token].replacedBy.value;
      var spent := 0;
      while spent < MAX_FAMILY_WALK_STEPS
        invariant spent <= MAX_FAMILY_WALK_STEPS
        invariant Sound(rows) && Evolves(start, rows)
        invariant Successor(rows, token, spent + 1) == Some(next)
        invariant alone ==> rows == start && NoLeafWithin(start, token, spent)
      {
        label visiting:
        var visit := VisitCandidate(next, now, others(spent), token, spent + 1);
        EvolvesTransitive(start, old@visiting(rows), rows);
        if alone { SoloVisit(start, token, spent, next, now, visit, rows); }
        match visit
        case Killed => return Some(next);
        case NothingLeft => return None;
        case Follow(successor) =>
          next := successor;
          spent := spent + 1;
      }
      if alone { NoVictim(start, token, spent); }
      return None;
    }
  }
}
