/** The refresh_tokens table as a value: the writes the repository issues, and how a table may evolve under them. */
module TokenTable {
  import opened Common

  /** A row. A token string, its hash and its row are identified, so a row carries no hash. */
  datatype Row = Row(user: Uuid, expiresAt: Time, revokedAt: Option<Time>, replacedBy: Option<Uuid>)

  type Table = map<Uuid, Row>

  /** The hard bound on the iterations of a family walk. */
  const MAX_FAMILY_WALK_STEPS: nat := 25

  predicate Live(t: Table, id: Uuid) {
    id in t && t[id].revokedAt.None?
  }

  /** Revoked without a successor: by a logout, or by a family walk. */
  predicate DeadLeaf(t: Table, id: Uuid) {
    id in t && t[id].revokedAt.Some? && t[id].replacedBy.None?
  }

  // ---------------------------------------------------------------- writes

  function Inserted(t: Table, id: Uuid, user: Uuid, expiresAt: Time): Table {
    t[id := Row(user, expiresAt, None, None)]
  }

  /** The guarded UPDATE: it touches the row only when that is still unrevoked. */
  function RevokedIfLive(t: Table, id: Uuid, now: Time): Table {
    if Live(t, id) then t[id := t[id].(revokedAt := Some(now))] else t
  }

  /** The unguarded UPDATE that logout issues. */
  function Overwritten(t: Table, id: Uuid, now: Time): Table {
    if id in t then t[id := t[id].(revokedAt := Some(now))] else t
  }

  /** One committed rotation: guard, insertion and link, or nothing at all. */
  function Rotated(t: Table, id: Uuid, child: Uuid, expiresAt: Time, now: Time): Table {
    if Live(t, id) then
      t[id := t[id].(revokedAt := Some(now), replacedBy := Some(child))]
       [child := Row(t[id].user, expiresAt, None, None)]
    else t
  }

  // ---------------------------------------------------------------- chains

  /** The token reached from `id` by following `k` successor links. */
  ghost function Successor(t: Table, id: Uuid, k: nat): Option<Uuid> {
    if k == 0 then if id in t then Some(id) else None
    else match Successor(t, id, k - 1)
      case None => None
      case Some(x) => if x in t then t[x].replacedBy else None
  }

  /** The unbounded notion of leaf: `leaf` is `d` links past `id` and has no successor itself. */
  ghost predicate LeafAt(t: Table, id: Uuid, d: nat, leaf: Uuid) {
    Successor(t, id, d) == Some(leaf) && leaf in t && t[leaf].replacedBy.None?
  }

  /** The family of `id` has been killed: the end of its chain is revoked. */
  ghost predicate FamilyDead(t: Table, id: Uuid) {
    exists d, leaf :: LeafAt(t, id, d, leaf) && DeadLeaf(t, leaf)
  }

  /** The presented token has been superseded so often that a bounded walk cannot get to the end. */
  ghost predicate BeyondReach(t: Table, id: Uuid) {
    Successor(t, id, MAX_FAMILY_WALK_STEPS + 1).Some?
  }

  /** What every committed table satisfies. */
  ghost predicate Sound(t: Table) {
    && (forall id | id in t && t[id].replacedBy.Some? :: Linked(t, id, t[id].replacedBy.value))
    && (forall x, y | x in t && y in t && t[x].replacedBy.Some? && t[x].replacedBy == t[y].replacedBy :: x == y)
  }

  ghost predicate Linked(t: Table, id: Uuid, child: Uuid)
    requires id in t
  {
    && child in t
    && t[id].revokedAt.Some?
    && t[child].user == t[id].user
    && t[id].expiresAt <= t[child].expiresAt
  }

  /** How one table may follow another, however many requests ran in between. */
  ghost predicate Evolves(t: Table, t': Table) {
    && t.Keys <= t'.Keys
    && forall id | id in t ::
         && t'[id].user == t[id].user
         && t'[id].expiresAt == t[id].expiresAt
         && (t[id].revokedAt.Some? ==> t'[id].revokedAt.Some?)
         && (t[id].replacedBy.Some? ==> t'[id].replacedBy == t[id].replacedBy)
         && (DeadLeaf(t, id) ==> DeadLeaf(t', id))
  }

  lemma EvolvesTransitive(a: Table, b: Table, c: Table)
    requires Evolves(a, b) && Evolves(b, c)
    ensures Evolves(a, c)
  {
    forall id | id in a
      ensures c[id].user == a[id].user && c[id].expiresAt == a[id].expiresAt
      ensures a[id].revokedAt.Some? ==> c[id].revokedAt.Some?
      ensures a[id].replacedBy.Some? ==> c[id].replacedBy == a[id].replacedBy
      ensures DeadLeaf(a, id) ==> DeadLeaf(c, id)
    {
      assert id in b;
    }
  }

  lemma InsertEvolves(t: Table, id: Uuid, user: Uuid, expiresAt: Time)
    requires id !in t
    ensures Evolves(t, Inserted(t, id, user, expiresAt))
    ensures Sound(t) ==> Sound(Inserted(t, id, user, expiresAt))
  {
  }

  lemma RevokeEvolves(t: Table, id: Uuid, now: Time)
    ensures Evolves(t, RevokedIfLive(t, id, now))
    ensures Sound(t) ==> Sound(RevokedIfLive(t, id, now))
  {
  }

  /** The guard lets one write through: whatever is committed after it, no later guarded write or rotation wins. */
  lemma GuardWinsOnce(t: Table, later: Table, id: Uuid, child: Uuid, expiresAt: Time, now: Time, again: Time)
    requires id in t && Evolves(RevokedIfLive(t, id, now), later)
    ensures RevokedIfLive(later, id, again) == later && Rotated(later, id, child, expiresAt, again) == later
  {
    assert RevokedIfLive(t, id, now)[id].revokedAt.Some?;
  }

  /** Even a logout that overwrites a row rotated since it was read keeps every link. */
  lemma OverwriteEvolves(t: Table, id: Uuid, now: Time)
    ensures Evolves(t, Overwritten(t, id, now))
    ensures Sound(t) ==> Sound(Overwritten(t, id, now))
  {
  }

  lemma RotateEvolves(t: Table, id: Uuid, child: Uuid, expiresAt: Time, now: Time)
    requires Sound(t) && child !in t
    requires id in t ==> t[id].expiresAt <= expiresAt
    ensures Evolves(t, Rotated(t, id, child, expiresAt, now))
    ensures Sound(Rotated(t, id, child, expiresAt, now))
  {
    var t' := Rotated(t, id, child, expiresAt, now);
    if Live(t, id) {
      assert t[id].replacedBy.None?;
      forall x | x in t' && t'[x].replacedBy.Some?
        ensures Linked(t', x, t'[x].replacedBy.value)
      {
        if x != id {
          assert Linked(t, x, t[x].replacedBy.value);
        }
      }
      forall x, y | x in t' && y in t' && t'[x].replacedBy.Some? && t'[x].replacedBy == t'[y].replacedBy
        ensures x == y
      {
        if x != id { assert Linked(t, x, t[x].replacedBy.value); }
        if y != id { assert Linked(t, y, t[y].replacedBy.value); }
      }
    }
  }

  /** A committed write, as any request may issue it. */
  datatype Write =
    | NoWrite
    | Insert(id: Uuid, user: Uuid, expiresAt: Time)
    | Rotate(id: Uuid, child: Uuid, expiresAt: Time, at: Time)
    | RevokeLive(id: Uuid, at: Time)
    | Overwrite(id: Uuid, at: Time)

  function Apply(t: Table, w: Write): Table {
    match w
    case NoWrite => t
    case Insert(id, user, expiresAt) => Inserted(t, id, user, expiresAt)
    case Rotate(id, child, expiresAt, at) => Rotated(t, id, child, expiresAt, at)
    case RevokeLive(id, at) => RevokedIfLive(t, id, at)
    case Overwrite(id, at) => Overwritten(t, id, at)
  }

  /** New keys are fresh, and a replacement does not expire before what it replaces. */
  predicate Admissible(t: Table, w: Write) {
    match w
    case Insert(id, _, _) => id !in t
    case Rotate(id, child, expiresAt, _) => child !in t && (id in t ==> t[id].expiresAt <= expiresAt)
    case _ => true
  }

  /** Writes committed one after another; one that breaks a constraint is rolled back. */
  function Committed(t: Table, writes: seq<Write>): Table {
    if writes == [] then t
    else
      var before := Committed(t, writes[..|writes| - 1]);
      var w := writes[|writes| - 1];
      if Admissible(before, w) then Apply(before, w) else before
  }

  lemma WriteEvolves(t: Table, w: Write)
    requires Sound(t) && Admissible(t, w)
    ensures Sound(Apply(t, w)) && Evolves(t, Apply(t, w))
  {
    match w
    case NoWrite =>
    case Insert(id, user, expiresAt) => InsertEvolves(t, id, user, expiresAt);
    case Rotate(id, child, expiresAt, at) => RotateEvolves(t, id, child, expiresAt, at);
    case RevokeLive(id, at) => RevokeEvolves(t, id, at);
    case Overwrite(id, at) => OverwriteEvolves(t, id, at);
  }

  /** Column by column, what each write leaves in each row; a row not spoken of is as it was. */
  lemma WriteRowByRow(t: Table, w: Write, id: Uuid)
    requires Admissible(t, w)
    ensures var t' := Apply(t, w);
      match w
      case NoWrite => t' == t
      case Insert(root, user, expiresAt) =>
        && t'.Keys == t.Keys + {root}
        && t'[root].user == user && t'[root].expiresAt == expiresAt
        && t'[root].revokedAt == None && t'[root].replacedBy == None
        && (id in t ==> t'[id] == t[id])
      case Rotate(parent, child, expiresAt, at) =>
        if parent in t && t[parent].revokedAt == None then
          && t'.Keys == t.Keys + {child}
          && t'[child].user == t[parent].user && t'[child].expiresAt == expiresAt
          && t'[child].revokedAt == None && t'[child].replacedBy == None
          && t'[parent].user == t[parent].user && t'[parent].expiresAt == t[parent].expiresAt
          && t'[parent].revokedAt == Some(at) && t'[parent].replacedBy == Some(child)
          && (id in t && id != parent ==> t'[id] == t[id])
        else t' == t
      case RevokeLive(leaf, at) =>
        if leaf in t && t[leaf].revokedAt == None then
          && t'.Keys == t.Keys
          && t'[leaf] == Row(t[leaf].user, t[leaf].expiresAt, Some(at), t[leaf].replacedBy)
          && (id in t && id != leaf ==> t'[id] == t[id])
        else t' == t
      case Overwrite(token, at) =>
        && t'.Keys == t.Keys
        && (token in t ==> t'[token] == Row(t[token].user, t[token].expiresAt, Some(at), t[token].replacedBy))
        && (id in t && id != token ==> t'[id] == t[id])
  {
  }

  lemma {:induction false} SuccessorExists(t: Table, id: Uuid, k: nat)
    requires Sound(t) && Successor(t, id, k).Some?
    ensures Successor(t, id, k).value in t
  {
    if k > 0 {
      SuccessorExists(t, id, k - 1);
      var x := Successor(t, id, k - 1).value;
      assert Linked(t, x, t[x].replacedBy.value);
    }
  }

  /** Successor links are write-once, so a walk already made stays valid. */
  lemma {:induction false} SuccessorStable(t: Table, t': Table, id: Uuid, k: nat)
    requires Evolves(t, t') && Successor(t, id, k).Some?
    ensures Successor(t', id, k) == Successor(t, id, k)
  {
    if k > 0 {
      SuccessorStable(t, t', id, k - 1);
      var x := Successor(t, id, k - 1).value;
      assert x in t && t[x].replacedBy.Some?;
    }
  }

  /** Death is final: no later state revives a family. */
  lemma FamilyDeadStable(t: Table, t': Table, id: Uuid)
    requires Evolves(t, t') && FamilyDead(t, id)
    ensures FamilyDead(t', id)
  {
    var d, leaf :| LeafAt(t, id, d, leaf) && DeadLeaf(t, leaf);
    SuccessorStable(t, t', id, d);
    assert LeafAt(t', id, d, leaf) && DeadLeaf(t', leaf);
  }

  lemma BeyondReachStable(t: Table, t': Table, id: Uuid)
    requires Evolves(t, t') && BeyondReach(t, id)
    ensures BeyondReach(t', id)
  {
    SuccessorStable(t, t', id, MAX_FAMILY_WALK_STEPS + 1);
  }

  /** Nothing lies past a leaf. */
  lemma {:induction false} NothingPastLeaf(t: Table, id: Uuid, d: nat, leaf: Uuid, k: nat)
    requires LeafAt(t, id, d, leaf) && d < k
    ensures Successor(t, id, k).None?
    decreases k
  {
    if d < k - 1 {
      NothingPastLeaf(t, id, d, leaf, k - 1);
    }
  }

  /** A token has at most one leaf, at one distance. */
  lemma LeafUnique(t: Table, id: Uuid, d: nat, leaf: Uuid, d': nat, leaf': Uuid)
    requires LeafAt(t, id, d, leaf) && LeafAt(t, id, d', leaf')
    ensures d == d' && leaf == leaf'
  {
    if d < d' { NothingPastLeaf(t, id, d, leaf, d'); }
    if d' < d { NothingPastLeaf(t, id, d', leaf', d); }
  }

  lemma {:induction false} SuccessorSplits(t: Table, id: Uuid, j: nat, k: nat)
    requires Successor(t, id, j).Some?
    requires Successor(t, id, j).value in t
    ensures Successor(t, id, j + k) == Successor(t, Successor(t, id, j).value, k)
  {
    if k > 0 {
      SuccessorSplits(t, id, j, k - 1);
    }
  }

  /** Expiry never decreases and the owner never changes along a chain. */
  lemma {:induction false} AlongTheChain(t: Table, id: Uuid, k: nat)
    requires Sound(t) && Successor(t, id, k).Some?
    ensures id in t && Successor(t, id, k).value in t
    ensures t[id].expiresAt <= t[Successor(t, id, k).value].expiresAt
    ensures t[id].user == t[Successor(t, id, k).value].user
  {
    if k > 0 {
      AlongTheChain(t, id, k - 1);
      var x := Successor(t, id, k - 1).value;
      assert Linked(t, x, t[x].replacedBy.value);
    }
  }
}
