/**
  Token families as an abstract system with four actions, and the proof that every step of every
  interleaving is one of them.
 */
module Families {
  import opened Common
  import opened TokenTable
  import opened AuthProtocol
  import opened AuthInvariants

  /** One login and everything rotated from it, oldest token first. */
  datatype Family = Family(user: Uuid, chain: seq<Uuid>, live: bool)

  datatype Position = Position(family: nat, index: nat)

  /** All families, in the order of their logins, and where each token sits. */
  datatype Abstract = Abstract(families: seq<Family>, at: map<Uuid, Position>)

  datatype Action =
    | Stutter
    | NewFamily(user: Uuid, root: Uuid)
    | RotateLeaf(leaf: Uuid, child: Uuid)
    | Kill(leaf: Uuid)

  const EMPTY: Abstract := Abstract([], map[])

  ghost predicate Placed(a: Abstract, id: Uuid) {
    && id in a.at
    && a.at[id].family < |a.families|
    && a.at[id].index < |a.families[a.at[id].family].chain|
    && a.families[a.at[id].family].chain[a.at[id].index] == id
  }

  ghost predicate Seated(a: Abstract, f: nat, i: nat) {
    && f < |a.families| && i < |a.families[f].chain|
    && a.families[f].chain[i] in a.at
    && a.at[a.families[f].chain[i]] == Position(f, i)
  }

  ghost predicate Indexed(a: Abstract) {
    && (forall id | id in a.at :: Placed(a, id))
    && (forall f: nat, i: nat | f < |a.families| && i < |a.families[f].chain| :: Seated(a, f, i))
  }

  /** `id` is the last token of a family that is still alive. */
  ghost predicate LiveLeaf(a: Abstract, id: Uuid)
  {
    && Placed(a, id)
    && a.families[a.at[id].family].live
    && a.at[id].index == |a.families[a.at[id].family].chain| - 1
  }

  /** A family grows only while alive, dies only once, and is never touched again. */
  ghost predicate Allowed(a: Abstract, action: Action) {
    match action
    case Stutter => true
    case NewFamily(_, root) => root !in a.at
    case RotateLeaf(leaf, child) => LiveLeaf(a, leaf) && child !in a.at
    case Kill(leaf) => LiveLeaf(a, leaf)
  }

  ghost function Act(a: Abstract, action: Action): Abstract
    requires Allowed(a, action)
  {
    match action
    case Stutter => a
    case NewFamily(user, root) =>
      Abstract(a.families + [Family(user, [root], true)], a.at[root := Position(|a.families|, 0)])
    case RotateLeaf(leaf, child) =>
      var f := a.at[leaf].family;
      var family := a.families[f];
      Abstract(a.families[f := family.(chain := family.chain + [child])],
               a.at[child := Position(f, |family.chain|)])
    case Kill(leaf) =>
      var f := a.at[leaf].family;
      a.(families := a.families[f := a.families[f].(live := false)])
  }

  lemma ActIndexed(a: Abstract, action: Action)
    requires Indexed(a) && Allowed(a, action)
    ensures Indexed(Act(a, action))
  {
    var a' := Act(a, action);
    forall id | id in a'.at ensures Placed(a', id) {
      if id in a.at { assert Placed(a, id); }
    }
    forall f: nat, i: nat | f < |a'.families| && i < |a'.families[f].chain| ensures Seated(a', f, i) {
      if f < |a.families| && i < |a.families[f].chain| { assert Seated(a, f, i); }
    }
  }

  /** The row of a token, given its place in its family. */
  ghost predicate RowFits(a: Abstract, t: Table, id: Uuid) {
    && Placed(a, id) && id in t
    && var family, index := a.families[a.at[id].family], a.at[id].index;
    && t[id].user == family.user
    && if index + 1 < |family.chain|
       then t[id].replacedBy == Some(family.chain[index + 1]) && t[id].revokedAt.Some?
       else t[id].replacedBy.None? && (t[id].revokedAt.None? <==> family.live)
  }

  /** The table is exactly the disjoint union of the families. */
  ghost predicate Represents(a: Abstract, t: Table) {
    && Indexed(a)
    && a.at.Keys == t.Keys
    && forall id | id in t :: RowFits(a, t, id)
  }

  /** The abstract action that a committed write amounts to. */
  function Meaning(t: Table, w: Write): Action {
    match w
    case NoWrite => Stutter
    case Insert(id, user, _) => NewFamily(user, id)
    case Rotate(id, child, _, _) => if Live(t, id) then RotateLeaf(id, child) else Stutter
    case RevokeLive(id, _) => if Live(t, id) then Kill(id) else Stutter
    case Overwrite(id, _) => if Live(t, id) then Kill(id) else Stutter
  }

  lemma LiveRowIsLiveLeaf(a: Abstract, t: Table, id: Uuid)
    requires Represents(a, t)
    ensures Live(t, id) <==> LiveLeaf(a, id)
  {
    if id in t {
      assert RowFits(a, t, id);
    }
  }

  lemma RotateRefines(a: Abstract, t: Table, id: Uuid, child: Uuid, expiresAt: Time, at: Time)
    requires Represents(a, t) && child !in t && Live(t, id)
    ensures LiveLeaf(a, id)
    ensures Represents(Act(a, RotateLeaf(id, child)), Rotated(t, id, child, expiresAt, at))
  {
    LiveRowIsLiveLeaf(a, t, id);
    var a', t' := Act(a, RotateLeaf(id, child)), Rotated(t, id, child, expiresAt, at);
    ActIndexed(a, RotateLeaf(id, child));
    forall x | x in t' ensures RowFits(a', t', x) {
      if x != child {
        assert RowFits(a, t, x);
      }
    }
  }

  lemma KillRefines(a: Abstract, t: Table, id: Uuid, at: Time)
    requires Represents(a, t) && Live(t, id)
    ensures LiveLeaf(a, id)
    ensures Represents(Act(a, Kill(id)), RevokedIfLive(t, id, at))
  {
    LiveRowIsLiveLeaf(a, t, id);
    var a', t' := Act(a, Kill(id)), RevokedIfLive(t, id, at);
    ActIndexed(a, Kill(id));
    forall x | x in t' ensures RowFits(a', t', x) {
      assert RowFits(a, t, x);
    }
  }

  lemma InsertRefines(a: Abstract, t: Table, id: Uuid, user: Uuid, expiresAt: Time)
    requires Represents(a, t) && id !in t
    ensures Represents(Act(a, NewFamily(user, id)), Inserted(t, id, user, expiresAt))
  {
    var a', t' := Act(a, NewFamily(user, id)), Inserted(t, id, user, expiresAt);
    ActIndexed(a, NewFamily(user, id));
    forall x | x in t' ensures RowFits(a', t', x) {
      if x != id {
        assert RowFits(a, t, x);
      }
    }
  }

  /** Overwriting the revocation instant of a row that is revoked already shows in no family. */
  lemma LateOverwriteStutters(a: Abstract, t: Table, id: Uuid, at: Time)
    requires Represents(a, t) && !Live(t, id)
    ensures Represents(a, Overwritten(t, id, at))
  {
    var t' := Overwritten(t, id, at);
    forall x | x in t' ensures RowFits(a, t', x) {
      assert RowFits(a, t, x);
    }
  }

  /** Every admissible write is one of the four actions. */
  lemma WriteRefines(a: Abstract, t: Table, w: Write)
    requires Represents(a, t) && Admissible(t, w)
    ensures Allowed(a, Meaning(t, w)) && Represents(Act(a, Meaning(t, w)), Apply(t, w))
  {
    match w
    case NoWrite =>
    case Insert(id, user, expiresAt) => InsertRefines(a, t, id, user, expiresAt);
    case Rotate(id, child, expiresAt, at) =>
      if Live(t, id) { RotateRefines(a, t, id, child, expiresAt, at); }
    case RevokeLive(id, at) =>
      if Live(t, id) { KillRefines(a, t, id, at); }
    case Overwrite(id, at) =>
      if Live(t, id) {
        KillRefines(a, t, id, at);
        assert Overwritten(t, id, at) == RevokedIfLive(t, id, at);
      } else {
        LateOverwriteStutters(a, t, id, at);
      }
  }

  // ---------------------------------------------------------------- steps and runs

  function ActionOf(s: State, l: Label): Action {
    if l.Go? && l.request in s.requests
    then Meaning(s.rows, Advance(s.rows, s.users, s.now, s.requests[l.request], l.newId).write)
    else Stutter
  }

  /** Which request a step may belong to, given the action it performs. */
  ghost predicate Causes(s: State, l: Label, action: Action) {
    match action
    case Stutter => true
    case NewFamily(user, root) =>
      l.Go? && l.request in s.requests && l.newId == root
      && s.requests[l.request].LoginCreate? && s.requests[l.request].user == user
    case RotateLeaf(leaf, child) =>
      l.Go? && l.request in s.requests && s.requests[l.request].RefreshRotate?
      && s.requests[l.request].token == leaf
      && Step(s, l).requests[l.request].RefreshAudit?
      && Answer(Step(s, l).requests[l.request].verdict) == NewTokens(child)
    case Kill(leaf) =>
      l.Go? && l.request in s.requests
      && ((s.requests[l.request].WalkTry? && s.requests[l.request].next == leaf)
          || (s.requests[l.request].LogoutWrite? && s.requests[l.request].token == leaf))
  }

  lemma StepHasCause(s: State, l: Label)
    ensures Causes(s, l, ActionOf(s, l))
  {
  }

  /**
    Refinement: each step performs the action named for it; only a refresh that wins its rotation
    rotates, only a family walk or a logout kills, only a login adds a family.
   */
  lemma StepRefines(s: State, l: Label, a: Abstract)
    requires Inv(s) && Represents(a, s.rows)
    ensures Allowed(a, ActionOf(s, l)) && Represents(Act(a, ActionOf(s, l)), Step(s, l).rows)
    ensures Causes(s, l, ActionOf(s, l))
  {
    StepHasCause(s, l);
    if l.Go? && l.request in s.requests {
      var pc := s.requests[l.request];
      AdvanceAdmissible(s.rows, s.users, s.now, pc, l.newId);
      WriteRefines(a, s.rows, Advance(s.rows, s.users, s.now, pc, l.newId).write);
    }
  }

  /** The actions of a run, in order. */
  ghost function ActionsOf(s: State, run: seq<Label>): seq<Action> {
    if run == [] then []
    else ActionsOf(s, run[..|run| - 1]) + [ActionOf(Exec(s, run[..|run| - 1]), run[|run| - 1])]
  }

  ghost predicate Extends(b: Abstract, action: Action, a: Abstract) {
    Allowed(b, action) && a == Act(b, action)
  }

  /** Some execution of the abstract system performs these actions and ends in `a`. */
  ghost predicate Performs(actions: seq<Action>, a: Abstract) {
    if actions == [] then a == EMPTY
    else
      var before, last := actions[..|actions| - 1], actions[|actions| - 1];
      exists b :: Performs(before, b) && Extends(b, last, a)
  }

  /** Every run of the protocol is a run of the abstract family system. */
  lemma {:induction false} RunRefines(s: State, run: seq<Label>) returns (a: Abstract)
    requires Init(s)
    ensures Performs(ActionsOf(s, run), a) && Represents(a, Exec(s, run).rows)
  {
    if run == [] {
      a := EMPTY;
    } else {
      var front, l := run[..|run| - 1], run[|run| - 1];
      var b := RunRefines(s, front);
      Reachable(s, front);
      StepRefines(Exec(s, front), l, b);
      var actions := ActionsOf(s, run);
      assert actions[..|actions| - 1] == ActionsOf(s, front);
      assert actions[|actions| - 1] == ActionOf(Exec(s, front), l);
      a := Act(b, ActionOf(Exec(s, front), l));
      assert Extends(b, actions[|actions| - 1], a);
    }
  }

  /** A dead family keeps its chain, its owner and its death under every further action. */
  lemma DeadStaysDead(a: Abstract, action: Action, f: nat)
    requires Indexed(a) && Allowed(a, action) && f < |a.families| && !a.families[f].live
    ensures f < |Act(a, action).families| && Act(a, action).families[f] == a.families[f]
  {
  }

  // ---------------------------------------------------------------- the shape of chains

  /** Following links inside a family just moves along its chain. */
  lemma {:induction false} SuccessorInFamily(a: Abstract, t: Table, id: Uuid, k: nat)
    requires Represents(a, t) && id in t
    ensures var chain := a.families[a.at[id].family].chain;
      Successor(t, id, k) == if a.at[id].index + k < |chain| then Some(chain[a.at[id].index + k]) else None
  {
    if k > 0 {
      SuccessorInFamily(a, t, id, k - 1);
      var p := a.at[id];
      var chain := a.families[p.family].chain;
      if p.index + k - 1 < |chain| {
        var x := chain[p.index + k - 1];
        assert Seated(a, p.family, p.index + k - 1);
        assert RowFits(a, t, x);
      }
    }
  }

  lemma NoReturn(a: Abstract, t: Table, id: Uuid, k: nat)
    requires Represents(a, t) && id in t && k > 0
    ensures Successor(t, id, k) != Some(id)
  {
    SuccessorInFamily(a, t, id, k);
    var p := a.at[id];
    if p.index + k < |a.families[p.family].chain| {
      assert Seated(a, p.family, p.index + k);
    }
  }

  /** The end of a token's chain, and the only row after the token that can be unrevoked. */
  lemma LeafInFamily(a: Abstract, t: Table, id: Uuid) returns (d: nat, leaf: Uuid)
    requires Represents(a, t) && id in t
    ensures LeafAt(t, id, d, leaf) && t[leaf].user == t[id].user
    ensures forall k: nat | Successor(t, id, k).Some? && Live(t, Successor(t, id, k).value) ::
              Successor(t, id, k) == Some(leaf)
  {
    assert RowFits(a, t, id);
    var p := a.at[id];
    var chain := a.families[p.family].chain;
    d := |chain| - 1 - p.index;
    leaf := chain[|chain| - 1];
    SuccessorInFamily(a, t, id, d);
    assert Seated(a, p.family, |chain| - 1);
    assert RowFits(a, t, leaf);
    forall k: nat | Successor(t, id, k).Some? && Live(t, Successor(t, id, k).value)
      ensures Successor(t, id, k) == Some(leaf)
    {
      SuccessorInFamily(a, t, id, k);
      assert Seated(a, p.family, p.index + k);
      assert RowFits(a, t, chain[p.index + k]);
    }
  }

  /**
    In every reachable table links are acyclic, and every token has a leaf of its own owner, the only
    row from the token onwards that may be unrevoked; the family is dead exactly when that leaf is.
   */
  lemma ChainShape(s: State, run: seq<Label>, id: Uuid) returns (d: nat, leaf: Uuid)
    requires Init(s) && id in Exec(s, run).rows
    ensures var t := Exec(s, run).rows;
      && LeafAt(t, id, d, leaf)
      && t[leaf].user == t[id].user
      && (forall k: nat | k > 0 :: Successor(t, id, k) != Some(id))
      && (forall k: nat | Successor(t, id, k).Some? && Live(t, Successor(t, id, k).value) ::
            Successor(t, id, k) == Some(leaf))
      && (FamilyDead(t, id) <==> t[leaf].revokedAt.Some?)
  {
    var t := Exec(s, run).rows;
    var a := RunRefines(s, run);
    d, leaf := LeafInFamily(a, t, id);
    forall k: nat | k > 0 ensures Successor(t, id, k) != Some(id) {
      NoReturn(a, t, id, k);
    }
    if d': nat, leaf' :| LeafAt(t, id, d', leaf') && DeadLeaf(t, leaf') {
      LeafUnique(t, id, d, leaf, d', leaf');
    }
  }

  /** A table of families has no orphan: every token is a login root or has exactly one predecessor. */
  lemma RootOrOnePredecessor(a: Abstract, t: Table, id: Uuid)
    requires Represents(a, t) && id in t
    ensures (exists x :: x in t && t[x].replacedBy == Some(id)) <==> a.at[id].index > 0
    ensures forall x, y | x in t && y in t && t[x].replacedBy == Some(id) && t[y].replacedBy == Some(id) :: x == y
  {
    var p := a.at[id];
    if p.index > 0 {
      var before := a.families[p.family].chain[p.index - 1];
      assert Seated(a, p.family, p.index - 1);
      assert RowFits(a, t, before);
      assert t[before].replacedBy == Some(id);
    }
    forall x | x in t && t[x].replacedBy == Some(id)
      ensures p.index > 0 && a.at[x] == Position(p.family, p.index - 1)
        && x == a.families[p.family].chain[p.index - 1]
    {
      assert RowFits(a, t, x);
      assert Seated(a, a.at[x].family, a.at[x].index + 1);
    }
  }
}
