/** The append-only audit log: the events every service writes, and the filtered pages read back from it. */
module Audit {
  import opened Common

  datatype Action =
    | UserRegistered
    | UserLoginSucceeded
    | UserLoginFailed
    | UserLogout
    | RefreshTokenRotated
    | RefreshTokenRejected
    | RefreshTokenReuseDetected
    | RefreshTokenFamilyRevoked
    | RoleCreated
    | RoleAssigned
    | RoleRevoked
    | PermissionAssignedToRole
    | PermissionRemovedFromRole
    | OrganizationCreated
    | OrganizationMemberAdded
    | OrganizationMemberRemoved

  /** Why a refresh was rejected; recorded in the log, never shown to the caller. */
  datatype Rejection = UnknownToken | RevokedToken | ExpiredToken | InactiveOwner | RotationLost

  /** Why a login failed. */
  datatype LoginFailure = UnknownEmail | InactiveAccount | WrongPassword

  datatype Metadata =
    | NoMetadata
    | Reason(reason: Rejection)
    | LoginReason(failure: LoginFailure)
    | ReuseOf(presented: Uuid, familyAlreadyRevoked: bool)
    | PresentedToken(presented: Uuid)
    | Named(name: string)
    | AboutRole(role: Uuid)
    | AboutPermission(permission: Uuid)

  /** One recorded event. The action determines which table `target` refers to. */
  datatype Event = Event(
    action: Action,
    actor: Option<Uuid>,
    target: Option<Uuid>,
    organization: Option<Uuid>,
    metadata: Metadata)

  datatype StoredEvent = StoredEvent(occurredAt: Time, event: Event)

  function Stamped(now: Time, events: seq<Event>): seq<StoredEvent> {
    seq(|events|, i requires 0 <= i < |events| => StoredEvent(now, events[i]))
  }

  /** Each filter is optional; those given are combined with AND. */
  datatype Filter = Filter(organization: Option<Uuid>, actor: Option<Uuid>, action: Option<Action>)

  predicate Matches(f: Filter, e: Event) {
    && (f.organization.Some? ==> e.organization == f.organization)
    && (f.actor.Some? ==> e.actor == f.actor)
    && (f.action.Some? ==> e.action == f.action.value)
  }

  function Filtered(log: seq<StoredEvent>, f: Filter): seq<StoredEvent> {
    if log == [] then []
    else Filtered(log[..|log| - 1], f)
         + (if Matches(f, log[|log| - 1].event) then [log[|log| - 1]] else [])
  }

  /** ORDER BY occurred_at DESC: each row goes in front of the rows that are not newer. */
  function NewestFirst(log: seq<StoredEvent>): seq<StoredEvent> {
    if log == [] then []
    else Placed(NewestFirst(log[..|log| - 1]), log[|log| - 1])
  }

  function Placed(sorted: seq<StoredEvent>, e: StoredEvent): seq<StoredEvent> {
    if sorted == [] || sorted[0].occurredAt <= e.occurredAt then [e] + sorted
    else [sorted[0]] + Placed(sorted[1..], e)
  }

  /** OFFSET and LIMIT. */
  function Slice<T>(xs: seq<T>, limit: nat, offset: nat): seq<T> {
    var from := if offset <= |xs| then offset else |xs|;
    var to := if from + limit <= |xs| then from + limit else |xs|;
    xs[from..to]
  }

  /** The page that the listing query returns. */
  function Page(log: seq<StoredEvent>, f: Filter, limit: nat, offset: nat): seq<StoredEvent> {
    Slice(NewestFirst(Filtered(log, f)), limit, offset)
  }

  /** What a reader collects who asks for `n` pages of size `limit`, one after another, from `offset` on. */
  function Pages(log: seq<StoredEvent>, f: Filter, limit: nat, offset: nat, n: nat): seq<StoredEvent>
    decreases n
  {
    if n == 0 then [] else Page(log, f, limit, offset) + Pages(log, f, limit, offset + limit, n - 1)
  }

  function RowsIn(limit: nat, n: nat): nat {
    if n == 0 then 0 else limit + RowsIn(limit, n - 1)
  }

  lemma {:induction false} FilteredKeepsMembers(log: seq<StoredEvent>, f: Filter)
    ensures forall e | e in Filtered(log, f) :: e in log && Matches(f, e.event)
    ensures forall e | e in log && Matches(f, e.event) :: e in Filtered(log, f)
  {
    if log != [] {
      FilteredKeepsMembers(log[..|log| - 1], f);
    }
  }

  /** What a filter selects: exactly the recorded events that agree with every filter given. */
  lemma FilteredExactly(log: seq<StoredEvent>, f: Filter)
    ensures forall e :: e in Filtered(log, f) <==>
              && e in log
              && (f.organization == None || e.event.organization == f.organization)
              && (f.actor == None || e.event.actor == f.actor)
              && (f.action == None || Some(e.event.action) == f.action)
  {
    FilteredKeepsMembers(log, f);
  }

  lemma {:induction false} PlacedKeepsMembers(sorted: seq<StoredEvent>, e: StoredEvent)
    ensures forall x :: x in Placed(sorted, e) <==> x in sorted || x == e
  {
    if sorted != [] && sorted[0].occurredAt > e.occurredAt {
      PlacedKeepsMembers(sorted[1..], e);
      assert sorted == [sorted[0]] + sorted[1..];
    }
  }

  lemma {:induction false} NewestFirstKeepsMembers(log: seq<StoredEvent>)
    ensures forall x :: x in NewestFirst(log) <==> x in log
  {
    if log != [] {
      NewestFirstKeepsMembers(log[..|log| - 1]);
      PlacedKeepsMembers(NewestFirst(log[..|log| - 1]), log[|log| - 1]);
      assert log == log[..|log| - 1] + [log[|log| - 1]];
    }
  }

  /** The positions of the log whose events satisfy `p`. */
  ghost function Positions(log: seq<StoredEvent>, p: StoredEvent -> bool): set<int> {
    set k | 0 <= k < |log| && p(log[k])
  }

  lemma PositionsGrow(log: seq<StoredEvent>, p: StoredEvent -> bool)
    requires log != []
    ensures var front, last := log[..|log| - 1], log[|log| - 1];
      |Positions(log, p)| == |Positions(front, p)| + (if p(last) then 1 else 0)
  {
    var front, last := log[..|log| - 1], log[|log| - 1];
    assert Positions(log, p) == if p(last) then Positions(front, p) + {|front|} else Positions(front, p);
  }

  function Matcher(f: Filter): StoredEvent -> bool {
    (e: StoredEvent) => Matches(f, e.event)
  }

  lemma {:induction false} MatchingCount(log: seq<StoredEvent>, f: Filter)
    ensures |Positions(log, Matcher(f))| == |Filtered(log, f)|
  {
    if log == [] {
      assert Positions(log, Matcher(f)) == {};
    } else {
      MatchingCount(log[..|log| - 1], f);
      PositionsGrow(log, Matcher(f));
    }
  }

  lemma CountIsExact(log: seq<StoredEvent>, f: Filter)
    ensures |Filtered(log, f)| == |set k | 0 <= k < |log|
              && (f.organization == None || log[k].event.organization == f.organization)
              && (f.actor == None || log[k].event.actor == f.actor)
              && (f.action == None || Some(log[k].event.action) == f.action)|
  {
    var positions := set k | 0 <= k < |log|
      && (f.organization == None || log[k].event.organization == f.organization)
      && (f.actor == None || log[k].event.actor == f.actor)
      && (f.action == None || Some(log[k].event.action) == f.action);
    MatchingCount(log, f);
    assert positions == Positions(log, Matcher(f));
  }

  // ---------------------------------------------------------------- theorems about paging

  ghost predicate Increasing(log: seq<StoredEvent>) {
    forall i, j | 0 <= i < j < |log| :: log[i].occurredAt < log[j].occurredAt
  }

  function Reversed<T>(xs: seq<T>): seq<T> {
    if xs == [] then [] else [xs[|xs| - 1]] + Reversed(xs[..|xs| - 1])
  }

  lemma {:induction false} FilteredIncreasing(log: seq<StoredEvent>, f: Filter)
    requires Increasing(log)
    ensures Increasing(Filtered(log, f))
  {
    if log != [] {
      FilteredIncreasing(log[..|log| - 1], f);
      FilteredKeepsMembers(log[..|log| - 1], f);
    }
  }

  lemma {:induction false} FilteredAppend(a: seq<StoredEvent>, b: seq<StoredEvent>, f: Filter)
    ensures Filtered(a + b, f) == Filtered(a, f) + Filtered(b, f)
  {
    if b == [] {
      assert a + b == a;
    } else {
      var b' := b[..|b| - 1];
      FilteredAppend(a, b', f);
      assert (a + b)[..|a + b| - 1] == a + b';
    }
  }

  lemma ReversedSnoc<T>(xs: seq<T>, x: T)
    ensures Reversed(xs + [x]) == [x] + Reversed(xs)
  {
    assert (xs + [x])[..|xs|] == xs;
  }

  lemma {:induction false} ReversedAppend<T>(a: seq<T>, b: seq<T>)
    ensures Reversed(a + b) == Reversed(b) + Reversed(a)
  {
    if b == [] {
      assert a + b == a;
    } else {
      var b', x := b[..|b| - 1], b[|b| - 1];
      ReversedAppend(a, b');
      ReversedSnoc(a + b', x);
      ReversedSnoc(b', x);
      assert b == b' + [x] && a + b == a + b' + [x];
    }
  }

  lemma {:induction false} ReversedMembers<T>(xs: seq<T>)
    ensures |Reversed(xs)| == |xs|
    ensures forall i | 0 <= i < |xs| :: Reversed(xs)[i] == xs[|xs| - 1 - i]
  {
    if xs != [] {
      ReversedMembers(xs[..|xs| - 1]);
    }
  }

  /** With strictly increasing timestamps the sort is a reversal: newest first means last recorded first. */
  lemma {:induction false} NewestFirstReverses(log: seq<StoredEvent>)
    requires Increasing(log)
    ensures NewestFirst(log) == Reversed(log)
  {
    if log != [] {
      var rest := log[..|log| - 1];
      NewestFirstReverses(rest);
      ReversedMembers(rest);
    }
  }

  function NewerMatcher(f: Filter, than: Time): StoredEvent -> bool {
    (e: StoredEvent) => Matches(f, e.event) && than < e.occurredAt
  }

  /** How many matching events are newer than an instant. */
  ghost function Newer(log: seq<StoredEvent>, f: Filter, than: Time): nat {
    |Positions(log, NewerMatcher(f, than))|
  }

  lemma NoneNewer(log: seq<StoredEvent>, f: Filter)
    requires Increasing(log) && log != []
    ensures Newer(log, f, log[|log| - 1].occurredAt) == 0
  {
    assert Positions(log, NewerMatcher(f, log[|log| - 1].occurredAt)) == {};
  }

  /** The m-th matching event has all the later matching ones newer than it, and no others. */
  lemma {:induction false} NewerThanFiltered(log: seq<StoredEvent>, f: Filter, m: nat)
    requires Increasing(log) && m < |Filtered(log, f)|
    ensures Newer(log, f, Filtered(log, f)[m].occurredAt) == |Filtered(log, f)| - 1 - m
  {
    var front := log[..|log| - 1];
    if m < |Filtered(front, f)| {
      NewerThanFiltered(front, f, m);
      FilteredKeepsMembers(front, f);
      assert Filtered(front, f)[m] in front;
      PositionsGrow(log, NewerMatcher(f, Filtered(log, f)[m].occurredAt));
    } else {
      NoneNewer(log, f);
    }
  }

  lemma PageIsSliceOfReversed(log: seq<StoredEvent>, f: Filter, limit: nat, offset: nat)
    requires Increasing(log)
    ensures Page(log, f, limit, offset) == Slice(Reversed(Filtered(log, f)), limit, offset)
  {
    FilteredIncreasing(log, f);
    NewestFirstReverses(Filtered(log, f));
  }

  lemma {:induction false} RowsInPages(limit: nat, n: nat)
    ensures RowsIn(limit, n) == n * limit
  {
    if n > 0 {
      RowsInPages(limit, n - 1);
      assert n * limit == (n - 1) * limit + limit;
    }
  }

  lemma SlicesJoin<T>(xs: seq<T>, offset: nat, limit: nat, more: nat)
    ensures Slice(xs, limit, offset) + Slice(xs, more, offset + limit) == Slice(xs, limit + more, offset)
  {
  }

  lemma {:induction false} PagesAreSlice(log: seq<StoredEvent>, f: Filter, limit: nat, offset: nat, n: nat)
    requires Increasing(log)
    ensures Pages(log, f, limit, offset, n) == Slice(Reversed(Filtered(log, f)), RowsIn(limit, n), offset)
    decreases n
  {
    if n > 0 {
      PageIsSliceOfReversed(log, f, limit, offset);
      PagesAreSlice(log, f, limit, offset + limit, n - 1);
      SlicesJoin(Reversed(Filtered(log, f)), offset, limit, RowsIn(limit, n - 1));
    }
  }

  /**
    Consecutive pages concatenate to the newest-first listing, which lists each matching event once:
    its length is what `CountEvents` returns.
   */
  lemma PagesConcatenate(log: seq<StoredEvent>, f: Filter, limit: nat, n: nat)
    requires Increasing(log) && n * limit >= |Filtered(log, f)|
    ensures Pages(log, f, limit, 0, n) == Reversed(Filtered(log, f))
    ensures |Pages(log, f, limit, 0, n)| == |Filtered(log, f)|
  {
    PagesAreSlice(log, f, limit, 0, n);
    RowsInPages(limit, n);
    ReversedMembers(Filtered(log, f));
  }

  lemma PrefixIncreasing(log: seq<StoredEvent>, more: seq<StoredEvent>)
    requires Increasing(log + more)
    ensures Increasing(log)
  {
    forall i, j | 0 <= i < j < |log| ensures log[i].occurredAt < log[j].occurredAt {
      assert (log + more)[i] == log[i] && (log + more)[j] == log[j];
    }
  }

  lemma ReversedAfterAppends(log: seq<StoredEvent>, more: seq<StoredEvent>, f: Filter)
    ensures Reversed(Filtered(log + more, f)) == Reversed(Filtered(more, f)) + Reversed(Filtered(log, f))
    ensures |Reversed(Filtered(more, f))| == |Filtered(more, f)|
  {
    FilteredAppend(log, more, f);
    ReversedAppend(Filtered(log, f), Filtered(more, f));
    ReversedMembers(Filtered(more, f));
  }

  lemma SliceOfTail<T>(front: seq<T>, xs: seq<T>, limit: nat, offset: nat, shifted: nat)
    requires shifted == offset + |front|
    ensures Slice(front + xs, limit, shifted) == Slice(xs, limit, offset)
  {
  }

  /** Events recorded while a reader is paging push the old rows down by exactly their number. */
  lemma PageShiftsUnderAppends(log: seq<StoredEvent>, more: seq<StoredEvent>, f: Filter, limit: nat, offset: nat)
    requires Increasing(log + more)
    ensures Page(log + more, f, limit, offset + |Filtered(more, f)|) == Page(log, f, limit, offset)
  {
    PrefixIncreasing(log, more);
    PageIsSliceOfReversed(log, f, limit, offset);
    PageIsSliceOfReversed(log + more, f, limit, offset + |Filtered(more, f)|);
    ReversedAfterAppends(log, more, f);
    var front, rest := Reversed(Filtered(more, f)), Reversed(Filtered(log, f));
    SliceOfTail(front, rest, limit, offset, offset + |front|);
  }

  // ---------------------------------------------------------------- the repository

  class AuditLogRepository {
    var rows: seq<StoredEvent>

    constructor ()
      ensures rows == []
    {
      rows := [];
    }

    method Record(occurredAt: Time, event: Event)
      modifies this
      ensures rows == old(rows) + [StoredEvent(occurredAt, event)]
    {
      rows := rows + [StoredEvent(occurredAt, event)];
    }

    /** At most `limit` rows, all of them recorded, none that a given filter excludes. */
    function ListEvents(f: Filter, limit: nat, offset: nat): (page: seq<StoredEvent>)
      reads this
      ensures |page| <= limit
      ensures forall e | e in page ::
                && e in rows
                && (f.organization == None || e.event.organization == f.organization)
                && (f.actor == None || e.event.actor == f.actor)
                && (f.action == None || Some(e.event.action) == f.action)
    {
      NewestFirstKeepsMembers(Filtered(rows, f));
      FilteredExactly(rows, f);
      Page(rows, f, limit, offset)
    }

    /** The number of positions of the log that no given filter excludes. */
    function CountEvents(f: Filter): (count: nat)
      reads this
      ensures count == |set k | 0 <= k < |rows|
                && (f.organization == None || rows[k].event.organization == f.organization)
                && (f.actor == None || rows[k].event.actor == f.actor)
                && (f.action == None || Some(rows[k].event.action) == f.action)|
    {
      CountIsExact(rows, f);
      |Filtered(rows, f)|
    }

    /**
      A listing is known from the log alone: it is as long as limit, offset and count allow, and the
      i-th row is the matching row that exactly offset + i matching rows are newer than.
     */
    lemma ListingIsRanked(f: Filter, limit: nat, offset: nat, i: nat)
      requires Increasing(rows)
      ensures var page, count := ListEvents(f, limit, offset), CountEvents(f);
        && |page| == (if offset >= count then 0 else if offset + limit <= count then limit else count - offset)
        && (i < |page| ==> Newer(rows, f, page[i].occurredAt) == offset + i)
    {
      PageIsSliceOfReversed(rows, f, limit, offset);
      ReversedMembers(Filtered(rows, f));
      var page, n := ListEvents(f, limit, offset), CountEvents(f);
      if i < |page| {
        assert page[i] == Filtered(rows, f)[n - 1 - (offset + i)];
        NewerThanFiltered(rows, f, n - 1 - (offset + i));
      }
    }
  }
}
