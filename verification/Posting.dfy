/**
 The posting core (packages/ledger/src/posting.ts): who may take part in an expense and, for
 room-weighted splits, what each roommate's room makes them owe.  Members are the rows that
 lockActiveMembers returned; rooms are the house's room weights.
 */
module Posting {
  import opened Text
  import opened Sums
  import opened Splits
  import opened Rooms

  type RoomId = string

  datatype ActiveMember = ActiveMember(userId: UserId, isPlaceholder: bool, roomId: Option<RoomId>, joinedAt: int)

  /** Why a posting is refused: a PostingProblem, or the SplitError of the split math. */
  datatype PostingError = NotActive | PlaceholderPayer | WeightsSupplied | NoRoom | BadSplit(error: SplitError)

  function Ids(members: seq<ActiveMember>): seq<UserId> {
    seq(|members|, i requires 0 <= i < |members| => members[i].userId)
  }

  // ---------- acting members ----------

  datatype ActingProblem = NotAMember | IsPlaceholder

  /** lockActingMember: only an active member who is no placeholder owns a bill or receives a payment. */
  method LockActingMember(members: seq<ActiveMember>, u: UserId) returns (problem: Option<ActingProblem>)
    requires Distinct(Ids(members))
    ensures problem.None? <==> exists m :: m in members && m.userId == u && !m.isPlaceholder
    ensures problem == Some(NotAMember) <==> forall m :: m in members ==> m.userId != u
  {
    hide MemberOf;
    IdIn(members, u);
    var member := MemberOf(members, u);
    if member.None? { return Some(NotAMember); }
    forall m | m in members && m.userId == u
      ensures m == member.value
    {
      MemberIsRow(members, m);
    }
    if member.value.isPlaceholder { return Some(IsPlaceholder); }
    return None;
  }

  // ---------- occupants ----------

  /** The comparator `a.joinedAt - b.joinedAt || a.userId.localeCompare(b.userId)`. */
  predicate Earlier(a: ActiveMember, b: ActiveMember) {
    a.joinedAt < b.joinedAt || (a.joinedAt == b.joinedAt && Less(a.userId, b.userId))
  }

  function Insert(m: ActiveMember, sorted: seq<ActiveMember>): (r: seq<ActiveMember>)
    ensures SetOf(r) == SetOf(sorted) + {m} && |r| == |sorted| + 1
  {
    if sorted == [] then
      SetCons(m, sorted);
      [m]
    else if Earlier(m, sorted[0]) then
      SetCons(m, sorted);
      [m] + sorted
    else
      var rest := Insert(m, sorted[1..]);
      SetCons(sorted[0], sorted[1..]);
      SetCons(sorted[0], rest);
      assert sorted == [sorted[0]] + sorted[1..];
      [sorted[0]] + rest
  }

  /** `.sort(...)` by (joinedAt, userId). */
  function SortMembers(ms: seq<ActiveMember>): (r: seq<ActiveMember>)
    ensures SetOf(r) == SetOf(ms) && |r| == |ms|
  {
    if ms == [] then []
    else
      assert ms == [ms[0]] + ms[1..];
      Insert(ms[0], SortMembers(ms[1..]))
  }

  /** Strictly in the order of the comparator. */
  predicate InOrder(ms: seq<ActiveMember>) {
    forall i, j :: 0 <= i < j < |ms| ==> Earlier(ms[i], ms[j])
  }

  lemma EarlierTotal(a: ActiveMember, b: ActiveMember)
    requires a.userId != b.userId && !Earlier(a, b)
    ensures Earlier(b, a)
  {
    LessTotal(a.userId, b.userId);
  }

  lemma EarlierTransitive(a: ActiveMember, b: ActiveMember, c: ActiveMember)
    requires Earlier(a, b) && Earlier(b, c)
    ensures Earlier(a, c)
  {
    if a.joinedAt == b.joinedAt == c.joinedAt { LessTransitive(a.userId, b.userId, c.userId); }
  }

  lemma EarlierAsymmetric(a: ActiveMember, b: ActiveMember)
    requires Earlier(a, b)
    ensures !Earlier(b, a)
  {
    if a.joinedAt == b.joinedAt && Less(b.userId, a.userId) { LessAsymmetric(a.userId, b.userId); }
  }

  lemma {:induction false} InsertInOrder(m: ActiveMember, sorted: seq<ActiveMember>)
    requires InOrder(sorted) && forall x :: x in sorted ==> x.userId != m.userId
    ensures InOrder(Insert(m, sorted))
  {
    hide Earlier;
    if sorted != [] {
      var head, rest := sorted[0], sorted[1..];
      if Earlier(m, head) {
        HeadFirst(m, sorted);
      } else {
        EarlierTotal(m, head);
        InsertInOrder(m, rest);
        var r := Insert(m, rest);
        forall x | x in r
          ensures Earlier(head, x)
        {
          assert x in SetOf(rest) + {m};
        }
      }
    }
  }

  lemma HeadFirst(m: ActiveMember, sorted: seq<ActiveMember>)
    requires sorted != [] && InOrder(sorted) && Earlier(m, sorted[0])
    ensures InOrder([m] + sorted)
  {
    hide Earlier;
    forall i | 0 < i < |sorted|
      ensures Earlier(m, sorted[i])
    {
      EarlierTransitive(m, sorted[0], sorted[i]);
    }
  }

  /** Rows of distinct users come out in strict order. */
  lemma {:induction false} SortMembersInOrder(ms: seq<ActiveMember>)
    requires Distinct(Ids(ms))
    ensures InOrder(SortMembers(ms))
  {
    hide InOrder, Insert;
    if ms == [] {
      NoneInOrder();
    } else {
      var rest := ms[1..];
      assert Ids(ms) == [ms[0].userId] + Ids(rest);
      DistinctParts([ms[0].userId], Ids(rest));
      DistinctRest(Ids(ms));
      assert Ids(ms)[1..] == Ids(rest);
      SortMembersInOrder(rest);
      forall x | x in SortMembers(rest)
        ensures x.userId != ms[0].userId
      {
        assert x in SetOf(rest);
        IdIn(rest, x.userId);
        assert ms[0].userId in [ms[0].userId];
      }
      InsertInOrder(ms[0], SortMembers(rest));
    }
  }

  lemma DistinctRest(ids: seq<UserId>)
    requires ids != [] && Distinct(ids)
    ensures Distinct(ids[1..])
  {
  }

  lemma NoneInOrder()
    ensures InOrder([])
  {
  }

  /** Only one order is strict. */
  lemma {:induction false} OneOrder(a: seq<ActiveMember>, b: seq<ActiveMember>)
    requires InOrder(a) && InOrder(b) && SetOf(a) == SetOf(b)
    ensures a == b
  {
    hide Earlier;
    if a == [] || b == [] {
      EmptyWhen(a);
      EmptyWhen(b);
    } else {
      assert a[0] in SetOf(b) && b[0] in SetOf(a);
      if a[0] != b[0] { EarlierAsymmetric(a[0], b[0]); }
      RestOf(a);
      RestOf(b);
      OneOrder(a[1..], b[1..]);
    }
  }

  lemma EmptyWhen(ms: seq<ActiveMember>)
    ensures ms == [] <==> SetOf(ms) == {}
  {
    if ms != [] { assert ms[0] in SetOf(ms); }
  }

  lemma RestOf(ms: seq<ActiveMember>)
    requires ms != [] && InOrder(ms)
    ensures InOrder(ms[1..]) && SetOf(ms[1..]) == SetOf(ms) - {ms[0]}
  {
    hide Earlier;
    assert ms == [ms[0]] + ms[1..];
    if ms[0] in ms[1..] { EarlierAsymmetric(ms[0], ms[0]); }
  }

  /** The members assigned to a room, in row order. */
  function Occupying(members: seq<ActiveMember>, room: RoomId): (r: seq<ActiveMember>)
    ensures forall m :: m in r <==> m in members && m.roomId == Some(room)
  {
    if members == [] then []
    else
      var front, m := Occupying(members[..|members| - 1], room), members[|members| - 1];
      assert members == members[..|members| - 1] + [m];
      if m.roomId == Some(room) then front + [m] else front
  }

  function OccupantIds(members: seq<ActiveMember>, room: RoomId): seq<UserId> {
    Ids(SortMembers(Occupying(members, room)))
  }

  /** The tables' own constraints: one row per user, room references that exist, weights in range. */
  predicate WellHoused(members: seq<ActiveMember>, rooms: map<RoomId, int>) {
    Distinct(Ids(members))
    && (forall m :: m in members && m.roomId.Some? ==> m.roomId.value in rooms)
    && (forall room :: room in rooms ==> 1 <= rooms[room] <= 10000)
  }

  predicate Roomed(members: seq<ActiveMember>, u: UserId) {
    exists m :: m in members && m.userId == u && m.roomId.Some?
  }

  function MemberOf(members: seq<ActiveMember>, u: UserId): (r: Option<ActiveMember>)
    ensures r.Some? ==> r.value in members && r.value.userId == u
    ensures r.None? <==> u !in Ids(members)
  {
    if members == [] then None
    else
      assert members == [members[0]] + members[1..];
      if members[0].userId == u then
        assert Ids(members)[0] == u;
        Some(members[0])
      else
        var r := MemberOf(members[1..], u);
        assert forall i :: 0 < i < |members| ==> Ids(members)[i] == Ids(members[1..])[i - 1];
        assert r.None? ==> u !in Ids(members) by { assert Ids(members)[0] != u; }
        assert r.Some? ==> u in Ids(members) by {
          if r.Some? {
            var i :| 0 <= i < |members[1..]| && Ids(members[1..])[i] == u;
            assert Ids(members)[i + 1] == u;
          }
        }
        r
  }

  lemma MemberIsRow(members: seq<ActiveMember>, m: ActiveMember)
    requires Distinct(Ids(members)) && m in members
    ensures MemberOf(members, m.userId) == Some(m)
  {
    var i :| 0 <= i < |members| && members[i] == m;
    assert Ids(members)[i] == m.userId;
    var r := MemberOf(members, m.userId).value;
    var j :| 0 <= j < |members| && members[j] == r;
    assert Ids(members)[j] == Ids(members)[i];
  }

  lemma IdIn(members: seq<ActiveMember>, u: UserId)
    ensures u in Ids(members) <==> exists m :: m in members && m.userId == u
  {
    if u in Ids(members) {
      var i :| 0 <= i < |members| && Ids(members)[i] == u;
      assert members[i] in members;
    }
    if exists m :: m in members && m.userId == u {
      var m :| m in members && m.userId == u;
      var i :| 0 <= i < |members| && members[i] == m;
      assert Ids(members)[i] == u;
    }
  }

  /**
   The occupants of a room are exactly the members assigned to it, each once, in strict order of
   (joinedAt, userId).
   */
  lemma OccupantsExact(members: seq<ActiveMember>, rooms: map<RoomId, int>, room: RoomId)
    requires WellHoused(members, rooms)
    ensures Distinct(OccupantIds(members, room))
    ensures forall u :: u in OccupantIds(members, room) <==>
            exists m :: m in members && m.userId == u && m.roomId == Some(room)
    ensures var sorted := SortMembers(Occupying(members, room));
            && OccupantIds(members, room) == Ids(sorted) && InOrder(sorted)
            && forall m :: m in sorted <==> m in members && m.roomId == Some(room)
  {
    hide InOrder;
    var occupying := Occupying(members, room);
    var sorted := SortMembers(occupying);
    OccupyingDistinct(members, room);
    SortMembersInOrder(occupying);
    assert forall m :: m in sorted <==> m in SetOf(sorted);
    assert forall m :: m in occupying <==> m in SetOf(occupying);
    forall u
      ensures u in OccupantIds(members, room) <==> exists m :: m in members && m.userId == u && m.roomId == Some(room)
    {
      IdIn(sorted, u);
    }
    DistinctSize(Ids(occupying));
    DistinctSize(Ids(sorted));
    forall u
      ensures u in Ids(sorted) <==> u in Ids(occupying)
    {
      IdIn(sorted, u);
      IdIn(occupying, u);
    }
    assert SetOf(Ids(sorted)) == SetOf(Ids(occupying));
  }

  lemma {:induction false} OccupyingDistinct(members: seq<ActiveMember>, room: RoomId)
    requires Distinct(Ids(members))
    ensures Distinct(Ids(Occupying(members, room)))
  {
    if members != [] {
      var front, m := members[..|members| - 1], members[|members| - 1];
      assert forall i :: 0 <= i < |front| ==> Ids(front)[i] == Ids(members)[i];
      OccupyingDistinct(front, room);
      if m.roomId == Some(room) {
        var some := Occupying(front, room);
        assert Ids(some + [m]) == Ids(some) + [m.userId];
        IdIn(some, m.userId);
        IdIn(front, m.userId);
        forall i | 0 <= i < |front|
          ensures Ids(front)[i] != m.userId
        {
          assert Ids(members)[i] == Ids(front)[i] && Ids(members)[|members| - 1] == m.userId;
        }
      }
    }
  }

  // ---------- room weights ----------

  /** A member's personal weight: their share of their room's weight, whatever the expense. */
  function WeightOf(members: seq<ActiveMember>, rooms: map<RoomId, int>, u: UserId): Option<int> {
    match MemberOf(members, u)
    case None => None
    case Some(m) =>
      if m.roomId.None? || m.roomId.value !in rooms then None
      else
        var occupants := OccupantIds(members, m.roomId.value);
        if occupants == [] then None
        else
          var shares := Divided(rooms[m.roomId.value], occupants);
          if u in shares then Some(shares[u]) else None
  }

  /** The same rows in another order. */
  ghost predicate SameRows(a: seq<ActiveMember>, b: seq<ActiveMember>) {
    Distinct(Ids(a)) && Distinct(Ids(b)) && SetOf(a) == SetOf(b)
  }

  lemma SameMember(a: seq<ActiveMember>, b: seq<ActiveMember>, u: UserId)
    requires SameRows(a, b)
    ensures MemberOf(a, u) == MemberOf(b, u)
  {
    hide MemberOf, Distinct;
    assert forall m :: m in a <==> m in SetOf(a);
    assert forall m :: m in b <==> m in SetOf(b);
    IdIn(a, u);
    IdIn(b, u);
    if m :| m in a && m.userId == u {
      MemberIsRow(a, m);
      MemberIsRow(b, m);
    }
  }

  lemma SameOccupants(a: seq<ActiveMember>, b: seq<ActiveMember>, room: RoomId)
    requires SameRows(a, b)
    ensures OccupantIds(a, room) == OccupantIds(b, room)
  {
    hide InOrder, Distinct;
    assert forall m :: m in a <==> m in SetOf(a);
    assert forall m :: m in b <==> m in SetOf(b);
    OccupyingDistinct(a, room);
    OccupyingDistinct(b, room);
    SortMembersInOrder(Occupying(a, room));
    SortMembersInOrder(Occupying(b, room));
    assert SetOf(Occupying(a, room)) == SetOf(Occupying(b, room));
    OneOrder(SortMembers(Occupying(a, room)), SortMembers(Occupying(b, room)));
  }

  /** A derived weight is a fact about the house: the order in which the member rows come does not matter. */
  lemma WeightOfAnyOrder(a: seq<ActiveMember>, b: seq<ActiveMember>, rooms: map<RoomId, int>, u: UserId)
    requires SameRows(a, b)
    ensures WeightOf(a, rooms, u) == WeightOf(b, rooms, u)
  {
    hide MemberOf, OccupantIds, Divided, SameRows;
    SameMember(a, b, u);
    if MemberOf(a, u).Some? && MemberOf(a, u).value.roomId.Some? {
      SameOccupants(a, b, MemberOf(a, u).value.roomId.value);
    }
  }

  lemma WeightOfRoomed(members: seq<ActiveMember>, rooms: map<RoomId, int>, m: ActiveMember)
    requires WellHoused(members, rooms) && m in members && m.roomId.Some?
    ensures var occupants := OccupantIds(members, m.roomId.value);
            && m.userId in occupants && Divisible(rooms[m.roomId.value], occupants)
            && m.userId in Divided(rooms[m.roomId.value], occupants)
            && WeightOf(members, rooms, m.userId) == Some(Divided(rooms[m.roomId.value], occupants)[m.userId])
            && WeightOf(members, rooms, m.userId).value >= 0
  {
    var room := m.roomId.value;
    var occupants := OccupantIds(members, room);
    OccupantsExact(members, rooms, room);
    MemberIsRow(members, m);
    hide OccupantIds, Divided;
    DividedFairly(rooms[room], occupants);
  }

  // ---------- a weight, counted ----------

  /** The members who share a room. */
  function Sharing(members: seq<ActiveMember>, room: RoomId): set<ActiveMember> {
    set m | m in members && m.roomId == Some(room)
  }

  /** Those of them who joined before a member, or at the same time with a smaller id. */
  function Ahead(members: seq<ActiveMember>, m: ActiveMember): set<ActiveMember> {
    set x | x in members && x.roomId == m.roomId
            && (x.joinedAt < m.joinedAt || (x.joinedAt == m.joinedAt && Less(x.userId, m.userId)))
  }

  /** An equal part of the room's weight, and one of the odd basis points for each of the first to join. */
  lemma WeightByRank(members: seq<ActiveMember>, rooms: map<RoomId, int>, m: ActiveMember)
    requires WellHoused(members, rooms) && m in members && m.roomId.Some?
    ensures var weight, n := rooms[m.roomId.value], |Sharing(members, m.roomId.value)|;
            && n > 0
            && WeightOf(members, rooms, m.userId)
               == Some(weight / n + if |Ahead(members, m)| < weight % n then 1 else 0)
  {
    hide WellHoused, InOrder, Divided, DividedUpTo, SortMembers, Occupying, OccupantIds, WeightOf, ShareAt, Ahead;
    var room := m.roomId.value;
    var sorted := SortMembers(Occupying(members, room));
    HousedRoom(members, rooms, m);
    OccupantsExact(members, rooms, room);
    WeightOfRoomed(members, rooms, m);
    var k :| 0 <= k < |sorted| && sorted[k] == m;
    RankIs(members, sorted, m, k);
    DistinctSize(sorted);
    SharingSize(members, sorted, room);
    var occupants := Ids(sorted);
    DividedKeys(rooms[room], occupants, |occupants|);
    DividedIs(rooms[room], occupants);
    assert occupants[k] == m.userId;
    ShareIs(rooms[room], |occupants|, k);
  }

  lemma HousedRoom(members: seq<ActiveMember>, rooms: map<RoomId, int>, m: ActiveMember)
    requires WellHoused(members, rooms) && m in members && m.roomId.Some?
    ensures m.roomId.value in rooms && 1 <= rooms[m.roomId.value] <= 10000
  {
  }

  lemma DividedIs(weight: int, occupants: seq<UserId>)
    requires occupants != []
    ensures Divided(weight, occupants) == DividedUpTo(weight, occupants, |occupants|)
  {
  }

  lemma ShareIs(weight: int, n: nat, k: nat)
    requires n > 0
    ensures ShareAt(weight, n, k) == weight / n + if k < weight % n then 1 else 0
  {
  }

  lemma SharingSize(members: seq<ActiveMember>, sorted: seq<ActiveMember>, room: RoomId)
    requires Distinct(Ids(sorted)) && forall x :: x in sorted <==> x in members && x.roomId == Some(room)
    ensures |Sharing(members, room)| == |sorted|
  {
    DistinctMembers(sorted);
    DistinctSize(sorted);
    assert SetOf(sorted) == Sharing(members, room);
  }

  lemma DistinctMembers(ms: seq<ActiveMember>)
    requires Distinct(Ids(ms))
    ensures Distinct(ms)
  {
    forall i, j | 0 <= i < j < |ms|
      ensures ms[i] != ms[j]
    {
      assert Ids(ms)[i] != Ids(ms)[j];
    }
  }

  /** In strict order, those ahead of a member are the ones listed before it. */
  lemma RankIs(members: seq<ActiveMember>, sorted: seq<ActiveMember>, m: ActiveMember, k: nat)
    requires InOrder(sorted) && Distinct(Ids(sorted)) && k < |sorted| && sorted[k] == m && m.roomId.Some?
    requires forall x :: x in sorted <==> x in members && x.roomId == m.roomId
    ensures |Ahead(members, m)| == k
  {
    hide Less;
    forall x
      ensures x in Ahead(members, m) <==> x in sorted[..k]
    {
      if x in sorted {
        var i :| 0 <= i < |sorted| && sorted[i] == x;
        if i < k { assert sorted[..k][i] == x; }
        if k < i { EarlierAsymmetric(m, x); }
        if i == k { LessIrreflexive(m.userId); }
      }
    }
    DistinctMembers(sorted);
    assert Distinct(sorted[..k]);
    DistinctSize(sorted[..k]);
    assert Ahead(members, m) == SetOf(sorted[..k]);
  }

  lemma Unroomed(members: seq<ActiveMember>, rooms: map<RoomId, int>, u: UserId)
    requires WellHoused(members, rooms)
    ensures WeightOf(members, rooms, u).None? <==> !Roomed(members, u)
  {
    hide OccupantIds, Divided, Divisible;
    match MemberOf(members, u)
    case None => IdIn(members, u);
    case Some(m) =>
      if Roomed(members, u) {
        var r :| r in members && r.userId == u && r.roomId.Some?;
        MemberIsRow(members, r);
        WeightOfRoomed(members, rooms, r);
      }
  }

  /** The row of the participant list a map entry stands for, `membersById.get(id)?.roomId`. */
  function RoomOf(members: seq<ActiveMember>, u: UserId): Option<RoomId> {
    match MemberOf(members, u)
    case None => None
    case Some(m) => m.roomId
  }

  /** The rooms some participant is assigned to. */
  function RoomsOf(members: seq<ActiveMember>, participants: seq<UserId>): set<RoomId> {
    set u | u in participants && RoomOf(members, u).Some? :: RoomOf(members, u).value
  }

  /** Fills `occupantsByRoom`, one member at a time. */
  method GroupByRoom(members: seq<ActiveMember>) returns (occupantsByRoom: map<RoomId, seq<ActiveMember>>)
    ensures forall room :: (if room in occupantsByRoom then occupantsByRoom[room] else []) == Occupying(members, room)
  {
    occupantsByRoom := map[];
    for i := 0 to |members|
      invariant forall room ::
                (if room in occupantsByRoom then occupantsByRoom[room] else []) == Occupying(members[..i], room)
    {
      assert members[..i + 1][..i] == members[..i];
      var m := members[i];
      if m.roomId.Some? {
        var room := m.roomId.value;
        var list := if room in occupantsByRoom then occupantsByRoom[room] else [];
        occupantsByRoom := occupantsByRoom[room := list + [m]];
      }
    }
    assert members[..|members|] == members;
  }

  /** The shares of every occupant of the given rooms. */
  method SharesOfRooms(members: seq<ActiveMember>, rooms: map<RoomId, int>, roomIds: set<RoomId>)
      returns (shareByUser: map<UserId, int>)
    requires WellHoused(members, rooms) && roomIds <= rooms.Keys
    requires forall room :: room in roomIds ==> exists m :: m in members && m.roomId == Some(room)
    ensures forall u :: u in shareByUser <==> RoomOf(members, u).Some? && RoomOf(members, u).value in roomIds
    ensures forall u :: u in shareByUser ==> WeightOf(members, rooms, u) == Some(shareByUser[u])
  {
    hide Divided, Divisible, Occupying, SortMembers, MemberOf, WellHoused, WeightOf;
    var occupantsByRoom := GroupByRoom(members);
    shareByUser := map[];
    var todo := roomIds;
    while todo != {}
      invariant todo <= roomIds
      invariant forall u :: u in shareByUser <==> RoomOf(members, u).Some? && RoomOf(members, u).value in roomIds - todo
      invariant forall u :: u in shareByUser ==> WeightOf(members, rooms, u) == Some(shareByUser[u])
      decreases todo
    {
      var room :| room in todo;
      var occupants := SortMembers(if room in occupantsByRoom then occupantsByRoom[room] else []);
      RoomShares(members, rooms, room);
      var shares := DivideRoomWeight(rooms[room], Ids(occupants));
      shareByUser := shareByUser + shares.value;
      todo := todo - {room};
    }
  }

  /** What one room of the loop contributes. */
  lemma RoomShares(members: seq<ActiveMember>, rooms: map<RoomId, int>, room: RoomId)
    requires WellHoused(members, rooms) && room in rooms && exists m :: m in members && m.roomId == Some(room)
    ensures var occupants := OccupantIds(members, room);
            && Divisible(rooms[room], occupants)
            && (forall u :: u in Divided(rooms[room], occupants) <==> RoomOf(members, u) == Some(room))
            && forall u :: u in Divided(rooms[room], occupants) ==>
                   WeightOf(members, rooms, u) == Some(Divided(rooms[room], occupants)[u])
  {
    hide Divided, OccupantIds, WeightOf, InOrder, SortMembers, Occupying, WellHoused, RoomOf;
    var occupants := OccupantIds(members, room);
    var m0 :| m0 in members && m0.roomId == Some(room);
    WeightOfRoomed(members, rooms, m0);
    DividedFairly(rooms[room], occupants);
    assert forall u :: u in Divided(rooms[room], occupants) <==> u in SetOf(occupants);
    forall u { RoomShareOf(members, rooms, room, u); }
  }

  lemma RoomShareOf(members: seq<ActiveMember>, rooms: map<RoomId, int>, room: RoomId, u: UserId)
    requires WellHoused(members, rooms) && room in rooms
    ensures var occupants := OccupantIds(members, room);
            && (u in occupants <==> RoomOf(members, u) == Some(room))
            && (u in occupants ==>
                  && u in Divided(rooms[room], occupants)
                  && WeightOf(members, rooms, u) == Some(Divided(rooms[room], occupants)[u]))
  {
    hide Divided, OccupantIds, WeightOf, InOrder, SortMembers, Occupying, WellHoused;
    OccupantsExact(members, rooms, room);
    HousedDistinct(members, rooms);
    if u in OccupantIds(members, room) {
      var m :| m in members && m.userId == u && m.roomId == Some(room);
      MemberIsRow(members, m);
      WeightOfRoomed(members, rooms, m);
    }
  }

  lemma HousedDistinct(members: seq<ActiveMember>, rooms: map<RoomId, int>)
    requires WellHoused(members, rooms)
    ensures Distinct(Ids(members))
  {
  }

  method DeriveRoomWeights(participants: seq<UserId>, members: seq<ActiveMember>, rooms: map<RoomId, int>)
      returns (r: Result<map<UserId, int>, PostingError>)
    requires WellHoused(members, rooms)
    ensures r.Success? <==> forall u :: u in participants ==> Roomed(members, u)
    ensures r.Success? ==> r.value.Keys == SetOf(participants)
    ensures r.Success? ==> forall u :: u in participants ==> WeightOf(members, rooms, u) == Some(r.value[u])
    ensures r.Failure? ==> r.error == NoRoom
  {
    hide WeightOf, MemberOf, Occupying;
    var roomIds := RoomsOf(members, participants);
    RoomsExist(members, rooms, participants);
    var shareByUser := SharesOfRooms(members, rooms, roomIds);
    var weights: map<UserId, int> := map[];
    for i := 0 to |participants|
      invariant weights.Keys == SetOf(participants[..i])
      invariant forall u :: u in participants[..i] ==>
                Roomed(members, u) && WeightOf(members, rooms, u) == Some(weights[u])
    {
      assert participants[..i + 1] == participants[..i] + [participants[i]];
      var u := participants[i];
      Unroomed(members, rooms, u);
      RoomOfRoomed(members, rooms, u);
      if u !in shareByUser { return Failure(NoRoom); }
      weights := weights[u := shareByUser[u]];
    }
    assert participants[..|participants|] == participants;
    return Success(weights);
  }

  lemma RoomsExist(members: seq<ActiveMember>, rooms: map<RoomId, int>, participants: seq<UserId>)
    requires WellHoused(members, rooms)
    ensures RoomsOf(members, participants) <= rooms.Keys
    ensures forall room :: room in RoomsOf(members, participants) ==> exists m :: m in members && m.roomId == Some(room)
  {
    forall room | room in RoomsOf(members, participants)
      ensures room in rooms && exists m :: m in members && m.roomId == Some(room)
    {
      var u :| u in participants && RoomOf(members, u) == Some(room);
      assert MemberOf(members, u).value in members;
    }
  }

  lemma RoomOfRoomed(members: seq<ActiveMember>, rooms: map<RoomId, int>, u: UserId)
    requires WellHoused(members, rooms)
    ensures RoomOf(members, u).Some? <==> Roomed(members, u)
  {
    if Roomed(members, u) {
      var m :| m in members && m.userId == u && m.roomId.Some?;
      MemberIsRow(members, m);
    }
  }

  // ---------- resolveSplits ----------

  datatype ResolveInput = ResolveInput(
    amountCents: int, paidBy: UserId, mode: SplitMode, participants: seq<UserId>,
    exactCents: Option<map<UserId, int>>, weightsBp: Option<map<UserId, int>>)

  function ToSplit(input: ResolveInput, weightsBp: Option<map<UserId, int>>): SplitInput {
    SplitInput(input.amountCents, input.paidBy, input.mode, input.participants, input.exactCents, weightsBp)
  }

  predicate Active(members: seq<ActiveMember>, u: UserId) {
    exists m :: m in members && m.userId == u
  }

  /** Payer and participants are active members, and the payer is a person who can act. */
  predicate MayPost(members: seq<ActiveMember>, input: ResolveInput) {
    (forall u :: u in input.participants ==> Active(members, u))
    && exists m :: m in members && m.userId == input.paidBy && !m.isPlaceholder
  }

  /** The derived weights, as a map over the participants. */
  function WeightsOf(members: seq<ActiveMember>, rooms: map<RoomId, int>, ids: set<UserId>): map<UserId, int> {
    map u | u in ids :: WeightOf(members, rooms, u).GetOr(0)
  }

  /** The split computeSplits is asked for. */
  function SplitRequest(members: seq<ActiveMember>, rooms: map<RoomId, int>, input: ResolveInput): SplitInput {
    ToSplit(input, if input.mode == RoomWeighted then Some(WeightsOf(members, rooms, SetOf(input.participants)))
      else input.weightsBp)
  }

  /** The postings resolveSplits accepts. */
  ghost predicate Accepted(members: seq<ActiveMember>, rooms: map<RoomId, int>, input: ResolveInput) {
    MayPost(members, input)
    && (input.mode == RoomWeighted ==>
          input.weightsBp.None? && forall u :: u in input.participants ==> Roomed(members, u))
    && Valid(SplitRequest(members, rooms, input))
  }

  method ResolveSplits(members: seq<ActiveMember>, rooms: map<RoomId, int>, input: ResolveInput)
      returns (r: Result<map<UserId, int>, PostingError>)
    requires WellHoused(members, rooms)
    ensures r.Success? <==> Accepted(members, rooms, input)
    ensures r.Success? ==> r.value == SplitOf(SplitRequest(members, rooms, input))
    ensures r.Success? ==>
              Apportions(r.value, map id | id in SetOf(input.participants) :: ResolvedShare(members, rooms, input, id),
                         input.amountCents, input.paidBy)
  {
    hide Valid, SplitOf, WeightOf, MemberOf, Roomed, Apportions, ResolvedShare;
    Involved(members, input);
    if Accepted(members, rooms, input) { ResolvedShares(members, rooms, input); }
    if exists u :: u in input.participants + [input.paidBy] && MemberOf(members, u).None? { return Failure(NotActive); }
    if MemberOf(members, input.paidBy).value.isPlaceholder { return Failure(PlaceholderPayer); }
    var weightsBp := input.weightsBp;
    if input.mode == RoomWeighted {
      if weightsBp.Some? { return Failure(WeightsSupplied); }
      var derived := DeriveRoomWeights(input.participants, members, rooms);
      if derived.Failure? { return Failure(derived.error); }
      assert derived.value == WeightsOf(members, rooms, SetOf(input.participants));
      weightsBp := Some(derived.value);
    }
    var splits := ComputeSplits(ToSplit(input, weightsBp));
    match splits
    case Success(s) => return Success(s);
    case Failure(e) => return Failure(BadSplit(e));
  }

  /** Neither what is accepted nor the split depends on the order of the member rows. */
  lemma PostingAnyOrder(a: seq<ActiveMember>, b: seq<ActiveMember>, rooms: map<RoomId, int>, input: ResolveInput)
    requires SameRows(a, b)
    ensures Accepted(a, rooms, input) <==> Accepted(b, rooms, input)
    ensures SplitRequest(a, rooms, input) == SplitRequest(b, rooms, input)
  {
    hide Valid, WeightOf, Distinct;
    assert forall m :: m in a <==> m in SetOf(a);
    assert forall m :: m in b <==> m in SetOf(b);
    forall u { WeightOfAnyOrder(a, b, rooms, u); }
    var ids := SetOf(input.participants);
    assert WeightsOf(a, rooms, ids) == WeightsOf(b, rooms, ids);
  }

  /** A participant's share of a posting apart from the remainder, room by room for room-weighted ones. */
  function ResolvedShare(members: seq<ActiveMember>, rooms: map<RoomId, int>, input: ResolveInput, id: UserId): int {
    match input.mode
    case Equal => if input.participants == [] then 0 else input.amountCents / |input.participants|
    case Exact => Configured(input.exactCents, id)
    case Percent => input.amountCents * Configured(input.weightsBp, id) / 10000
    case RoomWeighted => input.amountCents * WeightOf(members, rooms, id).GetOr(0) / 10000
  }

  function Configured(config: Option<map<UserId, int>>, id: UserId): int {
    if config.Some? && id in config.value then config.value[id] else 0
  }

  /** An accepted posting charges its participants, in full, with the remainder where it belongs. */
  lemma ResolvedShares(members: seq<ActiveMember>, rooms: map<RoomId, int>, input: ResolveInput)
    requires Accepted(members, rooms, input)
    ensures Apportions(SplitOf(SplitRequest(members, rooms, input)),
                       map id | id in SetOf(input.participants) :: ResolvedShare(members, rooms, input, id),
                       input.amountCents, input.paidBy)
  {
    hide SplitOf, Apportions, WeightOf, Roomed, Sum;
    var request := SplitRequest(members, rooms, input);
    PayerTakesTheRest(request);
    assert PlainShares(request) == map id | id in SetOf(input.participants) :: ResolvedShare(members, rooms, input, id);
  }

  lemma Involved(members: seq<ActiveMember>, input: ResolveInput)
    requires Distinct(Ids(members))
    ensures MayPost(members, input) <==>
            && (forall u :: u in input.participants + [input.paidBy] ==> MemberOf(members, u).Some?)
            && !MemberOf(members, input.paidBy).value.isPlaceholder
  {
    hide MemberOf;
    forall u
      ensures MemberOf(members, u).Some? <==> Active(members, u)
    {
      IdIn(members, u);
    }
    var all := input.participants + [input.paidBy];
    assert input.paidBy in all && forall u :: u in input.participants ==> u in all;
    forall r | r in members && r.userId == input.paidBy
      ensures MemberOf(members, input.paidBy) == Some(r)
    {
      MemberIsRow(members, r);
    }
  }

  // ---------- when a room-weighted split is accepted ----------

  predicate Occupied(members: seq<ActiveMember>, room: RoomId) {
    exists m :: m in members && m.roomId == Some(room)
  }

  /** Everyone with a room. */
  function RoomedIds(members: seq<ActiveMember>): set<UserId> {
    set m | m in members && m.roomId.Some? :: m.userId
  }

  function RoomMap(members: seq<ActiveMember>): map<UserId, RoomId> {
    map u | u in RoomedIds(members) :: RoomOf(members, u).GetOr("")
  }

  /** The occupants of one room carry the room's whole weight between them. */
  lemma RoomSubtotal(members: seq<ActiveMember>, rooms: map<RoomId, int>, room: RoomId)
    requires WellHoused(members, rooms) && room in rooms
    ensures var ids := RoomedIds(members);
            var fiber := Fiber(ids, RoomMap(members), room);
            && Sum(fiber, WeightsOf(members, rooms, ids)) == if Occupied(members, room) then rooms[room] else 0
  {
    hide Divided, OccupantIds, WeightOf, RoomOf, WellHoused;
    var ids := RoomedIds(members);
    var f := WeightsOf(members, rooms, ids);
    var fiber := Fiber(ids, RoomMap(members), room);
    RoomedExactly(members, rooms);
    if Occupied(members, room) {
      RoomShares(members, rooms, room);
      var occupants := OccupantIds(members, room);
      var shares := Divided(rooms[room], occupants);
      DividedFairly(rooms[room], occupants);
      assert fiber == shares.Keys;
      SumAgree(fiber, f, shares);
    } else {
      assert fiber == {};
      SumEmpty(f);
    }
  }

  lemma RoomedExactly(members: seq<ActiveMember>, rooms: map<RoomId, int>)
    requires WellHoused(members, rooms)
    ensures forall u :: u in RoomedIds(members) <==> RoomOf(members, u).Some?
    ensures forall u :: RoomOf(members, u).Some? ==>
            RoomOf(members, u).value in rooms && Occupied(members, RoomOf(members, u).value)
    ensures forall u :: u in RoomedIds(members) <==> Roomed(members, u)
  {
    forall u
      ensures RoomOf(members, u).Some? <==> Roomed(members, u)
    {
      RoomOfRoomed(members, rooms, u);
    }
  }

  /** All derived weights together: the weights of the occupied rooms. */
  lemma RoomedTotal(members: seq<ActiveMember>, rooms: map<RoomId, int>)
    requires WellHoused(members, rooms)
    ensures var ids := RoomedIds(members);
            var f := WeightsOf(members, rooms, ids);
            var vacant := map room | room in rooms :: if Occupied(members, room) then 0 else rooms[room];
            Total(rooms) == Sum(ids, f) + Total(vacant)
  {
    hide WeightOf, RoomOf, Occupied, WellHoused;
    var ids := RoomedIds(members);
    var f, part := WeightsOf(members, rooms, ids), RoomMap(members);
    var vacant := map room | room in rooms :: if Occupied(members, room) then 0 else rooms[room];
    RoomedExactly(members, rooms);
    var subtotals := Subtotals(ids, f, part, rooms.Keys);
    SumByGroup(ids, f, part, rooms.Keys);
    forall room | room in rooms
      ensures rooms[room] == subtotals[room] + vacant[room]
    {
      RoomSubtotal(members, rooms, room);
    }
    assert subtotals.Keys == rooms.Keys && vacant.Keys == rooms.Keys;
    SumPlus(rooms.Keys, subtotals, vacant, rooms);
  }

  lemma WeightsNonNegative(members: seq<ActiveMember>, rooms: map<RoomId, int>, u: UserId)
    requires WellHoused(members, rooms) && Roomed(members, u)
    ensures WeightOf(members, rooms, u).Some? && WeightOf(members, rooms, u).value >= 0
  {
    hide WeightOf, OccupantIds, Divided, Divisible;
    var m :| m in members && m.userId == u && m.roomId.Some?;
    WeightOfRoomed(members, rooms, m);
  }

  /** The weights of some roomed members sum to the house's total exactly when nothing is left out. */
  lemma FullHouse(members: seq<ActiveMember>, rooms: map<RoomId, int>, ids: set<UserId>)
    requires WellHoused(members, rooms) && Total(rooms) == 10000 && ids <= RoomedIds(members)
    ensures var f := WeightsOf(members, rooms, RoomedIds(members));
            && (forall u :: u in ids ==> 0 <= f[u] <= 10000)
            && (Sum(ids, f) == 10000 <==>
                && (forall room :: room in rooms ==> Occupied(members, room))
                && (forall u :: u in RoomedIds(members) - ids ==> f[u] == 0))
  {
    hide WeightOf, RoomOf, Occupied, WellHoused, RoomedIds, Sum;
    var all := RoomedIds(members);
    var f := WeightsOf(members, rooms, all);
    var vacant := map room | room in rooms :: if Occupied(members, room) then 0 else rooms[room];
    RoomedExactly(members, rooms);
    forall u | u in all
      ensures f[u] >= 0
    {
      WeightsNonNegative(members, rooms, u);
    }
    RoomedTotal(members, rooms);
    WeightsPositive(members, rooms);
    assert f.Keys == all && vacant.Keys == rooms.Keys;
    WholeTotal(f, ids, vacant);
    assert forall room :: room in rooms ==> (vacant[room] == 0 <==> Occupied(members, room));
  }

  lemma WeightsPositive(members: seq<ActiveMember>, rooms: map<RoomId, int>)
    requires WellHoused(members, rooms)
    ensures forall room :: room in rooms ==> 1 <= rooms[room] <= 10000
  {
  }

  /** Part of a family of non-negative terms makes up the whole only when the rest are zero. */
  lemma WholeTotal<K, G>(f: map<K, int>, ids: set<K>, rest: map<G, int>)
    requires ids <= f.Keys && Total(f) + Total(rest) == 10000
    requires (forall u :: u in f ==> f[u] >= 0) && forall g :: g in rest ==> rest[g] >= 0
    ensures forall u :: u in ids ==> 0 <= f[u] <= 10000
    ensures Sum(ids, f) == 10000 <==>
              (forall g :: g in rest ==> rest[g] == 0) && (forall u :: u in f.Keys - ids ==> f[u] == 0)
  {
    SumUnion(ids, f.Keys - ids, f);
    assert ids + (f.Keys - ids) == f.Keys;
    SumZero(ids, f);
    SumZero(f.Keys - ids, f);
    SumZero(rest.Keys, rest);
    forall u | u in ids
      ensures f[u] <= 10000
    {
      SumTake(ids, f, u);
      SumZero(ids - {u}, f);
    }
  }

  /**
   With house rooms summing to 10000 basis points and a valid total and payer, a room-weighted
   posting is accepted exactly when its participants are non-empty, distinct and roomed, no room
   stands vacant, and every roomed member left out has a derived share of zero.
   */
  lemma RoomWeightedAcceptance(members: seq<ActiveMember>, rooms: map<RoomId, int>, input: ResolveInput)
    requires WellHoused(members, rooms) && Total(rooms) == 10000
    requires input.mode == RoomWeighted && input.weightsBp.None? && 0 < input.amountCents <= MAX_SAFE
    requires exists m :: m in members && m.userId == input.paidBy && !m.isPlaceholder
    ensures Accepted(members, rooms, input) <==>
            && input.participants != [] && Distinct(input.participants)
            && (forall u :: u in input.participants ==> Roomed(members, u))
            && (forall room :: room in rooms ==> Occupied(members, room))
            && (forall u :: Roomed(members, u) && u !in input.participants ==> WeightOf(members, rooms, u) == Some(0))
  {
    hide WeightOf, RoomOf, Occupied, WellHoused, Roomed, RoomedIds, Sum;
    RoomedExactly(members, rooms);
    RoomedAreActive(members);
    if forall u :: u in input.participants ==> Roomed(members, u) {
      var ids := SetOf(input.participants);
      FullHouse(members, rooms, ids);
      SumAgree(ids, WeightsOf(members, rooms, RoomedIds(members)), WeightsOf(members, rooms, ids));
      LeftOut(members, rooms, input.participants);
    }
  }

  /** "Left out with a zero share", in terms of members and in terms of the derived weights. */
  lemma LeftOut(members: seq<ActiveMember>, rooms: map<RoomId, int>, participants: seq<UserId>)
    requires WellHoused(members, rooms)
    ensures var f := WeightsOf(members, rooms, RoomedIds(members));
            (forall u :: Roomed(members, u) && u !in participants ==> WeightOf(members, rooms, u) == Some(0))
            <==> (forall u :: u in RoomedIds(members) - SetOf(participants) ==> f[u] == 0)
  {
    hide WeightOf, WellHoused, Roomed, RoomedIds, RoomOf, Occupied;
    RoomedExactly(members, rooms);
    var f := WeightsOf(members, rooms, RoomedIds(members));
    forall u | Roomed(members, u)
      ensures f[u] == 0 <==> WeightOf(members, rooms, u) == Some(0)
      ensures u !in participants <==> u in RoomedIds(members) - SetOf(participants)
    {
      WeightsNonNegative(members, rooms, u);
    }
  }

  lemma RoomedAreActive(members: seq<ActiveMember>)
    ensures forall u :: Roomed(members, u) ==> Active(members, u)
  {
  }
}
