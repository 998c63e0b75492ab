/**
 Rooms and memberships of one house (setRooms in apps/api/src/houses/rooms.service.ts, the
 membership writes of acceptInvite in apps/api/src/houses/invites.service.ts, createPlaceholder
 in apps/api/src/houses/members.service.ts), and why room-weighted bills keep posting.
 */
module House {
  import opened Text
  import opened Sums
  import opened Splits
  import opened Rooms
  import opened Posting
  import opened BillPosting

  datatype Row = Row(placeholder: bool, claimed: bool, active: bool, room: Option<RoomId>, joinedAt: int)

  type Members = map<UserId, Row>

  datatype RoomInput = RoomInput(weightBp: int, userIds: seq<UserId>)

  datatype Refusal = NotWhole | OneRoomOnly | NotActiveMember | WeightOutOfRange | AlreadyClaimed

  predicate IsActive(members: Members, u: UserId) {
    u in members && members[u].active
  }

  predicate Lives(members: Members, u: UserId, room: RoomId) {
    IsActive(members, u) && members[u].room == Some(room)
  }

  /** A placeholder's room can be claimed: the row is there, unclaimed and active. */
  predicate Claimable(members: Members, p: UserId) {
    p in members && members[p].placeholder && !members[p].claimed && members[p].active
  }

  /** The row of a user once the accept has made them a member, with the room they end up in. */
  function Joined(members: Members, user: UserId, inherited: Option<RoomId>, now: int): Row {
    if user !in members then Row(false, false, true, inherited, now)
    else if !members[user].active then members[user].(active := true, joinedAt := now, room := inherited)
    else if members[user].room.None? then members[user].(room := inherited)
    else members[user]
  }

  function AfterAccept(members: Members, user: UserId, target: Option<UserId>, now: int): Members {
    if target.Some? && target.value in members then
      var p := target.value;
      members[user := Joined(members, user, members[p].room, now)]
             [p := members[p].(claimed := true, active := false, room := None)]
    else members[user := Joined(members, user, None, now)]
  }

  // ---------- the room configuration ----------

  function WeightSum(inputs: seq<RoomInput>): int {
    if inputs == [] then 0 else WeightSum(inputs[..|inputs| - 1]) + inputs[|inputs| - 1].weightBp
  }

  /** `rooms.flatMap((r) => r.userIds)` */
  function Flat(inputs: seq<RoomInput>): seq<UserId> {
    if inputs == [] then [] else Flat(inputs[..|inputs| - 1]) + inputs[|inputs| - 1].userIds
  }

  lemma {:induction false} InFlat(inputs: seq<RoomInput>, u: UserId)
    ensures u in Flat(inputs) <==> exists i :: 0 <= i < |inputs| && u in inputs[i].userIds
  {
    if inputs != [] {
      var rest := inputs[..|inputs| - 1];
      InFlat(rest, u);
      if u in Flat(rest) {
        var i :| 0 <= i < |rest| && u in rest[i].userIds;
        assert inputs[i] == rest[i];
      }
      if i :| 0 <= i < |inputs| && u in inputs[i].userIds && i < |rest| { assert rest[i] == inputs[i]; }
    }
  }

  /** With all occupants distinct no user is listed in two rooms. */
  lemma {:induction false} OneRoomEach(inputs: seq<RoomInput>, i: nat, j: nat, u: UserId)
    requires Distinct(Flat(inputs)) && i < j < |inputs| && u in inputs[i].userIds
    ensures u !in inputs[j].userIds
  {
    hide Distinct;
    var n := |inputs| - 1;
    var rest, last := inputs[..n], inputs[n].userIds;
    DistinctParts(Flat(rest), last);
    assert rest[i] == inputs[i];
    InFlat(rest, u);
    if j < n {
      assert rest[j] == inputs[j];
      OneRoomEach(rest, i, j, u);
    }
  }

  /** `activeMembers.length !== occupants.length`, for distinct occupants. */
  lemma AllActive(members: Members, occupants: seq<UserId>, found: set<UserId>)
    requires Distinct(occupants) && found == set u | u in occupants && IsActive(members, u)
    ensures |found| == |occupants| <==> forall u :: u in occupants ==> IsActive(members, u)
  {
    hide IsActive;
    DistinctSize(occupants);
    SameSizeSubset(found, SetOf(occupants));
    assert forall u :: u in occupants <==> u in SetOf(occupants);
  }

  /** What setRooms accepts; the last conjunct is the table's own check. */
  predicate Acceptable(members: Members, inputs: seq<RoomInput>) {
    WeightSum(inputs) == 10000 && Distinct(Flat(inputs)) && (forall u :: u in Flat(inputs) ==> IsActive(members, u))
    && forall i :: 0 <= i < |inputs| ==> 1 <= inputs[i].weightBp <= 10000
  }

  /** Members after the assignment: everyone listed in the room listed, everyone else in none. */
  ghost predicate Assigned(before: Members, after: Members, inputs: seq<RoomInput>, ids: seq<RoomId>)
    requires |ids| == |inputs|
  {
    && after.Keys == before.Keys
    && (forall u :: u in before ==> after[u] == before[u].(room := after[u].room))
    && (forall u, i :: u in before && 0 <= i < |inputs| && u in inputs[i].userIds ==> after[u].room == Some(ids[i]))
    && (forall u :: u in before && u !in Flat(inputs) ==> after[u].room == None)
  }

  class HouseStore {
    var members: Members
    var rooms: map<RoomId, int>

    constructor (members: Members)
      ensures this.members == members && rooms == map[]
    {
      this.members, rooms := members, map[];
    }

    /** Replaces the whole configuration; `ids` are the keys the database gives the new rows. */
    method SetRooms(inputs: seq<RoomInput>, ids: seq<RoomId>) returns (r: Option<Refusal>)
      requires |ids| == |inputs| && Distinct(ids)
      modifies this
      ensures r.None? <==> Acceptable(old(members), inputs)
      ensures r.None? ==> Assigned(old(members), members, inputs, ids)
                          && rooms.Keys == SetOf(ids)
                             && forall i :: 0 <= i < |ids| ==> rooms[ids[i]] == inputs[i].weightBp
      ensures r.Some? ==> members == old(members) && rooms == old(rooms)
    {
      hide Distinct, Assigned;
      var weightSum := 0;
      var occupants := [];
      for i := 0 to |inputs|
        invariant weightSum == WeightSum(inputs[..i]) && occupants == Flat(inputs[..i])
      {
        assert inputs[..i + 1][..i] == inputs[..i];
        weightSum := weightSum + inputs[i].weightBp;
        occupants := occupants + inputs[i].userIds;
      }
      assert inputs[..|inputs|] == inputs;
      if weightSum != 10000 { return Some(NotWhole); }
      DistinctSize(occupants);
      if |SetOf(occupants)| != |occupants| { return Some(OneRoomOnly); }
      var found := set u | u in occupants && IsActive(members, u);
      AllActive(members, occupants, found);
      if |found| != |occupants| { return Some(NotActiveMember); }
      if exists i :: 0 <= i < |inputs| && !(1 <= inputs[i].weightBp <= 10000) { return Some(WeightOutOfRange); }
      Replace(inputs, ids);
      return None;
    }

    method Replace(inputs: seq<RoomInput>, ids: seq<RoomId>)
      requires |ids| == |inputs| && Distinct(ids) && Distinct(Flat(inputs))
      modifies this
      ensures Assigned(old(members), members, inputs, ids)
      ensures rooms.Keys == SetOf(ids) && forall i :: 0 <= i < |ids| ==> rooms[ids[i]] == inputs[i].weightBp
    {
      ghost var before := members;
      ClearRooms();
      ghost var cleared := members;
      for i := 0 to |inputs|
        invariant members == cleared
        invariant rooms.Keys == SetOf(ids[..i]) && forall k :: 0 <= k < i ==> rooms[ids[k]] == inputs[k].weightBp
      {
        TakeStep(ids, i);
        rooms := rooms[ids[i] := inputs[i].weightBp];
      }
      TakeEnds(ids);
      AssignAll(inputs, ids);
      AssignedAll(before, cleared, members, inputs, ids);
    }

    method AddPlaceholder(user: UserId, now: int)
      requires user !in members
      modifies this`members
      ensures members == old(members)[user := Row(true, false, true, None, now)]
      ensures Legal(old(members), NewPlaceholder(user, now))
              && members == Changed(old(members), NewPlaceholder(user, now))
      ensures Full(old(members), rooms) ==> Full(members, rooms)
    {
      hide Full;
      if Full(members, rooms) { PlaceholderKeepsFull(members, rooms, user, now); }
      members := members[user := Row(true, false, true, None, now)];
    }

    /** The membership writes of an accept; `target` is the placeholder the invite is bound to. */
    method Accept(user: UserId, target: Option<UserId>, now: int) returns (r: Option<Refusal>)
      requires user in members ==> !members[user].placeholder // placeholders have no session
      modifies this`members
      ensures r.None? <==> (target.Some? ==> Claimable(old(members), target.value))
      ensures members == if r.None? then AfterAccept(old(members), user, target, now) else old(members)
      ensures r.None? ==> members == Changed(old(members), AcceptInvite(user, target, now))
      ensures r.None? <==> Legal(old(members), AcceptInvite(user, target, now))
                           || (target.Some? && Claimable(old(members), target.value)
                               && Empties(old(members), user, target.value))
    {
      var existing := user in members;
      var leftAt := existing && !members[user].active;
      if existing && !leftAt && target.None? { return None; }
      var inheritedRoom := None;
      if target.Some? {
        if !Claimable(members, target.value) { return Some(AlreadyClaimed); }
        inheritedRoom := members[target.value].room;
      }
      if !existing {
        members := members[user := Row(false, false, true, inheritedRoom, now)];
      } else if leftAt {
        members := members[user := members[user].(active := true, joinedAt := now, room := inheritedRoom)];
      }
      if target.Some? {
        if inheritedRoom.Some? && members[user].room.None? {
          members := members[user := members[user].(room := inheritedRoom)];
        }
        members := members[target.value := members[target.value].(claimed := true, active := false, room := None)];
      }
      return None;
    }

    method ClearRooms()
      modifies this
      ensures members == map u | u in old(members) :: old(members)[u].(room := None)
      ensures rooms == map[]
    {
      members := map u | u in members :: members[u].(room := None);
      rooms := map[];
    }

    method AssignAll(inputs: seq<RoomInput>, ids: seq<RoomId>)
      requires |ids| == |inputs| && Distinct(Flat(inputs))
      requires forall u :: u in members ==> members[u].room.None?
      modifies this`members
      ensures AssignedUpTo(old(members), members, inputs, ids, |inputs|)
    {
      ghost var before := members;
      for i := 0 to |inputs|
        invariant AssignedUpTo(before, members, inputs, ids, i)
      {
        ghost var was := members;
        var room, userIds := ids[i], inputs[i].userIds;
        members := map u | u in members :: if u in userIds then members[u].(room := Some(room)) else members[u];
        AssignOne(before, was, members, inputs, ids, i);
      }
    }
  }

  ghost predicate AssignedUpTo(before: Members, after: Members, inputs: seq<RoomInput>, ids: seq<RoomId>, n: nat)
    requires |ids| == |inputs| && n <= |inputs|
  {
    after.Keys == before.Keys && forall u :: u in before ==> Placed(before[u], after[u], u, inputs, ids, n)
  }

  /** One member after the first `n` rooms: in the room that lists the member, or in none. */
  ghost predicate Placed(before: Row, after: Row, u: UserId, inputs: seq<RoomInput>, ids: seq<RoomId>, n: nat)
    requires |ids| == |inputs| && n <= |inputs|
  {
    && after == before.(room := after.room)
    && (forall i :: 0 <= i < n && u in inputs[i].userIds ==> after.room == Some(ids[i]))
    && ((forall i :: 0 <= i < n ==> u !in inputs[i].userIds) ==> after.room == None)
  }

  lemma PlaceOne(before: Row, was: Row, u: UserId, inputs: seq<RoomInput>, ids: seq<RoomId>, n: nat)
    requires |ids| == |inputs| && n < |inputs| && Placed(before, was, u, inputs, ids, n) && Distinct(Flat(inputs))
    ensures Placed(before, if u in inputs[n].userIds then was.(room := Some(ids[n])) else was, u, inputs, ids, n + 1)
  {
    hide Flat, Distinct;
    forall i | 0 <= i < n && u in inputs[i].userIds
      ensures u !in inputs[n].userIds
    {
      OneRoomEach(inputs, i, n, u);
    }
  }

  lemma AssignOne(before: Members, was: Members, after: Members, inputs: seq<RoomInput>, ids: seq<RoomId>, n: nat)
    requires |ids| == |inputs| && n < |inputs| && AssignedUpTo(before, was, inputs, ids, n) && Distinct(Flat(inputs))
    requires after == map u | u in was :: if u in inputs[n].userIds then was[u].(room := Some(ids[n])) else was[u]
    ensures AssignedUpTo(before, after, inputs, ids, n + 1)
  {
    hide Flat, Distinct, Placed;
    forall u | u in before { PlaceOne(before[u], was[u], u, inputs, ids, n); }
  }

  lemma AssignedAll(before: Members, cleared: Members, after: Members, inputs: seq<RoomInput>, ids: seq<RoomId>)
    requires |ids| == |inputs| && cleared == map u | u in before :: before[u].(room := None)
    requires AssignedUpTo(cleared, after, inputs, ids, |inputs|)
    ensures Assigned(before, after, inputs, ids)
  {
    hide Flat;
    forall u | u in before
      ensures Placed(cleared[u], after[u], u, inputs, ids, |inputs|)
    {
    }
    forall u { InFlat(inputs, u); }
  }

  // ---------- no room stands empty ----------

  ghost predicate Occupants(members: Members, room: RoomId) {
    exists u :: Lives(members, u, room)
  }

  /** Rooms sum to the whole house, everyone's room exists, and every room is lived in. */
  ghost predicate Full(members: Members, rooms: map<RoomId, int>) {
    && Total(rooms) == 10000 && (forall room :: room in rooms ==> 1 <= rooms[room] <= 10000)
    && (forall u :: IsActive(members, u) && members[u].room.Some? ==> members[u].room.value in rooms)
    && (forall room :: room in rooms ==> Occupants(members, room))
  }

  /** The rooms without the last. */
  lemma AllButLast(ids: seq<RoomId>, rooms: map<RoomId, int>)
    requires ids != [] && Distinct(ids) && rooms.Keys == SetOf(ids)
    ensures var n := |ids| - 1;
            var rest := rooms - {ids[n]};
            && Distinct(ids[..n]) && rest.Keys == SetOf(ids[..n]) && ids[n] in rooms && ids[n] !in rest
            && rest[ids[n] := rooms[ids[n]]] == rooms
            && forall i :: 0 <= i < n ==> ids[i] in rest && rest[ids[i]] == rooms[ids[i]]
  {
    TakeStep(ids, |ids| - 1);
    assert ids[..|ids|] == ids;
  }

  lemma {:induction false} TotalOfInputs(inputs: seq<RoomInput>, ids: seq<RoomId>, rooms: map<RoomId, int>)
    requires |ids| == |inputs| && Distinct(ids) && rooms.Keys == SetOf(ids)
    requires forall i :: 0 <= i < |ids| ==> rooms[ids[i]] == inputs[i].weightBp
    ensures Total(rooms) == WeightSum(inputs)
    decreases |ids|
  {
    hide Total, Distinct, SetOf;
    if ids == [] {
      SumEmpty(rooms);
      assert SetOf(ids) == {} by { NoIds(); }
    } else {
      var n := |ids| - 1;
      var rest := rooms - {ids[n]};
      AllButLast(ids, rooms);
      TotalOfInputs(inputs[..n], ids[..n], rest);
      TotalInsert(rest, ids[n], rooms[ids[n]]);
    }
  }

  lemma NoIds()
    ensures SetOf<RoomId>([]) == {}
  {
  }

  /** A configuration that lists somebody in every room leaves the house full. */
  lemma SetRoomsFills(before: Members, after: Members, inputs: seq<RoomInput>, ids: seq<RoomId>,
                      rooms: map<RoomId, int>)
    requires |ids| == |inputs| && Distinct(ids) && Acceptable(before, inputs) && Assigned(before, after, inputs, ids)
    requires rooms.Keys == SetOf(ids) && forall i :: 0 <= i < |ids| ==> rooms[ids[i]] == inputs[i].weightBp
    requires forall i :: 0 <= i < |inputs| ==> inputs[i].userIds != []
    ensures Full(after, rooms)
  {
    hide Flat, Total, WeightSum, Distinct, SetOf, Acceptable, Assigned, Occupants, Lives;
    TotalOfInputs(inputs, ids, rooms);
    assert Total(rooms) == 10000 by { AcceptableSum(before, inputs); }
    forall room | room in rooms
      ensures 1 <= rooms[room] <= 10000 && Occupants(after, room)
    {
      var i := IndexIn(ids, room);
      RoomFilled(before, after, inputs, ids, i);
    }
    forall u | IsActive(after, u) && after[u].room.Some?
      ensures after[u].room.value in rooms
    {
      var i := RoomListed(before, after, inputs, ids, u);
      InIds(ids, i);
    }
  }

  lemma AcceptableSum(members: Members, inputs: seq<RoomInput>)
    requires Acceptable(members, inputs)
    ensures WeightSum(inputs) == 10000
  {
  }

  lemma IndexIn(ids: seq<RoomId>, room: RoomId) returns (i: nat)
    requires room in SetOf(ids)
    ensures i < |ids| && ids[i] == room
  {
    i :| 0 <= i < |ids| && ids[i] == room;
  }

  lemma InIds(ids: seq<RoomId>, i: nat)
    requires i < |ids|
    ensures ids[i] in SetOf(ids)
  {
  }

  /** The first occupant listed for a room lives there. */
  lemma RoomFilled(before: Members, after: Members, inputs: seq<RoomInput>, ids: seq<RoomId>, i: nat)
    requires |ids| == |inputs| && Acceptable(before, inputs) && Assigned(before, after, inputs, ids) && i < |ids|
    requires inputs[i].userIds != []
    ensures Occupants(after, ids[i]) && 1 <= inputs[i].weightBp <= 10000
  {
    hide Flat, WeightSum, Distinct;
    var u := inputs[i].userIds[0];
    InFlat(inputs, u);
    assert IsActive(before, u);
    assert Lives(after, u, ids[i]);
  }

  /** Whoever has a room is listed in it. */
  lemma RoomListed(before: Members, after: Members, inputs: seq<RoomInput>, ids: seq<RoomId>, u: UserId)
      returns (i: nat)
    requires |ids| == |inputs| && Assigned(before, after, inputs, ids) && u in after && after[u].room.Some?
    ensures i < |ids| && after[u].room == Some(ids[i])
  {
    hide Flat, Distinct;
    InFlat(inputs, u);
    i :| 0 <= i < |inputs| && u in inputs[i].userIds;
  }

  /** The claim that empties a room: its only occupant is the placeholder, and the claimer lives elsewhere. */
  predicate Empties(members: Members, user: UserId, p: UserId) {
    && p in members && members[p].room.Some?
    && IsActive(members, user) && members[user].room.Some? && members[user].room != members[p].room
    && forall u :: u in members && u != p ==> !Lives(members, u, members[p].room.value)
  }

  lemma AfterAt(members: Members, user: UserId, target: Option<UserId>, now: int, u: UserId)
    requires target.Some? ==> Claimable(members, target.value) && target.value != user
    ensures var after := AfterAccept(members, user, target, now);
            && (u != user && Some(u) != target ==>
               (u in after <==> u in members) && (u in members ==> after[u] == members[u]))
            && (Some(u) == target ==> u in after && !after[u].active)
            && (u == user ==>
                  && u in after
                  && after[u] == Joined(members, user, if target.Some? then members[target.value].room else None, now))
  {
  }

  /** Who lives where after an accept. */
  lemma LivesAfter(members: Members, user: UserId, target: Option<UserId>, now: int, u: UserId, room: RoomId)
    requires target.Some? ==> Claimable(members, target.value) && target.value != user
    ensures var inherited := if target.Some? then members[target.value].room else None;
            Lives(AfterAccept(members, user, target, now), u, room) <==>
              if Some(u) == target then false
              else if u != user then Lives(members, u, room)
              else if IsActive(members, u) && members[u].room.Some? then members[u].room == Some(room)
              else inherited == Some(room)
  {
    hide AfterAccept;
    AfterAt(members, user, target, now, u);
  }

  /** A house that is full stays full through an accept exactly when the accept does not empty a room. */
  lemma AcceptKeepsFullIff(members: Members, rooms: map<RoomId, int>, user: UserId, target: Option<UserId>, now: int)
    requires Full(members, rooms) && (target.Some? ==> Claimable(members, target.value) && target.value != user)
    ensures Full(AfterAccept(members, user, target, now), rooms) <==>
            !(target.Some? && Empties(members, user, target.value))
  {
    hide Total, AfterAccept, Claimable, Joined, Empties, Occupants;
    var after := AfterAccept(members, user, target, now);
    RoomsExistAfter(members, rooms, user, target, now);
    if target.Some? && Empties(members, user, target.value) {
      EmptiedRoom(members, rooms, user, target.value, now);
    } else {
      forall room | room in rooms
        ensures Occupants(after, room)
      {
        StillLivedIn(members, rooms, user, target, now, room);
      }
    }
  }

  lemma RoomsExistAfter(members: Members, rooms: map<RoomId, int>, user: UserId, target: Option<UserId>, now: int)
    requires Full(members, rooms) && (target.Some? ==> Claimable(members, target.value) && target.value != user)
    ensures var after := AfterAccept(members, user, target, now);
            forall u :: IsActive(after, u) && after[u].room.Some? ==> after[u].room.value in rooms
  {
    hide Total, AfterAccept, Occupants;
    var after := AfterAccept(members, user, target, now);
    forall u | IsActive(after, u) && after[u].room.Some?
      ensures after[u].room.value in rooms
    {
      AfterAt(members, user, target, now, u);
    }
  }

  lemma EmptiedRoom(members: Members, rooms: map<RoomId, int>, user: UserId, p: UserId, now: int)
    requires Full(members, rooms) && Claimable(members, p) && p != user && Empties(members, user, p)
    ensures members[p].room.value in rooms
            && !Occupants(AfterAccept(members, user, Some(p), now), members[p].room.value)
  {
    hide Total, AfterAccept;
    forall u { LivesAfter(members, user, Some(p), now, u, members[p].room.value); }
  }

  lemma StillLivedIn(members: Members, rooms: map<RoomId, int>, user: UserId, target: Option<UserId>, now: int,
                     room: RoomId)
    requires Occupants(members, room) && (target.Some? ==> Claimable(members, target.value) && target.value != user)
    requires !(target.Some? && Empties(members, user, target.value))
    ensures Occupants(AfterAccept(members, user, target, now), room)
  {
    hide AfterAccept, Claimable;
    var after := AfterAccept(members, user, target, now);
    var u :| Lives(members, u, room);
    LivesAfter(members, user, target, now, user, room);
    if Some(u) != target {
      LivesAfter(members, user, target, now, u, room);
      assert Lives(after, u, room);
    } else if !Lives(after, user, room) {
      var other :| other in members && other != u && Lives(members, other, room);
      LivesAfter(members, user, target, now, other, room);
      assert Lives(after, other, room);
    }
  }

  // ---------- any later run ----------

  datatype Change =
    | NewPlaceholder(user: UserId, now: int)
    | AcceptInvite(user: UserId, target: Option<UserId>, now: int)

  /** A change the services accept, other than a claim that empties a room. */
  predicate Legal(members: Members, change: Change) {
    match change
    case NewPlaceholder(user, _) => user !in members
    case AcceptInvite(user, target, _) =>
      target.Some? ==> Claimable(members, target.value) && target.value != user && !Empties(members, user, target.value)
  }

  function Changed(members: Members, change: Change): Members {
    match change
    case NewPlaceholder(user, now) => members[user := Row(true, false, true, None, now)]
    case AcceptInvite(user, target, now) => AfterAccept(members, user, target, now)
  }

  predicate LegalRun(members: Members, changes: seq<Change>)
    decreases |changes|
  {
    changes != [] ==> Legal(members, changes[0]) && LegalRun(Changed(members, changes[0]), changes[1..])
  }

  function AfterRun(members: Members, changes: seq<Change>): Members
    decreases |changes|
  {
    if changes == [] then members else AfterRun(Changed(members, changes[0]), changes[1..])
  }

  lemma PlaceholderKeepsFull(members: Members, rooms: map<RoomId, int>, user: UserId, now: int)
    requires Full(members, rooms) && user !in members
    ensures Full(members[user := Row(true, false, true, None, now)], rooms)
  {
    hide Total;
    var after := members[user := Row(true, false, true, None, now)];
    forall room | room in rooms
      ensures Occupants(after, room)
    {
      var u :| Lives(members, u, room);
      assert Lives(after, u, room);
    }
  }

  /** Once full, a house stays full through any run of joins, new placeholders and claims. */
  lemma {:induction false} StaysFull(members: Members, rooms: map<RoomId, int>, changes: seq<Change>)
    requires Full(members, rooms) && LegalRun(members, changes)
    ensures Full(AfterRun(members, changes), rooms)
    decreases |changes|
  {
    hide Full, AfterAccept, Empties, Claimable;
    if changes != [] {
      match changes[0] {
        case NewPlaceholder(user, now) => PlaceholderKeepsFull(members, rooms, user, now);
        case AcceptInvite(user, target, now) => AcceptKeepsFullIff(members, rooms, user, target, now);
      }
      StaysFull(Changed(members, changes[0]), rooms, changes[1..]);
    }
  }

  // ---------- the bill ----------

  /** lockActiveMembers returns the active rows, in any order. */
  ghost predicate RowsFor(ms: seq<ActiveMember>, members: Members) {
    Distinct(Ids(ms))
    && forall m :: m in ms <==>
         IsActive(members, m.userId)
         && m == ActiveMember(m.userId, members[m.userId].placeholder, members[m.userId].room,
            members[m.userId].joinedAt)
  }

  lemma RowOf(ms: seq<ActiveMember>, members: Members, u: UserId)
    requires RowsFor(ms, members) && IsActive(members, u)
    ensures ActiveMember(u, members[u].placeholder, members[u].room, members[u].joinedAt) in ms
  {
  }

  lemma FullIsWellHoused(members: Members, rooms: map<RoomId, int>, ms: seq<ActiveMember>)
    requires Full(members, rooms) && RowsFor(ms, members)
    ensures WellHoused(ms, rooms) && forall room :: room in rooms ==> Occupied(ms, room)
  {
    hide Total, Distinct;
    forall room | room in rooms
      ensures Occupied(ms, room)
    {
      var u :| Lives(members, u, room);
      RowOf(ms, members, u);
    }
  }

  /**
   In a full house a room-weighted bill with an active owner who is no placeholder never fails
   for its split, whatever order the member rows come in.
   */
  lemma RoomWeightedBillPosts(members: Members, rooms: map<RoomId, int>, ms: seq<ActiveMember>, owner: UserId,
                              amountCents: int)
    requires Full(members, rooms) && RowsFor(ms, members) && 0 < amountCents <= MAX_SAFE
    requires IsActive(members, owner) && !members[owner].placeholder
    ensures Accepted(ms, rooms, PostingOf(ms, owner, amountCents, RoomWeighted))
  {
    hide Accepted, WellHoused, Occupied, Roomed, Residents;
    var input := PostingOf(ms, owner, amountCents, RoomWeighted);
    FullIsWellHoused(members, rooms, ms);
    ResidentsExact(ms);
    RowOf(ms, members, owner);
    SomebodyLives(members, rooms, ms);
    RoomWeightedAcceptance(ms, rooms, input);
  }

  lemma SomebodyLives(members: Members, rooms: map<RoomId, int>, ms: seq<ActiveMember>)
    requires Full(members, rooms) && RowsFor(ms, members)
    ensures exists u :: Roomed(ms, u)
  {
    SumEmpty(rooms);
    assert rooms != map[];
    var room :| room in rooms;
    var u :| Lives(members, u, room);
    RowOf(ms, members, u);
    assert Roomed(ms, u);
  }
}
