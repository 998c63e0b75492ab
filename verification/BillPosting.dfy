/**
 What one period of a bill posts (the start of postOne in apps/worker/src/bills/post-due-bills.ts):
 who shares it, and exactly when it meets a posting problem.
 */
module BillPosting {
  import opened Text
  import opened Sums
  import opened Splits
  import opened Posting

  datatype Problem = OwnerGone | NoMembers | Unsplittable(error: PostingError)

  /** `members.filter((m) => m.roomId !== null).map((m) => m.userId)` */
  function Residents(members: seq<ActiveMember>): seq<UserId> {
    if members == [] then []
    else
      var rest, m := Residents(members[..|members| - 1]), members[|members| - 1];
      if m.roomId.Some? then rest + [m.userId] else rest
  }

  lemma {:induction false} ResidentsExact(members: seq<ActiveMember>)
    requires Distinct(Ids(members))
    ensures Distinct(Residents(members)) && forall u :: u in Residents(members) <==> Roomed(members, u)
  {
    hide Roomed;
    if members == [] {
      NoneRoomed();
    } else {
      var front, m := members[..|members| - 1], members[|members| - 1];
      assert members == front + [m] && Ids(members) == Ids(front) + [m.userId];
      DistinctParts(Ids(front), [m.userId]);
      ResidentsExact(front);
      RoomedSnoc(front, m);
      assert m.userId !in Ids(front) by { assert m.userId in [m.userId]; }
      if Roomed(front, m.userId) { RoomedInIds(front, m.userId); }
    }
  }

  lemma NoneRoomed()
    ensures forall u :: !Roomed([], u)
  {
  }

  lemma RoomedInIds(members: seq<ActiveMember>, u: UserId)
    requires Roomed(members, u)
    ensures u in Ids(members)
  {
    IdIn(members, u);
  }

  lemma RoomedSnoc(front: seq<ActiveMember>, m: ActiveMember)
    ensures forall u :: Roomed(front + [m], u) <==> Roomed(front, u) || (u == m.userId && m.roomId.Some?)
  {
    forall u
      ensures Roomed(front + [m], u) <==> Roomed(front, u) || (u == m.userId && m.roomId.Some?)
    {
      assert m in front + [m];
      assert forall x :: x in front ==> x in front + [m];
    }
  }

  /** Who shares a posting: everyone, or everyone with a room. */
  function Sharers(members: seq<ActiveMember>, mode: SplitMode): seq<UserId> {
    if mode.RoomWeighted? then Residents(members) else Ids(members)
  }

  function PostingOf(members: seq<ActiveMember>, owner: UserId, amountCents: int, mode: SplitMode): ResolveInput {
    ResolveInput(amountCents, owner, mode, Sharers(members, mode), None, None)
  }

  lemma AcceptedShares(members: seq<ActiveMember>, rooms: map<RoomId, int>, input: ResolveInput)
    ensures Accepted(members, rooms, input) ==> input.paidBy in Ids(members) && input.participants != []
  {
    hide SplitOf, WeightOf, Roomed, Sum;
    IdIn(members, input.paidBy);
  }

  /** The payer is an active member and a person. */
  predicate CanPay(members: seq<ActiveMember>, u: UserId) {
    exists m :: m in members && m.userId == u && !m.isPlaceholder
  }

  /** A bill that is split equally meets a posting problem only through its owner. */
  lemma EqualBillPosts(members: seq<ActiveMember>, rooms: map<RoomId, int>, owner: UserId, amountCents: int)
    requires WellHoused(members, rooms) && 0 < amountCents <= MAX_SAFE
    ensures Accepted(members, rooms, PostingOf(members, owner, amountCents, Equal)) <==> CanPay(members, owner)
  {
    hide SplitOf, WeightOf, Roomed, Residents;
    forall u | u in Ids(members)
      ensures Active(members, u)
    {
      IdIn(members, u);
    }
    if CanPay(members, owner) { IdIn(members, owner); }
  }

  /**
   A room-weighted bill posts exactly when its owner can pay, the house has rooms and none of
   them stands vacant.
   */
  lemma RoomBillPosts(members: seq<ActiveMember>, rooms: map<RoomId, int>, owner: UserId, amountCents: int)
    requires WellHoused(members, rooms) && 0 < amountCents <= MAX_SAFE && (rooms != map[] ==> Total(rooms) == 10000)
    ensures Accepted(members, rooms, PostingOf(members, owner, amountCents, RoomWeighted)) <==>
            CanPay(members, owner) && rooms != map[] && forall room :: room in rooms ==> Occupied(members, room)
  {
    hide Accepted, WellHoused, Roomed, Residents, WeightOf, Total;
    var input := PostingOf(members, owner, amountCents, RoomWeighted);
    ResidentsExact(members) by { HousedDistinct(members, rooms); }
    AcceptedPayer(members, rooms, input);
    AcceptedShares(members, rooms, input);
    RoomsOfRoomed(members, rooms);
    if input.participants != [] { assert Roomed(members, input.participants[0]); }
    if CanPay(members, owner) && rooms != map[] {
      RoomWeightedAcceptance(members, rooms, input);
      if forall room :: room in rooms ==> Occupied(members, room) {
        var room :| room in rooms;
        var u :| Roomed(members, u);
        assert u in input.participants;
      }
    }
  }

  lemma AcceptedPayer(members: seq<ActiveMember>, rooms: map<RoomId, int>, input: ResolveInput)
    ensures Accepted(members, rooms, input) ==> CanPay(members, input.paidBy)
  {
    hide Valid, Roomed;
  }

  /** Roomed members live in the house's rooms, and an occupied room has a roomed member. */
  lemma RoomsOfRoomed(members: seq<ActiveMember>, rooms: map<RoomId, int>)
    requires WellHoused(members, rooms)
    ensures forall u :: Roomed(members, u) ==> rooms != map[]
    ensures forall room :: Occupied(members, room) ==> exists u :: Roomed(members, u)
  {
    forall room | Occupied(members, room)
      ensures exists u :: Roomed(members, u)
    {
      var m :| m in members && m.roomId == Some(room);
      assert Roomed(members, m.userId);
    }
  }

  // ---------- a posting, member by member ----------

  /** Who is charged: every active member, or every one with a room. */
  function Charged(members: seq<ActiveMember>, mode: SplitMode): set<UserId> {
    set m | m in members && (mode.RoomWeighted? ==> m.roomId.Some?) :: m.userId
  }

  /** A charged member's share apart from the remainder. */
  function PartOf(members: seq<ActiveMember>, rooms: map<RoomId, int>, amountCents: int, mode: SplitMode, id: UserId)
      : int
  {
    if mode.RoomWeighted? then amountCents * WeightOf(members, rooms, id).GetOr(0) / 10000
    else if members == [] then 0 else amountCents / |members|
  }

  /** The whole amount over everyone charged; the owner takes the remainder, or the least id if not charged. */
  ghost predicate Charges(members: seq<ActiveMember>, rooms: map<RoomId, int>, owner: UserId, amountCents: int,
                          mode: SplitMode, split: map<UserId, int>) {
    Apportions(split, map id | id in Charged(members, mode) :: PartOf(members, rooms, amountCents, mode, id),
               amountCents, owner)
  }

  /** An amount and rooms as the tables and setRooms leave them. */
  ghost predicate Chargeable(rooms: map<RoomId, int>, amountCents: int) {
    0 < amountCents <= MAX_SAFE && (rooms != map[] ==> Total(rooms) == 10000)
  }

  /** When a bill meets no posting problem. */
  predicate Payable(members: seq<ActiveMember>, rooms: map<RoomId, int>, owner: UserId, mode: SplitMode) {
    CanPay(members, owner)
    && match mode
       case Equal => true
       case RoomWeighted => rooms != map[] && forall room :: room in rooms ==> Occupied(members, room)
       case _ => false
  }

  lemma PostableExactly(members: seq<ActiveMember>, rooms: map<RoomId, int>, owner: UserId, amountCents: int,
                        mode: SplitMode)
    requires WellHoused(members, rooms)
    ensures var input := PostingOf(members, owner, amountCents, mode);
            && (Accepted(members, rooms, input) ==> mode.Equal? || mode.RoomWeighted?)
            && (Chargeable(rooms, amountCents) ==>
                  (Accepted(members, rooms, input) <==> Payable(members, rooms, owner, mode)))
  {
    hide WellHoused, Accepted, CanPay, Occupied, PostingOf, Total;
    match mode
    case Equal => if Chargeable(rooms, amountCents) { EqualBillPosts(members, rooms, owner, amountCents); }
    case RoomWeighted => if Chargeable(rooms, amountCents) { RoomBillPosts(members, rooms, owner, amountCents); }
    case _ => Unconfigured(members, rooms, owner, amountCents, mode);
  }

  lemma Unconfigured(members: seq<ActiveMember>, rooms: map<RoomId, int>, owner: UserId, amountCents: int,
                     mode: SplitMode)
    requires mode.Exact? || mode.Percent?
    ensures !Accepted(members, rooms, PostingOf(members, owner, amountCents, mode))
  {
    hide WeightOf, Roomed, Sum;
  }

  lemma AcceptedCharges(members: seq<ActiveMember>, rooms: map<RoomId, int>, owner: UserId, amountCents: int,
                        mode: SplitMode)
    requires WellHoused(members, rooms)
    requires Accepted(members, rooms, PostingOf(members, owner, amountCents, mode))
    ensures var input := PostingOf(members, owner, amountCents, mode);
            Charges(members, rooms, owner, amountCents, mode, SplitOf(SplitRequest(members, rooms, input)))
  {
    hide WellHoused, Accepted, SplitOf, SplitRequest, Apportions, WeightOf, Sharers, Charged;
    var input := PostingOf(members, owner, amountCents, mode);
    PostableExactly(members, rooms, owner, amountCents, mode);
    ResolvedShares(members, rooms, input);
    SharersAre(members, rooms, mode);
    assert (map id | id in SetOf(input.participants) :: ResolvedShare(members, rooms, input, id))
        == map id | id in Charged(members, mode) :: PartOf(members, rooms, amountCents, mode, id);
  }

  lemma SharersAre(members: seq<ActiveMember>, rooms: map<RoomId, int>, mode: SplitMode)
    requires WellHoused(members, rooms)
    ensures SetOf(Sharers(members, mode)) == Charged(members, mode)
    ensures !mode.RoomWeighted? ==> |Sharers(members, mode)| == |members|
  {
    hide Residents, WellHoused;
    ResidentsExact(members) by { HousedDistinct(members, rooms); }
    forall u
      ensures u in Sharers(members, mode) <==> u in Charged(members, mode)
    {
      IdIn(members, u);
    }
  }

  /** The splits one period of a bill is posted with, or the problem it is paused for. */
  method PostingShares(members: seq<ActiveMember>, rooms: map<RoomId, int>, owner: UserId, amountCents: int,
                       mode: SplitMode)
      returns (r: Result<map<UserId, int>, Problem>)
    requires WellHoused(members, rooms)
    ensures var input := PostingOf(members, owner, amountCents, mode);
            && (r.Success? <==> Accepted(members, rooms, input))
            && (r.Success? ==> r.value == SplitOf(SplitRequest(members, rooms, input)))
    ensures r == Failure(OwnerGone) <==> owner !in Ids(members)
    ensures Chargeable(rooms, amountCents) ==> (r.Success? <==> Payable(members, rooms, owner, mode))
    ensures r.Success? ==> Charges(members, rooms, owner, amountCents, mode, r.value)
  {
    hide SplitOf, WeightOf, Roomed, Residents, Sum, WellHoused, Charges, Accepted, CanPay, Occupied, PostingOf;
    var input := PostingOf(members, owner, amountCents, mode);
    PostableExactly(members, rooms, owner, amountCents, mode);
    if Accepted(members, rooms, input) { AcceptedCharges(members, rooms, owner, amountCents, mode); }
    AcceptedShares(members, rooms, input);
    InputIs(members, owner, amountCents, mode);
    if owner !in Ids(members) { return Failure(OwnerGone); }
    if |input.participants| == 0 { return Failure(NoMembers); }
    var splits := ResolveSplits(members, rooms, input);
    match splits
    case Success(s) => return Success(s);
    case Failure(e) => return Failure(Unsplittable(e));
  }

  lemma InputIs(members: seq<ActiveMember>, owner: UserId, amountCents: int, mode: SplitMode)
    ensures PostingOf(members, owner, amountCents, mode).paidBy == owner
  {
  }
}
