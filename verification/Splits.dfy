/**
 Split math for the ledger (packages/domain/src/money/split.ts): how a total in integer cents
 divides over participants in the equal, exact, percent and room-weighted modes.
 */
module Splits {
  import opened Text
  import opened Sums

  type UserId = string

  /** Number.MAX_SAFE_INTEGER. */
  const MAX_SAFE := 9007199254740991

  datatype SplitMode = Equal | Exact | Percent | RoomWeighted

  datatype SplitInput = SplitInput(
    totalCents: int, paidBy: UserId, mode: SplitMode, participants: seq<UserId>,
    exactCents: Option<map<UserId, int>>, weightsBp: Option<map<UserId, int>>)

  datatype SplitError =
    | InvalidTotal | NoParticipants | DuplicateParticipants
    | MissingConfig | InvalidShare(id: UserId) | WrongSum(sum: int)

  /** `[...participants].sort()[0]` */
  function First(participants: seq<UserId>): (id: UserId)
    requires participants != []
    ensures id in participants
  {
    if |participants| == 1 then participants[0]
    else
      var rest := First(participants[1..]);
      if Less(participants[0], rest) then participants[0] else rest
  }

  lemma {:induction false} FirstIsLeast(participants: seq<UserId>, id: UserId)
    requires id in participants
    ensures id == First(participants) || Less(First(participants), id)
  {
    if |participants| > 1 {
      var x, rest := participants[0], First(participants[1..]);
      LessTotal(x, rest);
      if id != x {
        FirstIsLeast(participants[1..], id);
        if Less(x, rest) && id != rest { LessTransitive(x, rest, id); }
      }
    }
  }

  function RemainderRecipient(participants: seq<UserId>, paidBy: UserId): (id: UserId)
    requires participants != []
    ensures id in participants
  {
    if paidBy in participants then paidBy else First(participants)
  }

  /** The recipient of the remainder is a matter of who participates, not of their order. */
  lemma RecipientOfSet(a: seq<UserId>, b: seq<UserId>, paidBy: UserId)
    requires a != [] && b != [] && SetOf(a) == SetOf(b)
    ensures RemainderRecipient(a, paidBy) == RemainderRecipient(b, paidBy)
  {
    assert forall id :: id in a <==> id in SetOf(a);
    assert forall id :: id in b <==> id in SetOf(b);
    FirstIsLeast(a, First(b));
    FirstIsLeast(b, First(a));
    if Less(First(a), First(b)) && Less(First(b), First(a)) { LessAsymmetric(First(a), First(b)); }
  }

  /** A configured amount per participant, each a safe non-negative integer. */
  predicate Shares(ids: set<UserId>, amounts: map<UserId, int>) {
    ids <= amounts.Keys && forall id :: id in ids ==> 0 <= amounts[id] <= MAX_SAFE
  }

  /** The inputs computeSplits accepts. */
  ghost predicate Valid(input: SplitInput) {
    var ids := SetOf(input.participants);
    && 0 < input.totalCents <= MAX_SAFE && input.participants != [] && Distinct(input.participants)
    && match input.mode
       case Equal => true
       case Exact =>
         input.exactCents.Some? && Shares(ids, input.exactCents.value)
         && Sum(ids, input.exactCents.value) == input.totalCents
       case _ =>
         input.weightsBp.Some? && Shares(ids, input.weightsBp.value) && Sum(ids, input.weightsBp.value) == 10000
  }

  /** `Math.floor((total * bp) / 10000)` */
  function Portion(total: int, bp: int): int {
    total * bp / 10000
  }

  lemma PortionBounds(total: int, bp: int)
    requires total > 0 && bp >= 0
    ensures 0 <= total * bp - 10000 * Portion(total, bp) < 10000 && Portion(total, bp) >= 0
  {
  }

  /** Each participant's share before the remainder is placed. */
  function Floors(ids: set<UserId>, input: SplitInput): (m: map<UserId, int>)
    requires input.mode.Exact? ==> input.exactCents.Some? && Shares(ids, input.exactCents.value)
    requires input.mode.Percent? || input.mode.RoomWeighted? ==>
             input.weightsBp.Some? && Shares(ids, input.weightsBp.value)
    ensures m.Keys == ids
  {
    map id | id in ids ::
      match input.mode
      case Equal => input.totalCents / |ids|
      case Exact => input.exactCents.value[id]
      case _ => Portion(input.totalCents, input.weightsBp.value[id])
  }

  ghost function Remainder(input: SplitInput): int
    requires Valid(input)
  {
    var ids := SetOf(input.participants);
    input.totalCents - Sum(ids, Floors(ids, input))
  }

  /** The split: the floors, and all of the remainder with one recipient. */
  ghost function SplitOf(input: SplitInput): map<UserId, int>
    requires Valid(input)
  {
    var floors := Floors(SetOf(input.participants), input);
    var who := RemainderRecipient(input.participants, input.paidBy);
    floors[who := floors[who] + Remainder(input)]
  }

  // ---------- who gets what ----------

  /** A participant's share apart from the remainder. */
  function PlainShare(input: SplitInput, id: UserId): int
    requires id in input.participants && Valid(input)
  {
    match input.mode
    case Equal => input.totalCents / |input.participants|
    case Exact => input.exactCents.value[id]
    case _ => input.totalCents * input.weightsBp.value[id] / 10000
  }

  /** The payer takes the remainder, or the least id if the payer takes no part. */
  predicate TakesNone(ids: set<UserId>, payer: UserId, id: UserId) {
    if payer in ids then id != payer else exists other :: other in ids && Less(other, id)
  }

  /** The plain shares, the remainder with the one participant who takes it, and no cent lost. */
  ghost predicate Apportions(split: map<UserId, int>, plain: map<UserId, int>, total: int, payer: UserId) {
    && split.Keys == plain.Keys && Total(split) == total
    && forall id :: id in plain && TakesNone(plain.Keys, payer, id) ==> split[id] == plain[id]
  }

  ghost function PlainShares(input: SplitInput): map<UserId, int>
    requires Valid(input)
  {
    map id | id in SetOf(input.participants) :: PlainShare(input, id)
  }

  /** Every split is the plain shares, with the remainder where the source says. */
  lemma PayerTakesTheRest(input: SplitInput)
    requires Valid(input)
    ensures Apportions(SplitOf(input), PlainShares(input), input.totalCents, input.paidBy)
  {
    hide Total, Remainder, SplitOf, First;
    SplitSumsToTotal(input);
    DistinctSize(input.participants);
    ValidParts(input);
    var plain := PlainShares(input);
    forall id | id in plain && TakesNone(plain.Keys, input.paidBy, id)
      ensures SplitOf(input)[id] == plain[id]
    {
      SharesNearFloor(input, id);
      if input.paidBy !in input.participants {
        var other :| other in plain.Keys && Less(other, id);
        NotTheLeast(input.participants, other, id);
      }
    }
  }

  lemma NotTheLeast(participants: seq<UserId>, other: UserId, id: UserId)
    requires other in participants && Less(other, id)
    ensures id != First(participants)
  {
    hide First;
    FirstIsLeast(participants, other);
    LessAsymmetric(other, id);
    if Less(First(participants), other) && id == First(participants) { LessAsymmetric(id, other); }
  }

  method ComputeSplits(input: SplitInput) returns (r: Result<map<UserId, int>, SplitError>)
    ensures r.Success? <==> Valid(input)
    ensures r.Success? ==> r.value == SplitOf(input)
    ensures r.Success? ==> Apportions(r.value, PlainShares(input), input.totalCents, input.paidBy)
    ensures r == Failure(InvalidTotal) <==> !(1 <= input.totalCents <= 9007199254740991)
  {
    hide Apportions, PlainShares;
    if Valid(input) { PayerTakesTheRest(input); }
    if input.totalCents <= 0 || input.totalCents > MAX_SAFE { return Failure(InvalidTotal); }
    var participants := input.participants;
    if |participants| == 0 { return Failure(NoParticipants); }
    DistinctSize(participants);
    if |SetOf(participants)| != |participants| { return Failure(DuplicateParticipants); }
    match input.mode
    case Equal =>
      r := SplitEqually(input);
    case Exact =>
      if input.exactCents.None? { return Failure(MissingConfig); }
      r := SplitExactly(input, input.exactCents.value);
    case Percent =>
      if input.weightsBp.None? { return Failure(MissingConfig); }
      r := SplitByWeights(input, input.weightsBp.value);
    case RoomWeighted =>
      if input.weightsBp.None? { return Failure(MissingConfig); }
      r := SplitByWeights(input, input.weightsBp.value);
  }

  ghost predicate Checked(input: SplitInput) {
    0 < input.totalCents <= MAX_SAFE && input.participants != [] && Distinct(input.participants)
  }

  method SplitEqually(input: SplitInput) returns (r: Result<map<UserId, int>, SplitError>)
    requires Checked(input) && input.mode == Equal
    ensures r.Success? && Valid(input) && r.value == SplitOf(input)
  {
    hide First, Floors, Valid, Remainder;
    var participants := input.participants;
    DistinctSize(participants);
    TakeEnds(participants);
    var base := input.totalCents / |participants|;
    var splits: map<UserId, int> := map[];
    for i := 0 to |participants|
      invariant splits == map id | id in SetOf(participants[..i]) :: base
    {
      TakeStep(participants, i);
      splits := splits[participants[i] := base];
    }
    EqualFloors(input, splits, base);
    var recipient := RemainderRecipient(participants, input.paidBy);
    splits := splits[recipient := splits[recipient] + (input.totalCents - base * |participants|)];
    return Success(splits);
  }

  lemma EqualFloors(input: SplitInput, splits: map<UserId, int>, base: int)
    requires Checked(input) && input.mode == Equal && base == input.totalCents / |input.participants|
    requires splits == map id | id in SetOf(input.participants) :: base
    ensures Valid(input) && splits == Floors(SetOf(input.participants), input)
    ensures Remainder(input) == input.totalCents - base * |input.participants|
  {
    hide Sum, First, Portion;
    DistinctSize(input.participants);
    SumConst(splits.Keys, splits, base);
    assert splits.Keys == SetOf(input.participants);
  }

  method SplitExactly(input: SplitInput, exact: map<UserId, int>) returns (r: Result<map<UserId, int>, SplitError>)
    requires Checked(input) && input.mode == Exact && input.exactCents == Some(exact)
    ensures r.Failure? ==> r.error.InvalidShare? || r.error.WrongSum?
    ensures r.Success? <==> Valid(input)
    ensures r.Success? ==> r.value == SplitOf(input)
  {
    hide Valid, SplitOf, Total, SetOf, Distinct;
    ExactValid(input, exact);
    var participants := input.participants;
    TakeEnds(participants);
    var splits: map<UserId, int> := map[];
    var sum := 0;
    SumEmpty(splits);
    for i := 0 to |participants|
      invariant Shares(SetOf(participants[..i]), exact)
      invariant splits == map id | id in SetOf(participants[..i]) :: exact[id]
      invariant sum == Total(splits)
    {
      var id := participants[i];
      TakeStep(participants, i);
      InSetOf(participants, i);
      if id !in exact || exact[id] > MAX_SAFE || exact[id] < 0 { return Failure(InvalidShare(id)); }
      TotalInsert(splits, id, exact[id]);
      splits := splits[id := exact[id]];
      sum := sum + exact[id];
    }
    ExactTotal(exact, splits, SetOf(participants));
    if sum != input.totalCents { return Failure(WrongSum(sum)); }
    ExactIsSplit(input, exact, splits);
    return Success(splits);
  }

  lemma ExactValid(input: SplitInput, exact: map<UserId, int>)
    requires Checked(input) && input.mode == Exact && input.exactCents == Some(exact)
    ensures var ids := SetOf(input.participants);
            Valid(input) <==> Shares(ids, exact) && Sum(ids, exact) == input.totalCents
  {
    hide Sum;
  }

  lemma ExactTotal(exact: map<UserId, int>, splits: map<UserId, int>, ids: set<UserId>)
    requires ids <= exact.Keys && splits == map id | id in ids :: exact[id]
    ensures Total(splits) == Sum(ids, exact)
  {
    assert splits.Keys == ids;
    SumAgree(ids, exact, splits);
  }

  lemma ExactIsSplit(input: SplitInput, exact: map<UserId, int>, splits: map<UserId, int>)
    requires Valid(input) && input.mode == Exact && input.exactCents == Some(exact)
    requires splits == map id | id in SetOf(input.participants) :: exact[id]
    ensures splits == SplitOf(input)
  {
    hide Sum, First;
    assert splits == Floors(SetOf(input.participants), input);
    assert splits.Keys == SetOf(input.participants);
    SumAgree(splits.Keys, exact, splits);
  }

  method SplitByWeights(input: SplitInput, weightsBp: map<UserId, int>)
      returns (r: Result<map<UserId, int>, SplitError>)
    requires Checked(input) && (input.mode == Percent || input.mode == RoomWeighted)
             && input.weightsBp == Some(weightsBp)
    ensures r.Failure? ==> r.error.InvalidShare? || r.error.WrongSum?
    ensures r.Success? <==> Valid(input)
    ensures r.Success? ==> r.value == SplitOf(input)
  {
    hide Sum, Portion, First;
    var participants := input.participants;
    TakeEnds(participants);
    var bpSum := 0;
    SumEmpty(weightsBp);
    for i := 0 to |participants|
      invariant Shares(SetOf(participants[..i]), weightsBp)
      invariant bpSum == Sum(SetOf(participants[..i]), weightsBp)
    {
      var id := participants[i];
      TakeStep(participants, i);
      assert id in SetOf(participants);
      if id !in weightsBp || weightsBp[id] > MAX_SAFE || weightsBp[id] < 0 { return Failure(InvalidShare(id)); }
      SumAdd(SetOf(participants[..i]), weightsBp, id);
      bpSum := bpSum + weightsBp[id];
    }
    if bpSum != 10000 { return Failure(WrongSum(bpSum)); }
    var splits := Allocate(input, weightsBp);
    return Success(splits);
  }

  method Allocate(input: SplitInput, weightsBp: map<UserId, int>) returns (splits: map<UserId, int>)
    requires Valid(input) && (input.mode == Percent || input.mode == RoomWeighted) && input.weightsBp == Some(weightsBp)
    ensures splits == SplitOf(input)
  {
    hide Portion, Sum, First, Valid, Total, SplitOf, SetOf, Distinct;
    ValidParts(input);
    var participants := input.participants;
    TakeEnds(participants);
    splits := map[];
    var handedOut := 0;
    SumEmpty(splits);
    for i := 0 to |participants|
      invariant SetOf(participants[..i]) <= weightsBp.Keys
      invariant splits == map id | id in SetOf(participants[..i]) :: Portion(input.totalCents, weightsBp[id])
      invariant handedOut == Total(splits)
    {
      var id := participants[i];
      TakeStep(participants, i);
      InSetOf(participants, i);
      var share := Portion(input.totalCents, weightsBp[id]);
      TotalInsert(splits, id, share);
      splits := splits[id := share];
      handedOut := handedOut + share;
    }
    assert splits == Floors(SetOf(participants), input);
    AllocatedIsSplit(input, splits, handedOut);
    var recipient := RemainderRecipient(participants, input.paidBy);
    splits := splits[recipient := splits[recipient] + (input.totalCents - handedOut)];
  }

  lemma InSetOf(participants: seq<UserId>, i: nat)
    requires i < |participants|
    ensures participants[i] in SetOf(participants)
  {
  }

  lemma AllocatedIsSplit(input: SplitInput, splits: map<UserId, int>, handedOut: int)
    requires Valid(input) && splits == Floors(SetOf(input.participants), input) && handedOut == Total(splits)
    ensures var who := RemainderRecipient(input.participants, input.paidBy);
            who in splits && splits[who := splits[who] + (input.totalCents - handedOut)] == SplitOf(input)
  {
    hide Portion, Sum, First, Valid, Distinct;
  }

  lemma ValidParts(input: SplitInput)
    requires Valid(input)
    ensures Checked(input)
    ensures input.mode == Percent || input.mode == RoomWeighted ==>
              input.weightsBp.Some? && Shares(SetOf(input.participants), input.weightsBp.value)
  {
  }

  // ---------- what a split keeps ----------

  /** No cent is lost or made: the shares of any split sum to its total. */
  lemma SplitSumsToTotal(input: SplitInput)
    requires Valid(input)
    ensures SplitOf(input).Keys == SetOf(input.participants)
    ensures Total(SplitOf(input)) == input.totalCents
  {
    var ids := SetOf(input.participants);
    var floors, split := Floors(ids, input), SplitOf(input);
    var who := RemainderRecipient(input.participants, input.paidBy);
    assert who in ids && split.Keys == ids;
    SumTake(ids, floors, who);
    SumTake(ids, split, who);
    SumAgree(ids - {who}, floors, split);
  }

  lemma {:induction false} FloorLoss(ids: set<UserId>, total: int, weights: map<UserId, int>, floors: map<UserId, int>)
    requires ids <= weights.Keys && ids <= floors.Keys && total > 0
    requires forall id :: id in ids ==> weights[id] >= 0 && floors[id] == Portion(total, weights[id])
    ensures 0 <= total * Sum(ids, weights) - 10000 * Sum(ids, floors)
    ensures ids != {} ==> total * Sum(ids, weights) - 10000 * Sum(ids, floors) < 10000 * |ids|
    decreases |ids|
  {
    hide Portion;
    if ids != {} {
      var id :| id in ids;
      SumTake(ids, weights, id);
      SumTake(ids, floors, id);
      FloorLoss(ids - {id}, total, weights, floors);
      PortionBounds(total, weights[id]);
      Distribute(total, weights[id], Sum(ids - {id}, weights));
      assert |ids| == |ids - {id}| + 1;
    }
  }

  lemma Distribute(a: int, b: int, c: int)
    ensures a * (b + c) == a * b + a * c
  {
  }

  /** The cents moved to the recipient: none in exact mode, fewer than there are participants otherwise. */
  lemma RemainderBound(input: SplitInput)
    requires Valid(input)
    ensures 0 <= Remainder(input) < |input.participants|
    ensures input.mode == Exact ==> Remainder(input) == 0
  {
    var ids := SetOf(input.participants);
    var floors := Floors(ids, input);
    DistinctSize(input.participants);
    hide Portion;
    match input.mode
    case Equal =>
      var base := input.totalCents / |ids|;
      SumConst(ids, floors, base);
    case Exact =>
      SumAgree(ids, input.exactCents.value, floors);
    case _ =>
      FloorLoss(ids, input.totalCents, input.weightsBp.value, floors);
  }

  /**
   Every share is non-negative; all but the recipient get exactly their floor, and the
   recipient's extra is less than one cent per participant.
   */
  lemma SharesNearFloor(input: SplitInput, id: UserId)
    requires Valid(input) && id in input.participants
    ensures var floor := Floors(SetOf(input.participants), input)[id];
            var who := RemainderRecipient(input.participants, input.paidBy);
            && 0 <= floor <= SplitOf(input)[id]
            && (id != who ==> SplitOf(input)[id] == floor)
            && (id == who ==> SplitOf(input)[id] < floor + |input.participants|)
  {
    hide Portion, Remainder;
    RemainderBound(input);
    DistinctSize(input.participants);
    FairBase(input.totalCents, |input.participants|);
    if input.mode == Percent || input.mode == RoomWeighted {
      PortionBounds(input.totalCents, input.weightsBp.value[id]);
    }
  }

  lemma FairBase(total: int, n: int)
    requires total >= 0 && n > 0
    ensures total / n >= 0
  {
  }

  /** The result does not depend on the order in which participants are listed. */
  lemma OrderOfParticipants(a: SplitInput, b: SplitInput)
    requires Valid(a) && b == a.(participants := b.participants)
    requires Distinct(b.participants) && SetOf(a.participants) == SetOf(b.participants)
    ensures Valid(b) && SplitOf(b) == SplitOf(a)
  {
    assert a.participants[0] in SetOf(b.participants);
    RecipientOfSet(a.participants, b.participants, a.paidBy);
  }

  /** Amounts the API accepts keep every product of the weighted modes exact in a double. */
  lemma ProductsExact(input: SplitInput, id: UserId)
    requires Valid(input) && (input.mode == Percent || input.mode == RoomWeighted)
    requires input.totalCents <= 10000000000 && id in input.participants
    ensures 0 <= input.totalCents * input.weightsBp.value[id] < MAX_SAFE
  {
    var ids, w := SetOf(input.participants), input.weightsBp.value;
    SumTake(ids, w, id);
    SumZero(ids - {id}, w);
    SmallProduct(input.totalCents, w[id]);
  }

  lemma MulMonotone(a: int, b: int, c: int)
    requires a <= b && c >= 0
    ensures a * c <= b * c
  {
  }

  lemma SmallProduct(total: int, bp: int)
    requires 0 <= total <= 10000000000 && 0 <= bp <= 10000
    ensures 0 <= total * bp <= 10000000000 * 10000
  {
    MulMonotone(total, 10000000000, bp);
  }
}
