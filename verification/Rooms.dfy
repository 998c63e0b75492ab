/** Dividing a room's weight across its occupants (packages/domain/src/money/rooms.ts). */
module Rooms {
  import opened Text
  import opened Sums
  import opened Splits

  /** The share of the occupant at position `i` of `n`: the leftover basis points go one each to the first. */
  function ShareAt(weightBp: int, n: nat, i: nat): int
    requires n > 0
  {
    weightBp / n + if i < weightBp % n then 1 else 0
  }

  /** The shares of the first `i` occupants. */
  function DividedUpTo(weightBp: int, occupants: seq<UserId>, i: nat): map<UserId, int>
    requires i <= |occupants| && occupants != []
  {
    if i == 0 then map[]
    else DividedUpTo(weightBp, occupants, i - 1)[occupants[i - 1] := ShareAt(weightBp, |occupants|, i - 1)]
  }

  function Divided(weightBp: int, occupants: seq<UserId>): map<UserId, int>
    requires occupants != []
  {
    DividedUpTo(weightBp, occupants, |occupants|)
  }

  predicate Divisible(weightBp: int, occupants: seq<UserId>) {
    1 <= weightBp <= 10000 && occupants != [] && Distinct(occupants)
  }

  method DivideRoomWeight(weightBp: int, occupants: seq<UserId>) returns (r: Result<map<UserId, int>, SplitError>)
    ensures r.Success? <==> Divisible(weightBp, occupants)
    ensures r.Success? ==> r.value == Divided(weightBp, occupants)
  {
    if weightBp < 1 || weightBp > 10000 { return Failure(InvalidTotal); }
    if |occupants| == 0 { return Failure(NoParticipants); }
    DistinctSize(occupants);
    if |SetOf(occupants)| != |occupants| { return Failure(DuplicateParticipants); }
    var base := weightBp / |occupants|;
    var remainder := weightBp - base * |occupants|;
    QuotientRemainder(weightBp, |occupants|);
    ghost var left := remainder;
    var shares: map<UserId, int> := map[];
    for i := 0 to |occupants|
      invariant shares == DividedUpTo(weightBp, occupants, i)
      invariant remainder == if i < left then left - i else 0
    {
      shares := shares[occupants[i] := base + if remainder > 0 then 1 else 0];
      if remainder > 0 { remainder := remainder - 1; }
    }
    return Success(shares);
  }

  lemma QuotientRemainder(w: int, n: int)
    requires n > 0
    ensures w - w / n * n == w % n && 0 <= w % n < n
  {
  }

  lemma {:induction false} DividedKeys(weightBp: int, occupants: seq<UserId>, i: nat)
    requires i <= |occupants| && occupants != [] && Distinct(occupants)
    ensures DividedUpTo(weightBp, occupants, i).Keys == SetOf(occupants[..i])
    ensures forall j :: 0 <= j < i ==>
                occupants[j] in DividedUpTo(weightBp, occupants, i)
                && DividedUpTo(weightBp, occupants, i)[occupants[j]] == ShareAt(weightBp, |occupants|, j)
  {
    hide ShareAt;
    if i > 0 {
      DividedKeys(weightBp, occupants, i - 1);
      TakeStep(occupants, i - 1);
    }
  }

  /** The shares of a room sum to its weight. */
  lemma {:induction false} DividedSum(weightBp: int, occupants: seq<UserId>, i: nat)
    requires Divisible(weightBp, occupants) && i <= |occupants|
    ensures var base, extra := weightBp / |occupants|, weightBp % |occupants|;
            Total(DividedUpTo(weightBp, occupants, i)) == base * i + if i < extra then i else extra
  {
    var base := weightBp / |occupants|;
    if i == 0 {
      SumEmpty(DividedUpTo(weightBp, occupants, 0));
    } else {
      DividedSum(weightBp, occupants, i - 1);
      DividedKeys(weightBp, occupants, i - 1);
      TakeStep(occupants, i - 1);
      TotalInsert(DividedUpTo(weightBp, occupants, i - 1), occupants[i - 1], ShareAt(weightBp, |occupants|, i - 1));
      OneMore(base, i - 1);
    }
  }

  /**
   A room's weight is fully divided, over exactly its occupants, into shares that differ by
   at most one basis point and never grow along the order given.
   */
  lemma DividedFairly(weightBp: int, occupants: seq<UserId>)
    requires Divisible(weightBp, occupants)
    ensures var shares := Divided(weightBp, occupants);
            && shares.Keys == SetOf(occupants) && Total(shares) == weightBp
            && (forall j :: 0 <= j < |occupants| ==> 0 <= shares[occupants[j]])
            && forall j, k :: 0 <= j < k < |occupants| ==>
                   shares[occupants[k]] <= shares[occupants[j]] <= shares[occupants[k]] + 1
  {
    var n := |occupants|;
    DividedKeys(weightBp, occupants, n);
    TakeEnds(occupants);
    DividedSum(weightBp, occupants, n);
    QuotientRemainder(weightBp, n);
    FairBase(weightBp, n);
    hide Divided, DividedUpTo;
  }
}
