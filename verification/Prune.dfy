/**
 The prune job of stored idempotency keys (apps/worker/src/prune/prune-idempotency-keys.ts):
 bounded delete batches until nothing expired is left.
 */
module Prune {
  import opened Text
  import opened Idempotency

  const BATCH := 5000

  /** A JavaScript number of days: NaN and the infinities are not finite. */
  datatype Days = Finite(days: real) | NotFinite

  datatype PruneError = BadRetention | InvalidDate

  /** The furthest a Date reaches from 1970, in milliseconds (ECMA-262 section 21.4.1.1). */
  const MAX_DATE := 8640000000000000

  type Table = map<Slot, int>

  /** A Date drops fractions of a millisecond towards zero. */
  function Truncated(x: real): int {
    if x >= 0.0 then x.Floor else -(-x).Floor
  }

  /** `new Date(now.getTime() - retentionDays * 24 * 60 * 60 * 1000)` */
  function Cutoff(days: real, now: int): int {
    Truncated(now as real - days * DAY_MS as real)
  }

  /** A retention the job accepts. */
  predicate Retains(retention: Days, now: int) {
    retention.Finite? && retention.days >= 1.0 && -MAX_DATE <= Cutoff(retention.days, now) <= MAX_DATE
  }

  function Expired(rows: Table, cutoff: int): set<Slot> {
    set k | k in rows && rows[k] < cutoff
  }

  /** What one statement may leave: nothing newer than the cutoff goes, nothing that stays changes. */
  predicate Shrunk(before: Table, after: Table, cutoff: int) {
    && after.Keys <= before.Keys && (forall k :: k in after ==> after[k] == before[k])
    && forall k :: k in before && before[k] >= cutoff ==> k in after
  }

  class KeyTable {
    /** `created_at` by primary key. */
    var rows: Table

    constructor (rows: Table)
      ensures this.rows == rows
    {
      this.rows := rows;
    }

    /** DELETE of whichever BATCH expired rows the inner SELECT happens to list. */
    method DeleteBatch(cutoff: int) returns (count: nat)
      modifies this
      ensures count == if |Expired(old(rows), cutoff)| < 5000 then |Expired(old(rows), cutoff)| else 5000
      ensures Shrunk(old(rows), rows, cutoff)
      ensures |Expired(rows, cutoff)| == |Expired(old(rows), cutoff)| - count
    {
      var expired := Expired(rows, cutoff);
      var batch: set<Slot> := {};
      while |batch| < BATCH && batch != expired
        invariant rows == old(rows) && batch <= expired && |batch| <= BATCH
        decreases BATCH - |batch|
      {
        SomethingLeft(batch, expired);
        var k :| k in expired && k !in batch;
        batch := batch + {k};
      }
      rows := map k | k in rows && k !in batch :: rows[k];
      assert Expired(rows, cutoff) == expired - batch;
      SizeOfRest(expired, batch);
      return |batch|;
    }

    /** Ends, and deletes exactly the keys older than the retention window. */
    method PruneIdempotencyKeys(retention: Days, now: int) returns (r: Result<nat, PruneError>)
      modifies this
      ensures r.Success? <==> Retains(retention, now)
      ensures r == Failure(InvalidDate) <==>
                retention.Finite? && retention.days >= 1.0
                && !(-8640000000000000 <= Cutoff(retention.days, now) <= 8640000000000000)
      ensures r == Failure(BadRetention) <==> retention.NotFinite? || retention.days < 1.0
      ensures r.Failure? ==> rows == old(rows)
      ensures r.Success? ==>
                var cutoff := Cutoff(retention.days, now);
                && r.value == |Expired(old(rows), cutoff)|
                && rows == map k | k in old(rows) && old(rows)[k] >= cutoff :: old(rows)[k]
    {
      hide Cutoff;
      if retention.NotFinite? || retention.days < 1.0 { return Failure(BadRetention); }
      var cutoff := Cutoff(retention.days, now);
      if cutoff < -MAX_DATE || cutoff > MAX_DATE { return Failure(InvalidDate); }
      ghost var before := rows;
      var deleted := 0;
      while true
        invariant Shrunk(before, rows, cutoff)
        invariant deleted == |Expired(before, cutoff)| - |Expired(rows, cutoff)|
        decreases |Expired(rows, cutoff)|
      {
        var count := DeleteBatch(cutoff);
        deleted := deleted + count;
        if count < BATCH {
          assert Expired(rows, cutoff) == {};
          assert forall k :: k in rows ==> k !in Expired(rows, cutoff);
          return Success(deleted);
        }
      }
    }
  }

  lemma SomethingLeft<T>(part: set<T>, all: set<T>)
    requires part <= all && part != all
    ensures exists x :: x in all && x !in part
  {
    assert all == part + (all - part);
  }

  lemma SizeOfRest<T>(all: set<T>, part: set<T>)
    requires part <= all
    ensures |all - part| == |all| - |part| && (part == all <==> |part| == |all|)
  {
    assert all == part + (all - part);
  }

  // ---------- the job among the calls ----------

  /** The rows are the keys of the protocol's table, with their creation times. */
  ghost predicate Mirrors(s: State, rows: Table) {
    && s.table.Keys == rows.Keys
    && forall k :: k in rows ==> rows[k] == s.table[k].createdAt
  }

  /** The cutoff is the days before now in milliseconds, a fraction dropped towards 1970. */
  lemma CutoffIs(days: real, now: int)
    ensures var exact, cutoff := now as real - days * 86400000.0, Cutoff(days, now) as real;
            if exact >= 0.0 then cutoff <= exact < cutoff + 1.0 else cutoff - 1.0 < exact <= cutoff
    ensures forall n: int :: days == n as real ==> Cutoff(days, now) == now - n * 86400000
  {
    forall n: int | days == n as real
      ensures Cutoff(days, now) == now - n * 86400000
    {
      assert days * 86400000.0 == (n * 86400000) as real;
    }
  }

  /** The cutoff is at least a day back, whatever fraction of a day is retained. */
  lemma CutoffIsADayBack(days: real, now: int)
    requires days >= 1.0
    ensures Cutoff(days, now) <= now - DAY_MS
  {
    var back := days * DAY_MS as real;
    assert back >= DAY_MS as real;
    var x := now as real - back;
    assert x <= (now - DAY_MS) as real;
  }

  lemma DeleteOne(s: State, before: Table, after: Table, cutoff: int, k: Slot)
    requires Mirrors(s, before) && Shrunk(before, after, cutoff) && cutoff <= s.now - DAY_MS
    requires k in before && k !in after
    ensures Enabled(s, Event.Prune(k, cutoff))
    ensures Mirrors(Step(s, Event.Prune(k, cutoff)), before - {k}) && Shrunk(before - {k}, after, cutoff)
    ensures var s' := Step(s, Event.Prune(k, cutoff)); s'.calls == s.calls && s'.log == s.log && s'.now == s.now
  {
  }

  /**
   Every batch is a run of the protocol's prune steps: started among any calls with a clock
   reading `now` that has passed, what one statement deletes can be deleted key by key, and the
   calls and what they committed stay as they are.
   */
  lemma {:induction false} BatchIsTrace(s: State, before: Table, after: Table, retention: Days, now: int)
    requires Mirrors(s, before) && now <= s.now && Retains(retention, now)
    requires Shrunk(before, after, Cutoff(retention.days, now))
    ensures exists es :: Trace(s, es) && Mirrors(After(s, es), after)
                         && After(s, es).calls == s.calls && After(s, es).log == s.log && After(s, es).now == s.now
    decreases before.Keys - after.Keys
  {
    hide Mirrors, Shrunk, Enabled, Step, Cutoff;
    var cutoff := Cutoff(retention.days, now);
    if before.Keys <= after.Keys {
      AllKept(s, before, after, cutoff);
      assert Trace(s, []) && After(s, []) == s;
    } else {
      var k :| k in before && k !in after;
      var e := Event.Prune(k, cutoff);
      CutoffIsADayBack(retention.days, now);
      DeleteOne(s, before, after, cutoff, k);
      assert (before - {k}).Keys == before.Keys - {k} && k in before.Keys - after.Keys;
      BatchIsTrace(Step(s, e), before - {k}, after, retention, now);
      var es :| Trace(Step(s, e), es) && Mirrors(After(Step(s, e), es), after)
                && After(Step(s, e), es).calls == s.calls && After(Step(s, e), es).log == s.log
                && After(Step(s, e), es).now == s.now;
      assert ([e] + es)[0] == e && ([e] + es)[1..] == es;
      assert Trace(s, [e] + es) && After(s, [e] + es) == After(Step(s, e), es);
    }
  }

  lemma AllKept(s: State, before: Table, after: Table, cutoff: int)
    requires Mirrors(s, before) && Shrunk(before, after, cutoff) && before.Keys <= after.Keys
    ensures Mirrors(s, after)
  {
  }
}
