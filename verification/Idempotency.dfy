/**
 The idempotency protocol of the money mutations (withIdempotency in
 apps/api/src/lib/idempotency.ts) as a state machine: any number of calls under any keys
 interleave, crash and lose their responses, while expired keys are pruned.
 */
module Idempotency {
  import opened Text

  /** The primary key of `idempotency_keys`. */
  datatype Slot = Slot(key: string, user: string, endpoint: string)

  datatype Response = Response(status: int, body: string)

  datatype Row = Row(hash: string, response: Response, createdAt: int)

  datatype Outcome = Replied(response: Response) | Conflict | Failed

  /**
   Where a call stands: before its lookup, inside its mutation (its transaction began at
   `since`), rolled back by a unique violation, or answered.  `epoch` is history: how often the
   slot had been pruned when the answer was found.
   */
  datatype Phase = Arrived | Executing(since: int) | Violated | Done(outcome: Outcome, epoch: nat)

  datatype Caller = Caller(slot: Slot, hash: string, phase: Phase)

  // ---------- one call ----------

  /** What the mutation's own transaction comes to, before its row is stored. */
  datatype Attempt = Ready(response: Response) | UniqueElsewhere | Broken

  /** What a lookup answers. */
  function Stored(table: map<Slot, Row>, slot: Slot, hash: string): Outcome
    requires slot in table
  {
    if table[slot].hash != hash then Conflict else Replied(table[slot].response)
  }

  /** What one call leaves and answers, a rival's row having been committed while its mutation ran. */
  function Called(table: map<Slot, Row>, slot: Slot, hash: string, attempt: Attempt, rival: Option<Row>, now: int)
      : (map<Slot, Row>, Outcome)
  {
    if slot in table then (table, Stored(table, slot, hash))
    else
      var raced := if rival.Some? then table[slot := rival.value] else table;
      if attempt.Broken? then (raced, Failed)
      else if rival.Some? then (raced, Stored(raced, slot, hash))
      else if attempt.Ready? then (table[slot := Row(hash, attempt.response, now)], Replied(attempt.response))
      else (table, Failed)
  }

  class KeyStore {
    var table: map<Slot, Row>

    constructor ()
      ensures table == map[]
    {
      table := map[];
    }

    /** findStoredResponse; None when the slot has no row. */
    method FindStoredResponse(slot: Slot, hash: string) returns (found: Option<Outcome>)
      ensures found.None? <==> slot !in table
      ensures found == Some(Conflict) <==> slot in table && table[slot].hash != hash
      ensures found.Some? && found.value.Replied? ==> found.value == Replied(table[slot].response)
      ensures found != Some(Failed)
    {
      if slot !in table { return None; }
      var row := table[slot];
      if row.hash != hash { return Some(Conflict); }
      return Some(Replied(row.response));
    }

    /**
     withIdempotency for one caller; `rival` is the row a concurrent duplicate commits while this
     call's mutation runs.  A reply is always the stored row's, a conflict means another
     request's row is there, and the call's own row is stored only with its own reply.
     */
    method WithIdempotency(slot: Slot, hash: string, attempt: Attempt, rival: Option<Row>, now: int)
        returns (r: Outcome)
      modifies this
      ensures (table, r) == Called(old(table), slot, hash, attempt, rival, now)
      ensures slot in old(table) ==> table == old(table)
      ensures slot !in old(table) && rival.Some? ==> table == old(table)[slot := rival.value]
      ensures slot !in old(table) && rival.None? ==>
                table == if attempt.Ready? then old(table)[slot := Row(hash, attempt.response, now)] else old(table)
      ensures r.Replied? ==> slot in table && table[slot].hash == hash && table[slot].response == r.response
      ensures r.Conflict? ==> slot in table && table[slot].hash != hash
      ensures r.Failed? <==> slot !in old(table) && (attempt.Broken? || (attempt.UniqueElsewhere? && rival.None?))
    {
      var replayed := FindStoredResponse(slot, hash);
      if replayed.Some? { return replayed.value; }
      if rival.Some? { table := table[slot := rival.value]; }
      if attempt.Broken? { return Failed; }
      if attempt.Ready? && slot !in table {
        table := table[slot := Row(hash, attempt.response, now)];
        return Replied(attempt.response);
      }
      var stored := FindStoredResponse(slot, hash);
      if stored.Some? { return stored.value; }
      return Failed;
    }
  }

  // ---------- all calls ----------

  /** History: one committed mutation. */
  datatype Commit = Commit(slot: Slot, hash: string, response: Response, caller: nat, epoch: nat, createdAt: int,
    at: int)

  datatype State = State(now: int, table: map<Slot, Row>, calls: map<nat, Caller>, pruned: map<Slot, nat>,
    log: seq<Commit>)

  /** The prune job keeps at least a day (retentionDays < 1 is refused). */
  const DAY_MS := 86400000

  datatype Event =
    | Tick(now: int)
    | Arrive(c: nat, slot: Slot, hash: string)
    | Lookup(c: nat)
    | Store(c: nat, response: Response)
    | Violate(c: nat)
    | Relook(c: nat)
    | Fail(c: nat)
    | Crash(c: nat)
    | Prune(slot: Slot, cutoff: int)

  function Epoch(s: State, slot: Slot): nat {
    if slot in s.pruned then s.pruned[slot] else 0
  }

  /** findStoredResponse: the stored answer, a conflict, or none. */
  function Find(s: State, c: Caller): Option<Outcome> {
    if c.slot !in s.table then None
    else if s.table[c.slot].hash != c.hash then Some(Conflict)
    else Some(Replied(s.table[c.slot].response))
  }

  predicate At(s: State, c: nat, phase: Phase) {
    c in s.calls && s.calls[c].phase == phase
  }

  predicate Executes(s: State, c: nat) {
    c in s.calls && s.calls[c].phase.Executing?
  }

  predicate Enabled(s: State, ev: Event) {
    match ev
    case Tick(now) => s.now <= now
    case Arrive(c, _, _) => c !in s.calls && forall i :: 0 <= i < |s.log| ==> s.log[i].caller != c
    case Lookup(c) => At(s, c, Arrived)
    case Store(c, _) => Executes(s, c) && s.calls[c].slot !in s.table // the primary key
    case Violate(c) => Executes(s, c) // that key, or any other unique index inside the mutation
    case Relook(c) => At(s, c, Violated)
    case Fail(c) => Executes(s, c)
    case Crash(c) => c in s.calls
    case Prune(slot, cutoff) => slot in s.table && s.table[slot].createdAt < cutoff <= s.now - DAY_MS
  }

  function Answered(s: State, c: nat, outcome: Outcome): State
    requires c in s.calls
  {
    s.(calls := s.calls[c := s.calls[c].(phase := Done(outcome, Epoch(s, s.calls[c].slot)))])
  }

  function Step(s: State, ev: Event): State
    requires Enabled(s, ev)
  {
    match ev
    case Tick(now) => s.(now := now)
    case Arrive(c, slot, hash) => s.(calls := s.calls[c := Caller(slot, hash, Arrived)])
    case Lookup(c) =>
      var found := Find(s, s.calls[c]);
      if found.Some? then Answered(s, c, found.value)
      else s.(calls := s.calls[c := s.calls[c].(phase := Executing(s.now))])
    case Store(c, response) =>
      var call := s.calls[c];
      Answered(s.(table := s.table[call.slot := Row(call.hash, response, call.phase.since)],
                  log := s.log + [Commit(call.slot, call.hash, response, c, Epoch(s, call.slot), call.phase.since,
                    s.now)]),
               c, Replied(response))
    case Violate(c) => s.(calls := s.calls[c := s.calls[c].(phase := Violated)])
    case Relook(c) =>
      var found := Find(s, s.calls[c]);
      Answered(s, c, if found.Some? then found.value else Failed)
    case Fail(c) => Answered(s, c, Failed)
    case Crash(c) => s.(calls := s.calls - {c})
    case Prune(slot, _) => s.(table := s.table - {slot}, pruned := s.pruned[slot := Epoch(s, slot) + 1])
  }

  predicate Start(s: State) {
    s.table == map[] && s.calls == map[] && s.pruned == map[] && s.log == []
  }

  predicate Trace(s: State, es: seq<Event>)
    decreases |es|
  {
    es == [] || (Enabled(s, es[0]) && Trace(Step(s, es[0]), es[1..]))
  }

  function After(s: State, es: seq<Event>): State
    requires Trace(s, es)
    decreases |es|
  {
    if es == [] then s else After(Step(s, es[0]), es[1..])
  }

  // ---------- the invariant ----------

  /** The commit behind a stored row. */
  predicate Behind(log: seq<Commit>, slot: Slot, row: Row, epoch: nat) {
    exists i :: 0 <= i < |log| && log[i].slot == slot && log[i].hash == row.hash && log[i].response == row.response
             && log[i].createdAt == row.createdAt && log[i].epoch == epoch
  }

  /** An answer rests on one commit of its epoch: the same request's, or for a conflict another's. */
  predicate Rests(log: seq<Commit>, c: Caller) {
    match c.phase
    case Done(Replied(response), epoch) =>
      exists i :: 0 <= i < |log| && log[i].slot == c.slot && log[i].epoch == epoch && log[i].hash == c.hash
        && log[i].response == response
    case Done(Conflict, epoch) =>
      exists i :: 0 <= i < |log| && log[i].slot == c.slot && log[i].epoch == epoch && log[i].hash != c.hash
    case _ => true
  }

  predicate Commits(log: seq<Commit>, c: nat) {
    exists i :: 0 <= i < |log| && log[i].caller == c
  }

  /** Later commits of one slot are of later epochs, and more than a day after the earlier began. */
  predicate Ordered(log: seq<Commit>) {
    forall i, j :: 0 <= i < j < |log| && log[i].slot == log[j].slot ==>
      log[i].epoch < log[j].epoch && log[j].at > log[i].createdAt + DAY_MS
  }

  ghost predicate Inv(s: State) {
    && Ordered(s.log)
    && (forall i :: 0 <= i < |s.log| ==> LogOk(s, s.log[i]))
    && (forall slot :: slot in s.table ==> Behind(s.log, slot, s.table[slot], Epoch(s, slot)))
    && (forall c :: c in s.calls ==> Rests(s.log, s.calls[c]) && CallOk(s, c))
  }

  /** A commit whose slot has not been pruned since is still stored; otherwise a day has passed. */
  predicate LogOk(s: State, m: Commit) {
    && m.epoch <= Epoch(s, m.slot) && m.at <= s.now
    && (m.epoch == Epoch(s, m.slot) ==> m.slot in s.table && s.table[m.slot] == Row(m.hash, m.response, m.createdAt))
    && (m.epoch < Epoch(s, m.slot) ==> m.createdAt + DAY_MS < s.now)
  }

  /** Only a call that was answered with its own commit has committed. */
  predicate CallOk(s: State, c: nat)
    requires c in s.calls
  {
    && (Commits(s.log, c) ==> s.calls[c].phase.Done? && s.calls[c].phase.outcome.Replied?)
    && (s.calls[c].phase.Executing? ==> s.calls[c].phase.since <= s.now)
  }

  lemma RestsGrows(log: seq<Commit>, m: Commit, c: Caller)
    requires Rests(log, c)
    ensures Rests(log + [m], c)
  {
    match c.phase
    case Done(Replied(response), epoch) =>
      var i :| 0 <= i < |log| && log[i].slot == c.slot && log[i].epoch == epoch && log[i].hash == c.hash
        && log[i].response == response;
      assert (log + [m])[i] == log[i];
    case Done(Conflict, epoch) =>
      var i :| 0 <= i < |log| && log[i].slot == c.slot && log[i].epoch == epoch && log[i].hash != c.hash;
      assert (log + [m])[i] == log[i];
    case _ =>
  }

  lemma BehindGrows(log: seq<Commit>, m: Commit, slot: Slot, row: Row, epoch: nat)
    requires Behind(log, slot, row, epoch)
    ensures Behind(log + [m], slot, row, epoch)
  {
    var i :| 0 <= i < |log| && log[i].slot == slot && log[i].hash == row.hash && log[i].response == row.response
             && log[i].createdAt == row.createdAt && log[i].epoch == epoch;
    assert (log + [m])[i] == log[i];
  }

  /** What a lookup finds rests on the commit behind the row. */
  lemma FoundRests(s: State, c: nat)
    requires Inv(s) && c in s.calls && Find(s, s.calls[c]).Some?
    ensures Rests(s.log, s.calls[c].(phase := Done(Find(s, s.calls[c]).value, Epoch(s, s.calls[c].slot))))
  {
    var call := s.calls[c];
    var row := s.table[call.slot];
    assert Behind(s.log, call.slot, row, Epoch(s, call.slot));
  }

  /** Replacing one call that has committed nothing. */
  lemma SetCall(s: State, c: nat, call: Caller)
    requires Inv(s) && Rests(s.log, call) && !Commits(s.log, c) && (call.phase.Executing? ==> call.phase.since <= s.now)
    ensures Inv(s.(calls := s.calls[c := call]))
  {
    hide Rests, Behind, Ordered, Commits;
    var s' := s.(calls := s.calls[c := call]);
    forall i | 0 <= i < |s.log|
      ensures LogOk(s', s.log[i])
    {
      assert LogOk(s, s.log[i]);
    }
    forall d | d in s'.calls
      ensures CallOk(s', d)
    {
      assert d != c ==> CallOk(s, d);
    }
  }

  lemma StoreKeeps(s: State, c: nat, response: Response)
    requires Inv(s) && Enabled(s, Store(c, response))
    ensures Inv(Step(s, Store(c, response)))
  {
    hide Rests, Behind, Commits, LogOk, CallOk;
    var call := s.calls[c];
    var m := Commit(call.slot, call.hash, response, c, Epoch(s, call.slot), call.phase.since, s.now);
    var s' := Step(s, Store(c, response));
    StoreOrdered(s, c, m);
    forall slot | slot in s'.table
      ensures Behind(s'.log, slot, s'.table[slot], Epoch(s', slot))
    {
      if slot == call.slot {
        LastBehind(s.log, m);
      } else {
        BehindGrows(s.log, m, slot, s.table[slot], Epoch(s, slot));
      }
    }
    forall i | 0 <= i < |s'.log|
      ensures LogOk(s', s'.log[i])
    {
      if i < |s.log| { StoreLogOk(s, c, response, i); } else { LastLogOk(s, c, response); }
    }
    forall d | d in s'.calls
      ensures Rests(s'.log, s'.calls[d]) && CallOk(s', d)
    {
      if d == c {
        LastRests(s, c, response);
      } else {
        RestsGrows(s.log, m, s.calls[d]);
        StoreCallOk(s, c, response, d);
      }
    }
  }

  /** No earlier commit of the slot is of this epoch: its row would be in the table. */
  lemma StoreOrdered(s: State, c: nat, m: Commit)
    requires Inv(s) && Executes(s, c) && s.calls[c].slot !in s.table
    requires m.slot == s.calls[c].slot && m.epoch == Epoch(s, m.slot) && m.at == s.now
    ensures Ordered(s.log + [m])
  {
    hide Rests, Behind, Commits, CallOk;
    forall i | 0 <= i < |s.log| && s.log[i].slot == m.slot
      ensures s.log[i].epoch < m.epoch && m.at > s.log[i].createdAt + DAY_MS
    {
      assert LogOk(s, s.log[i]);
    }
  }

  lemma LastBehind(log: seq<Commit>, m: Commit)
    ensures Behind(log + [m], m.slot, Row(m.hash, m.response, m.createdAt), m.epoch)
  {
    assert (log + [m])[|log|] == m;
  }

  lemma StoreLogOk(s: State, c: nat, response: Response, i: nat)
    requires Inv(s) && Enabled(s, Store(c, response)) && i < |s.log|
    ensures LogOk(Step(s, Store(c, response)), s.log[i])
  {
    hide Rests, Behind, Commits, CallOk, Ordered;
    assert LogOk(s, s.log[i]);
  }

  lemma LastLogOk(s: State, c: nat, response: Response)
    requires Enabled(s, Store(c, response))
    ensures var s' := Step(s, Store(c, response)); LogOk(s', s'.log[|s.log|])
  {
  }

  lemma LastRests(s: State, c: nat, response: Response)
    requires Enabled(s, Store(c, response))
    ensures var s' := Step(s, Store(c, response)); Rests(s'.log, s'.calls[c]) && CallOk(s', c)
  {
    var s' := Step(s, Store(c, response));
    assert s'.log[|s.log|].caller == c;
  }

  lemma StoreCallOk(s: State, c: nat, response: Response, d: nat)
    requires Enabled(s, Store(c, response)) && d in s.calls && d != c && CallOk(s, d)
    ensures CallOk(Step(s, Store(c, response)), d)
  {
    var s' := Step(s, Store(c, response));
    if Commits(s'.log, d) {
      var i :| 0 <= i < |s'.log| && s'.log[i].caller == d;
      assert s.log[i].caller == d;
    }
  }

  lemma PruneKeeps(s: State, slot: Slot, cutoff: int)
    requires Inv(s) && Enabled(s, Prune(slot, cutoff))
    ensures Inv(Step(s, Prune(slot, cutoff)))
  {
    hide Rests, Behind, Commits, Ordered;
    var s' := Step(s, Prune(slot, cutoff));
    forall i | 0 <= i < |s.log|
      ensures LogOk(s', s.log[i])
    {
      assert LogOk(s, s.log[i]);
    }
    forall c | c in s'.calls
      ensures CallOk(s', c)
    {
      assert CallOk(s, c);
    }
  }

  lemma NotCommitted(s: State, c: nat)
    requires Inv(s) && c in s.calls && !s.calls[c].phase.Done?
    ensures !Commits(s.log, c)
  {
    hide Rests, Behind, Ordered, LogOk, Commits;
    assert CallOk(s, c);
  }

  lemma TickKeeps(s: State, now: int)
    requires Inv(s) && s.now <= now
    ensures Inv(s.(now := now))
  {
    hide Rests, Behind, Commits, Ordered;
    var s' := s.(now := now);
    forall i | 0 <= i < |s.log| ensures LogOk(s', s.log[i]) { assert LogOk(s, s.log[i]); }
    forall c | c in s.calls ensures CallOk(s', c) { assert CallOk(s, c); }
  }

  lemma CrashKeeps(s: State, c: nat)
    requires Inv(s)
    ensures Inv(s.(calls := s.calls - {c}))
  {
    hide Rests, Behind, Commits, Ordered;
    var s' := s.(calls := s.calls - {c});
    forall i | 0 <= i < |s.log| ensures LogOk(s', s.log[i]) { assert LogOk(s, s.log[i]); }
    forall d | d in s'.calls ensures CallOk(s', d) { assert CallOk(s, d); }
  }

  lemma InvStep(s: State, ev: Event)
    requires Inv(s) && Enabled(s, ev)
    ensures Inv(Step(s, ev))
  {
    hide Inv, Behind, Ordered, LogOk, Find;
    match ev
    case Tick(now) => TickKeeps(s, now);
    case Arrive(c, slot, hash) => SetCall(s, c, Caller(slot, hash, Arrived));
    case Lookup(c) =>
      NotCommitted(s, c);
      if Find(s, s.calls[c]).Some? {
        FoundRests(s, c);
        SetCall(s, c, s.calls[c].(phase := Done(Find(s, s.calls[c]).value, Epoch(s, s.calls[c].slot))));
      } else {
        SetCall(s, c, s.calls[c].(phase := Executing(s.now)));
      }
    case Store(c, response) => StoreKeeps(s, c, response);
    case Violate(c) => NotCommitted(s, c); SetCall(s, c, s.calls[c].(phase := Violated));
    case Relook(c) =>
      NotCommitted(s, c);
      if Find(s, s.calls[c]).Some? { FoundRests(s, c); }
      SetCall(s, c, Step(s, ev).calls[c]);
    case Fail(c) => NotCommitted(s, c); SetCall(s, c, Step(s, ev).calls[c]);
    case Crash(c) => CrashKeeps(s, c);
    case Prune(slot, cutoff) => PruneKeeps(s, slot, cutoff);
  }

  lemma {:induction false} InvRun(s: State, es: seq<Event>)
    requires Inv(s) && Trace(s, es)
    ensures Inv(After(s, es))
    decreases |es|
  {
    hide Inv, Enabled, Step;
    if es != [] {
      InvStep(s, es[0]);
      InvRun(Step(s, es[0]), es[1..]);
    }
  }

  lemma InvStart(s: State)
    requires Start(s)
    ensures Inv(s)
  {
  }

  // ---------- the code is a run of the machine ----------

  ghost predicate Reaches(s: State, t: State) {
    exists es :: Trace(s, es) && After(s, es) == t
  }

  lemma ReachSelf(s: State)
    ensures Reaches(s, s)
  {
    assert Trace(s, []) && After(s, []) == s;
  }

  lemma {:induction false} TraceSnoc(s: State, es: seq<Event>, ev: Event)
    requires Trace(s, es) && Enabled(After(s, es), ev)
    ensures Trace(s, es + [ev]) && After(s, es + [ev]) == Step(After(s, es), ev)
    decreases |es|
  {
    hide Enabled, Step;
    if es == [] {
      assert es + [ev] == [ev] && [ev][1..] == [];
      assert After(Step(s, ev), []) == Step(s, ev);
    } else {
      TraceSnoc(Step(s, es[0]), es[1..], ev);
      assert (es + [ev])[1..] == es[1..] + [ev];
    }
  }

  lemma ReachStep(s: State, t: State, ev: Event)
    requires Reaches(s, t) && Enabled(t, ev)
    ensures Reaches(s, Step(t, ev))
  {
    hide Enabled, Step;
    var es :| Trace(s, es) && After(s, es) == t;
    TraceSnoc(s, es, ev);
  }

  predicate NewCaller(s: State, c: nat) {
    c !in s.calls && forall i :: 0 <= i < |s.log| ==> s.log[i].caller != c
  }

  /** The call has been answered, and calls other than it and its rival are where they were. */
  ghost predicate Answers(s: State, t: State, c: nat, d: nat, slot: Slot, hash: string, r: Outcome) {
    && Reaches(s, t) && t.now == s.now && c in t.calls && t.calls[c] == Caller(slot, hash, Done(r, Epoch(s, slot)))
    && forall x :: x != c && x != d ==> (x in t.calls <==> x in s.calls) && (x in s.calls ==> t.calls[x] == s.calls[x])
  }

  /** A call arrives, looks up, and runs its mutation if it finds nothing. */
  lemma CallBegins(s: State, u: State, c: nat, slot: Slot, hash: string) returns (t: State)
    requires Reaches(s, u) && NewCaller(u, c)
    ensures Reaches(s, t) && t.table == u.table && t.log == u.log && t.now == u.now && t.pruned == u.pruned
    ensures var phase := if slot in u.table then Done(Stored(u.table, slot, hash), Epoch(u, slot))
                         else Executing(u.now);
            t.calls == u.calls[c := Caller(slot, hash, phase)]
  {
    hide Reaches;
    ReachStep(s, u, Arrive(c, slot, hash));
    var u1 := Step(u, Arrive(c, slot, hash));
    ReachStep(s, u1, Lookup(c));
    t := Step(u1, Lookup(c));
  }

  /** The mutation ends: committed, broken, or with a unique violation and another look. */
  lemma CallEnds(s: State, u: State, c: nat, attempt: Attempt) returns (t: State)
    requires Reaches(s, u) && Executes(u, c)
    ensures Reaches(s, t) && t.now == u.now && t.pruned == u.pruned
    ensures var call := u.calls[c];
            var free := call.slot !in u.table;
            var r := if attempt.Broken? then Failed
                     else if !free then Stored(u.table, call.slot, call.hash)
                     else if attempt.Ready? then Replied(attempt.response) else Failed;
            && t.calls == u.calls[c := call.(phase := Done(r, Epoch(u, call.slot)))]
            && t.table == if free && attempt.Ready?
                          then u.table[call.slot := Row(call.hash, attempt.response, call.phase.since)] else u.table
  {
    hide Reaches;
    if attempt.Broken? {
      ReachStep(s, u, Fail(c));
      t := Step(u, Fail(c));
    } else if attempt.Ready? && u.calls[c].slot !in u.table {
      ReachStep(s, u, Store(c, attempt.response));
      t := Step(u, Store(c, attempt.response));
    } else {
      ReachStep(s, u, Violate(c));
      var u1 := Step(u, Violate(c));
      ReachStep(s, u1, Relook(c));
      t := Step(u1, Relook(c));
    }
  }

  /**
   Every execution of withIdempotency is a run of the machine: from any state, a new call with or
   without a rival that commits while it runs reaches the table the code leaves, with the code's
   answer, and disturbs no other call.
   */
  lemma CallIsTrace(s: State, c: nat, d: nat, slot: Slot, hash: string, attempt: Attempt, rival: Option<Row>)
    requires NewCaller(s, c) && NewCaller(s, d) && c != d && (rival.Some? ==> rival.value.createdAt == s.now)
    ensures exists t: State :: t.table == Called(s.table, slot, hash, attempt, rival, s.now).0
                        && Answers(s, t, c, d, slot, hash, Called(s.table, slot, hash, attempt, rival, s.now).1)
  {
    hide Reaches;
    ReachSelf(s);
    var u := CallBegins(s, s, c, slot, hash);
    if slot !in s.table {
      if rival.Some? {
        var v := CallBegins(s, u, d, slot, rival.value.hash);
        u := CallEnds(s, v, d, Ready(rival.value.response));
      }
      u := CallEnds(s, u, c, attempt);
    }
    assert Answers(s, u, c, d, slot, hash, Called(s.table, slot, hash, attempt, rival, s.now).1);
  }

  // ---------- what follows ----------

  /**
   In every interleaving at most one mutation commits per (key, user, endpoint) while its row is
   retained, and two commits under one key are always more than a day apart.
   */
  lemma AtMostOnce(s: State, es: seq<Event>, i: nat, j: nat)
    requires Start(s) && Trace(s, es) && i < j < |After(s, es).log|
    requires After(s, es).log[i].slot == After(s, es).log[j].slot
    ensures After(s, es).log[i].epoch < After(s, es).log[j].epoch
    ensures After(s, es).log[j].at > After(s, es).log[i].createdAt + 24 * 60 * 60 * 1000
  {
    hide Enabled, Step, Start, Behind, Rests, LogOk, CallOk;
    InvStart(s);
    InvRun(s, es);
  }

  /** Every successful caller of an epoch gets the response of its one commit, which was for the same request. */
  lemma AllGetTheStoredResponse(s: State, es: seq<Event>, c: nat, i: nat)
    requires Start(s) && Trace(s, es)
    requires var end := After(s, es);
             c in end.calls && i < |end.log| && end.calls[c].phase.Done? && end.calls[c].phase.outcome.Replied?
             && end.log[i].slot == end.calls[c].slot && end.log[i].epoch == end.calls[c].phase.epoch
    ensures After(s, es).calls[c].phase.outcome == Replied(After(s, es).log[i].response)
    ensures After(s, es).log[i].hash == After(s, es).calls[c].hash
  {
    hide Enabled, Step, Start, Behind, LogOk, CallOk;
    InvStart(s);
    InvRun(s, es);
    var end := After(s, es);
    assert Rests(end.log, end.calls[c]);
    var k :| 0 <= k < |end.log| && end.log[k].slot == end.calls[c].slot && end.log[k].epoch == end.calls[c].phase.epoch
             && end.log[k].hash == end.calls[c].hash && end.log[k].response == end.calls[c].phase.outcome.response;
    OneEpoch(end.log, i, k);
  }

  lemma OneEpoch(log: seq<Commit>, i: nat, j: nat)
    requires Ordered(log) && i < |log| && j < |log| && log[i].slot == log[j].slot && log[i].epoch == log[j].epoch
    ensures i == j
  {
  }

  /** A caller told of a conflict or an error has committed nothing; a conflict means another request holds the key. */
  lemma RefusedCommitsNothing(s: State, es: seq<Event>, c: nat)
    requires Start(s) && Trace(s, es)
    requires c in After(s, es).calls && After(s, es).calls[c].phase.Done?
             && !After(s, es).calls[c].phase.outcome.Replied?
    ensures forall i :: 0 <= i < |After(s, es).log| ==> After(s, es).log[i].caller != c
    ensures var end := After(s, es);
            end.calls[c].phase.outcome.Conflict? ==>
              exists i :: 0 <= i < |end.log| && end.log[i].slot == end.calls[c].slot
                && end.log[i].epoch == end.calls[c].phase.epoch
                       && end.log[i].hash != end.calls[c].hash
  {
    hide Enabled, Step, Start, Behind, LogOk;
    InvStart(s);
    InvRun(s, es);
    assert CallOk(After(s, es), c) && Rests(After(s, es).log, After(s, es).calls[c]);
  }

  // ---------- the log is what the events say ----------

  /** The clock after the events. */
  function Clock(start: int, es: seq<Event>): int {
    if es == [] then start
    else if es[|es| - 1].Tick? then es[|es| - 1].now else Clock(start, es[..|es| - 1])
  }

  /** The request a call last arrived with. */
  function ArrivedAs(es: seq<Event>, c: nat): (Slot, string) {
    if es == [] then (Slot("", "", ""), "")
    else
      match es[|es| - 1]
      case Arrive(c', slot, hash) => if c' == c then (slot, hash) else ArrivedAs(es[..|es| - 1], c)
      case _ => ArrivedAs(es[..|es| - 1], c)
  }

  /** When a call last looked its key up, and so began its mutation if it found nothing. */
  function LookedUpAt(start: int, es: seq<Event>, c: nat): int {
    if es == [] then start
    else if es[|es| - 1] == Lookup(c) then Clock(start, es[..|es| - 1])
    else LookedUpAt(start, es[..|es| - 1], c)
  }

  function Prunes(es: seq<Event>, slot: Slot): nat {
    if es == [] then 0
    else
      Prunes(es[..|es| - 1], slot) +
      match es[|es| - 1]
      case Prune(slot', _) => if slot' == slot then 1 else 0
      case _ => 0
  }

  /** Each mutation that committed: whose, for which request, with what answer, and when. */
  function Stores(start: int, es: seq<Event>): seq<Commit> {
    if es == [] then []
    else
      var before := es[..|es| - 1];
      Stores(start, before) +
      match es[|es| - 1]
      case Store(c, response) =>
        var (slot, hash) := ArrivedAs(before, c);
        [Commit(slot, hash, response, c, Prunes(before, slot), LookedUpAt(start, before, c), Clock(start, before))]
      case _ => []
  }

  /** The state keeps what the events say of the clock, the prunings, the calls and the commits. */
  ghost predicate Recorded(start: int, es: seq<Event>, s: State) {
    && s.now == Clock(start, es) && s.log == Stores(start, es)
    && (forall slot :: Epoch(s, slot) == Prunes(es, slot))
    && (forall c :: c in s.calls ==> (s.calls[c].slot, s.calls[c].hash) == ArrivedAs(es, c))
    && (forall c :: Executes(s, c) ==> s.calls[c].phase.since == LookedUpAt(start, es, c))
  }

  lemma Snoc(es: seq<Event>, ev: Event)
    ensures (es + [ev])[..|es + [ev]| - 1] == es && (es + [ev])[|es + [ev]| - 1] == ev
  {
  }

  lemma ClockSnoc(start: int, es: seq<Event>, ev: Event, c: nat, slot: Slot)
    ensures Clock(start, es + [ev]) == if ev.Tick? then ev.now else Clock(start, es)
    ensures ArrivedAs(es + [ev], c) == if ev.Arrive? && ev.c == c then (ev.slot, ev.hash) else ArrivedAs(es, c)
    ensures LookedUpAt(start, es + [ev], c) == if ev == Lookup(c) then Clock(start, es) else LookedUpAt(start, es, c)
    ensures Prunes(es + [ev], slot) == Prunes(es, slot) + if ev.Prune? && ev.slot == slot then 1 else 0
  {
    Snoc(es, ev);
  }

  lemma StoresSnoc(start: int, es: seq<Event>, ev: Event)
    ensures Stores(start, es + [ev])
         == Stores(start, es) +
            if ev.Store? then
              var (slot, hash) := ArrivedAs(es, ev.c);
              [Commit(slot, hash, ev.response, ev.c, Prunes(es, slot), LookedUpAt(start, es, ev.c), Clock(start, es))]
            else []
  {
    hide Clock, ArrivedAs, LookedUpAt, Prunes;
    Snoc(es, ev);
  }

  lemma RecordedStep(start: int, es: seq<Event>, s: State, ev: Event)
    requires Enabled(s, ev) && Recorded(start, es, s)
    ensures Recorded(start, es + [ev], Step(s, ev))
  {
    hide Clock, ArrivedAs, LookedUpAt, Prunes, Stores, Find;
    var s' := Step(s, ev);
    LogStep(start, es, s, ev);
    ClockSnoc(start, es, ev, 0, Slot("", "", ""));
    forall slot
      ensures Epoch(s', slot) == Prunes(es + [ev], slot)
    {
      ClockSnoc(start, es, ev, 0, slot);
    }
    forall c | c in s'.calls
      ensures (s'.calls[c].slot, s'.calls[c].hash) == ArrivedAs(es + [ev], c)
      ensures Executes(s', c) ==> s'.calls[c].phase.since == LookedUpAt(start, es + [ev], c)
    {
      ClockSnoc(start, es, ev, c, Slot("", "", ""));
    }
  }

  lemma LogStep(start: int, es: seq<Event>, s: State, ev: Event)
    requires Enabled(s, ev) && Recorded(start, es, s)
    ensures Step(s, ev).log == Stores(start, es + [ev])
  {
    hide Clock, ArrivedAs, LookedUpAt, Prunes, Stores, Find, Epoch;
    StoresSnoc(start, es, ev);
    if ev.Store? {
      assert Executes(s, ev.c) && Epoch(s, s.calls[ev.c].slot) == Prunes(es, s.calls[ev.c].slot);
    }
  }

  lemma {:induction false} TraceInit(s: State, es: seq<Event>)
    requires Trace(s, es) && es != []
    ensures var before, ev := es[..|es| - 1], es[|es| - 1];
            Trace(s, before) && Enabled(After(s, before), ev) && After(s, es) == Step(After(s, before), ev)
    decreases |es|
  {
    hide Enabled, Step;
    if |es| == 1 {
      assert es[..0] == [] && es[1..] == [];
      assert After(s, es) == After(Step(s, es[0]), []);
    } else {
      TraceInit(Step(s, es[0]), es[1..]);
      assert es[1..][..|es[1..]| - 1] == es[..|es| - 1][1..];
    }
  }

  lemma {:induction false} RecordedRun(s: State, es: seq<Event>)
    requires Start(s) && Trace(s, es)
    ensures Recorded(s.now, es, After(s, es))
    decreases |es|
  {
    hide Enabled, Step, Trace, Recorded;
    if es == [] {
      NothingRecorded(s);
    } else {
      var before, ev := es[..|es| - 1], es[|es| - 1];
      TraceInit(s, es);
      RecordedRun(s, before);
      RecordedStep(s.now, before, After(s, before), ev);
      assert before + [ev] == es;
    }
  }

  lemma NothingRecorded(s: State)
    requires Start(s)
    ensures Recorded(s.now, [], s)
  {
  }

  /**
   Read off the events alone: of two mutations stored for one (key, user, endpoint), the key was
   pruned in between, and the later one was stored more than a day after the earlier began.
   */
  lemma StoresAreADayApart(s: State, es: seq<Event>, i: nat, j: nat)
    requires Start(s) && Trace(s, es) && i < j < |Stores(s.now, es)|
    requires Stores(s.now, es)[i].slot == Stores(s.now, es)[j].slot
    ensures Stores(s.now, es)[i].epoch < Stores(s.now, es)[j].epoch
    ensures Stores(s.now, es)[j].at > Stores(s.now, es)[i].createdAt + 24 * 60 * 60 * 1000
    ensures After(s, es).log == Stores(s.now, es)
  {
    hide Enabled, Step, Start, Trace, After;
    RecordedRun(s, es);
    AtMostOnce(s, es, i, j);
  }

  // ---------- crashes ----------

  lemma OneMore(s: State, ev: Event, es: seq<Event>)
    requires Enabled(s, ev) && Trace(Step(s, ev), es)
    ensures Trace(s, [ev] + es) && After(s, [ev] + es) == After(Step(s, ev), es)
  {
    hide Enabled, Step;
    assert ([ev] + es)[1..] == es;
  }

  /** From any state on, any time may pass and every call may crash, and what is stored stays. */
  lemma {:induction false} AllMayCrash(s: State, now: int)
    requires s.now <= now
    ensures exists es :: Trace(s, es) && After(s, es) == s.(calls := map[], now := now)
    decreases |s.calls|
  {
    hide Trace, After;
    if s.calls == map[] {
      ReachSelf(Step(s, Tick(now)));
      var es :| Trace(Step(s, Tick(now)), es) && After(Step(s, Tick(now)), es) == Step(s, Tick(now));
      OneMore(s, Tick(now), es);
    } else {
      var c :| c in s.calls;
      var next := Step(s, Crash(c));
      assert next == s.(calls := s.calls - {c}) && s.calls == (s.calls - {c})[c := s.calls[c]];
      AllMayCrash(next, now);
      var es :| Trace(next, es) && After(next, es) == next.(calls := map[], now := now);
      OneMore(s, Crash(c), es);
    }
  }
}
