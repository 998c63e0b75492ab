/**
 The client half of the idempotency protocol (apps/mobile/src/api/idempotency.ts and the submit
 handler of apps/mobile/src/expenses/AddExpenseScreen.tsx), run against the server's half.
 */
module ClientKeys {
  import opened Text
  import Idempotency

  /** A key bound to the serialised body of the request it names. */
  datatype PendingRequest = PendingRequest(key: string, body: string)

  /** bindIdempotencyKey; `minted` is what `mint` would return. */
  function Bind(pending: Option<PendingRequest>, body: string, minted: string): PendingRequest {
    if pending.Some? && pending.value.body == body then pending.value else PendingRequest(minted, body)
  }

  /**
   One person's form and the server.  `inFlight` is the call the form waits for (its busy
   flag).  History: `bound`, the keys minted so far with their bodies, and `sent`, what each call
   carried.  `hash` is what the server makes of a body.
   */
  datatype World = World(
    user: string, endpoint: string, hash: string -> string,
    pending: Option<PendingRequest>, inFlight: Option<nat>, server: Idempotency.State,
    bound: seq<PendingRequest>, sent: map<nat, PendingRequest>)

  datatype Event =
    | Submit(body: string, minted: string, c: nat)
    | Added
    | Conflicted
    | OtherError
    | Remount
    | Server(ev: Idempotency.Event)

  /** Keys are random UUIDs: a minted key is new. */
  predicate NewKey(w: World, key: string) {
    forall i :: 0 <= i < |w.bound| ==> w.bound[i].key != key
  }

  /** Server-side steps, and the calls of other people. */
  predicate Elsewhere(w: World, ev: Idempotency.Event) {
    ev.Arrive? ==> ev.slot.user != w.user && ev.c !in w.sent
  }

  function Arrival(w: World, body: string, minted: string, c: nat): Idempotency.Event {
    Idempotency.Arrive(c, Idempotency.Slot(Bind(w.pending, body, minted).key, w.user, w.endpoint), w.hash(body))
  }

  predicate Waits(w: World, c: nat) {
    w.inFlight == Some(c) && c in w.server.calls && w.server.calls[c].phase.Done?
  }

  predicate Enabled(w: World, ev: Event) {
    match ev
    case Submit(body, minted, c) =>
      w.inFlight.None? && NewKey(w, minted) && c !in w.sent
        && Idempotency.Enabled(w.server, Arrival(w, body, minted, c))
    case Added => w.inFlight.Some? && Waits(w, w.inFlight.value)
      && w.server.calls[w.inFlight.value].phase.outcome.Replied?
    case Conflicted => w.inFlight.Some? && Waits(w, w.inFlight.value)
      && w.server.calls[w.inFlight.value].phase.outcome.Conflict?
    case OtherError => w.inFlight.Some? // a refusal, or the response was lost
    case Remount => true
    case Server(e) => Elsewhere(w, e) && Idempotency.Enabled(w.server, e)
  }

  function Step(w: World, ev: Event): World
    requires Enabled(w, ev)
  {
    match ev
    case Submit(body, minted, c) =>
      var pending := Bind(w.pending, body, minted);
      w.(pending := Some(pending), inFlight := Some(c), sent := w.sent[c := pending],
         server := Idempotency.Step(w.server, Arrival(w, body, minted, c)),
         bound := if w.pending == Some(pending) then w.bound else w.bound + [pending])
    case Added => w.(pending := None, inFlight := None)
    case Conflicted => w.(pending := None, inFlight := None)
    case OtherError => w.(inFlight := None)
    case Remount => w.(pending := None, inFlight := None)
    case Server(e) => w.(server := Idempotency.Step(w.server, e))
  }

  predicate Start(w: World) {
    Idempotency.Start(w.server) && w.pending.None? && w.inFlight.None? && w.bound == [] && w.sent == map[]
  }

  predicate Trace(w: World, es: seq<Event>)
    decreases |es|
  {
    es == [] || (Enabled(w, es[0]) && Trace(Step(w, es[0]), es[1..]))
  }

  function After(w: World, es: seq<Event>): World
    requires Trace(w, es)
    decreases |es|
  {
    if es == [] then w else After(Step(w, es[0]), es[1..])
  }

  // ---------- one body per key ----------

  predicate Named(w: World, key: string, hash: string) {
    exists i :: 0 <= i < |w.bound| && w.bound[i].key == key && w.hash(w.bound[i].body) == hash
  }

  predicate DistinctKeys(bound: seq<PendingRequest>) {
    forall i, j :: 0 <= i < j < |bound| ==> bound[i].key != bound[j].key
  }

  ghost predicate Inv(w: World) {
    && Idempotency.Inv(w.server) && DistinctKeys(w.bound)
    && (w.pending.Some? ==> |w.bound| > 0 && w.bound[|w.bound| - 1] == w.pending.value)
    && (forall c :: c in w.server.calls && w.server.calls[c].slot.user == w.user ==>
          Named(w, w.server.calls[c].slot.key, w.server.calls[c].hash))
    && (forall i :: 0 <= i < |w.server.log| && w.server.log[i].slot.user == w.user ==>
          Named(w, w.server.log[i].slot.key, w.server.log[i].hash))
  }

  function SlotOf(w: World, request: PendingRequest): Idempotency.Slot {
    Idempotency.Slot(request.key, w.user, w.endpoint)
  }

  /** Each call of the form is still what it was sent as, on the server and in its log. */
  ghost predicate Delivered(w: World) {
    && (forall c :: c in w.sent && c in w.server.calls ==> w.server.calls[c].slot == SlotOf(w, w.sent[c]))
    && (forall i :: 0 <= i < |w.server.log| && w.server.log[i].caller in w.sent ==>
          w.server.log[i].slot == SlotOf(w, w.sent[w.server.log[i].caller]))
  }

  lemma NamedOnce(w: World, key: string, a: string, b: string)
    requires DistinctKeys(w.bound) && Named(w, key, a) && Named(w, key, b)
    ensures a == b
  {
    var i :| 0 <= i < |w.bound| && w.bound[i].key == key && w.hash(w.bound[i].body) == a;
    var j :| 0 <= j < |w.bound| && w.bound[j].key == key && w.hash(w.bound[j].body) == b;
    KeyOnce(w.bound, i, j);
  }

  lemma KeyOnce(bound: seq<PendingRequest>, i: nat, j: nat)
    requires DistinctKeys(bound) && i < |bound| && j < |bound| && bound[i].key == bound[j].key
    ensures i == j
  {
  }

  lemma NamedGrows(w: World, w': World, key: string, hash: string)
    requires Named(w, key, hash) && w'.hash == w.hash && |w.bound| <= |w'.bound| && w'.bound[..|w.bound|] == w.bound
    ensures Named(w', key, hash)
  {
    var i :| 0 <= i < |w.bound| && w.bound[i].key == key && w.hash(w.bound[i].body) == hash;
    assert w'.bound[i] == w.bound[i];
  }

  lemma SubmitKeeps(w: World, body: string, minted: string, c: nat)
    requires Inv(w) && Enabled(w, Submit(body, minted, c))
    ensures Inv(Step(w, Submit(body, minted, c)))
  {
    hide Idempotency.Inv, Named, Idempotency.Enabled;
    var w' := Step(w, Submit(body, minted, c));
    ArrivalStep(w, body, minted, c);
    assert Named(w', Bind(w.pending, body, minted).key, w.hash(body)) by { BindNamed(w, body, minted, c); }
    forall key, hash | Named(w, key, hash)
      ensures Named(w', key, hash)
    {
      NamedGrows(w, w', key, hash);
    }
  }

  lemma ArrivalStep(w: World, body: string, minted: string, c: nat)
    requires Idempotency.Inv(w.server) && Idempotency.Enabled(w.server, Arrival(w, body, minted, c))
    ensures var s' := Idempotency.Step(w.server, Arrival(w, body, minted, c));
            && Idempotency.Inv(s') && s'.log == w.server.log
            && s'.calls == w.server.calls[c := Idempotency.Caller(Idempotency.Slot(Bind(w.pending, body, minted).key,
               w.user, w.endpoint),
                                                                 w.hash(body), Idempotency.Arrived)]
  {
    hide Idempotency.Inv;
    Idempotency.InvStep(w.server, Arrival(w, body, minted, c));
  }

  lemma BindNamed(w: World, body: string, minted: string, c: nat)
    requires Inv(w) && Enabled(w, Submit(body, minted, c))
    ensures Named(Step(w, Submit(body, minted, c)), Bind(w.pending, body, minted).key, w.hash(body))
  {
    hide Idempotency.Inv, Idempotency.Step, Idempotency.Enabled;
    var w' := Step(w, Submit(body, minted, c));
    assert w'.bound[|w'.bound| - 1] == Bind(w.pending, body, minted);
  }

  lemma ServerStep(s: Idempotency.State, e: Idempotency.Event)
    requires Idempotency.Enabled(s, e)
    ensures var s' := Idempotency.Step(s, e);
            && (forall c :: c in s'.calls && (e.Arrive? ==> c != e.c) ==>
                  c in s.calls && s'.calls[c].slot == s.calls[c].slot && s'.calls[c].hash == s.calls[c].hash)
            && (e.Arrive? ==> s'.calls[e.c].slot == e.slot)
            && |s'.log| >= |s.log| && s'.log[..|s.log|] == s.log
            && (forall i :: |s.log| <= i < |s'.log| ==>
                  s'.log[i].caller in s.calls && s'.log[i].slot == s.calls[s'.log[i].caller].slot
                  && s'.log[i].hash == s.calls[s'.log[i].caller].hash)
  {
    hide Idempotency.Find;
    var s' := Idempotency.Step(s, e);
    if e.Store? {
      assert s'.log[|s.log|].slot == s.calls[e.c].slot && s'.log[|s.log|].hash == s.calls[e.c].hash;
    }
  }

  lemma ServerKeeps(w: World, e: Idempotency.Event)
    requires Inv(w) && Enabled(w, Server(e))
    ensures Inv(Step(w, Server(e)))
  {
    hide Idempotency.Inv, Named, Idempotency.Enabled, Idempotency.Step;
    Idempotency.InvStep(w.server, e);
    ServerStep(w.server, e);
    var w' := Step(w, Server(e));
    forall key, hash | Named(w, key, hash)
      ensures Named(w', key, hash)
    {
      NamedGrows(w, w', key, hash);
    }
    forall i | 0 <= i < |w'.server.log| && w'.server.log[i].slot.user == w.user
      ensures Named(w', w'.server.log[i].slot.key, w'.server.log[i].hash)
    {
      if i < |w.server.log| { assert w'.server.log[i] == w.server.log[i]; }
    }
  }

  lemma InvStep(w: World, ev: Event)
    requires Inv(w) && Enabled(w, ev)
    ensures Inv(Step(w, ev))
  {
    hide Idempotency.Inv, Idempotency.Enabled, Idempotency.Step;
    match ev
    case Submit(body, minted, c) => SubmitKeeps(w, body, minted, c);
    case Server(e) => ServerKeeps(w, e);
    case _ =>
  }

  lemma {:induction false} InvRun(w: World, es: seq<Event>)
    requires Inv(w) && Trace(w, es)
    ensures Inv(After(w, es))
    decreases |es|
  {
    hide Inv, Enabled, Step;
    if es != [] {
      InvStep(w, es[0]);
      InvRun(Step(w, es[0]), es[1..]);
    }
  }

  lemma InvStart(w: World)
    requires Start(w)
    ensures Inv(w)
  {
    Idempotency.InvStart(w.server);
  }

  // ---------- no conflict of its own ----------

  /** The form never causes its own conflict, whatever is lost and however the server interleaves. */
  lemma NoSelfConflict(w: World, es: seq<Event>, c: nat)
    requires Start(w) && Trace(w, es)
    requires var s := After(w, es).server;
             c in s.calls && s.calls[c].slot.user == After(w, es).user && s.calls[c].phase.Done?
    ensures !After(w, es).server.calls[c].phase.outcome.Conflict?
  {
    hide Enabled, Step, Start, Named;
    InvStart(w);
    InvRun(w, es);
    ConflictNeedsTwo(After(w, es), c);
  }

  lemma ConflictNeedsTwo(w: World, c: nat)
    requires Inv(w) && c in w.server.calls && w.server.calls[c].slot.user == w.user && w.server.calls[c].phase.Done?
    ensures !w.server.calls[c].phase.outcome.Conflict?
  {
    hide Named, Idempotency.Behind, Idempotency.LogOk, Idempotency.CallOk, Idempotency.Ordered;
    var s, call := w.server, w.server.calls[c];
    assert Idempotency.Rests(s.log, call);
    if call.phase.outcome.Conflict? {
      var i :| 0 <= i < |s.log| && s.log[i].slot == call.slot && s.log[i].epoch == call.phase.epoch
        && s.log[i].hash != call.hash;
      NamedOnce(w, call.slot.key, s.log[i].hash, call.hash);
    }
  }

  // ---------- a run of unchanged submits ----------

  /** What happens within a run: submits of one body, errors and lost responses, and anything on the server. */
  predicate Continues(body: string, ev: Event) {
    match ev
    case Submit(b, _, _) => b == body
    case OtherError => true
    case Server(_) => true
    case _ => false
  }

  /** The calls a sequence of events submits. */
  function Calls(es: seq<Event>): set<nat> {
    set ev | ev in es && ev.Submit? :: ev.c
  }

  lemma ContinueStep(w: World, ev: Event, request: PendingRequest)
    requires Enabled(w, ev) && Continues(request.body, ev) && w.pending == Some(request)
    ensures Step(w, ev).pending == Some(request) && Step(w, ev).bound == w.bound
    ensures Step(w, ev).sent == if ev.Submit? then w.sent[ev.c := request] else w.sent
    ensures ev.Submit? ==> ev.c !in w.sent
  {
    hide Idempotency.Enabled, Idempotency.Step;
  }

  lemma SentStays(w: World, ev: Event)
    requires Enabled(w, ev)
    ensures Step(w, ev).user == w.user && Step(w, ev).endpoint == w.endpoint
    ensures forall c :: c in w.sent ==> c in Step(w, ev).sent && Step(w, ev).sent[c] == w.sent[c]
  {
    hide Idempotency.Enabled, Idempotency.Step;
  }

  lemma {:induction false} SentForGood(w: World, es: seq<Event>)
    requires Trace(w, es)
    ensures After(w, es).user == w.user && After(w, es).endpoint == w.endpoint
    ensures forall c :: c in w.sent ==> c in After(w, es).sent && After(w, es).sent[c] == w.sent[c]
    decreases |es|
  {
    hide Enabled, Step;
    if es != [] {
      SentStays(w, es[0]);
      SentForGood(Step(w, es[0]), es[1..]);
    }
  }

  /** Through a run the form keeps its one key, and every call of the run carries it. */
  lemma {:induction false} RunKeepsKey(w: World, es: seq<Event>, request: PendingRequest)
    requires Trace(w, es) && w.pending == Some(request) && forall ev :: ev in es ==> Continues(request.body, ev)
    ensures After(w, es).pending == Some(request) && After(w, es).bound == w.bound
    ensures forall c :: c in Calls(es) ==> c in After(w, es).sent && After(w, es).sent[c] == request
    decreases |es|
  {
    hide Enabled, Step, Continues;
    if es != [] {
      assert es == [es[0]] + es[1..];
      ContinueStep(w, es[0], request);
      RunKeepsKey(Step(w, es[0]), es[1..], request);
      SentForGood(Step(w, es[0]), es[1..]);
    }
  }

  /** A submit after such a run keeps the key if and only if the body is unchanged. */
  lemma RetryKeepsKeyIff(w: World, es: seq<Event>, request: PendingRequest, body: string, minted: string)
    requires Inv(w) && w.pending == Some(request)
    requires Trace(w, es) && forall ev :: ev in es ==> Continues(request.body, ev)
    requires NewKey(After(w, es), minted)
    ensures Bind(After(w, es).pending, body, minted).key == request.key <==> body == request.body
  {
    hide Idempotency.Inv, Enabled, Step, Continues;
    RunKeepsKey(w, es, request);
    assert w.bound[|w.bound| - 1] == request;
  }

  lemma {:induction false} NothingPending(w: World, es: seq<Event>)
    requires Trace(w, es) && w.pending.None? && forall ev :: ev in es ==> !ev.Submit?
    ensures After(w, es).pending.None?
    decreases |es|
  {
    hide Idempotency.Enabled, Idempotency.Step;
    if es != [] {
      assert es[0] in es;
      NothingPending(Step(w, es[0]), es[1..]);
    }
  }

  /**
   Once an expense was added, or the form remounted, or a conflict answered, the next submit, even
   of the same body, goes out under its own new key, whatever happens on the server in between.
   */
  lemma DoneRekeys(w: World, ev: Event, es: seq<Event>, body: string, minted: string, c: nat)
    requires Enabled(w, ev) && (ev.Added? || ev.Conflicted? || ev.Remount?)
    requires Trace(Step(w, ev), es) && forall e :: e in es ==> !e.Submit?
    requires Enabled(After(Step(w, ev), es), Submit(body, minted, c))
    ensures var sent := Step(After(Step(w, ev), es), Submit(body, minted, c)).sent;
            c in sent && sent[c] == PendingRequest(minted, body)
  {
    hide Idempotency.Enabled, Idempotency.Step, Trace, After;
    NothingPending(Step(w, ev), es);
    SubmitOpens(After(Step(w, ev), es), body, minted, c);
  }

  lemma DeliveredStep(w: World, ev: Event)
    requires Delivered(w) && Enabled(w, ev)
    ensures Delivered(Step(w, ev))
  {
    hide Idempotency.Inv, Idempotency.Enabled, Idempotency.Step;
    match ev
    case Submit(body, minted, c) => ArrivalFacts(w, body, minted, c);
    case Server(e) => DeliveredServer(w, e);
    case _ =>
  }

  /** An arrival adds its call; no logged commit is of that call. */
  lemma ArrivalFacts(w: World, body: string, minted: string, c: nat)
    requires Idempotency.Enabled(w.server, Arrival(w, body, minted, c))
    ensures var s' := Idempotency.Step(w.server, Arrival(w, body, minted, c));
            && s'.log == w.server.log && c in s'.calls && s'.calls[c].slot == SlotOf(w, Bind(w.pending, body, minted))
            && (forall d :: d in s'.calls && d != c ==> d in w.server.calls && s'.calls[d] == w.server.calls[d])
            && forall i :: 0 <= i < |s'.log| ==> s'.log[i].caller != c
  {
  }

  lemma DeliveredServer(w: World, e: Idempotency.Event)
    requires Delivered(w) && Enabled(w, Server(e))
    ensures Delivered(Step(w, Server(e)))
  {
    hide Idempotency.Enabled, Idempotency.Step;
    ServerStep(w.server, e);
    var s, s' := w.server, Idempotency.Step(w.server, e);
    forall i | 0 <= i < |s'.log| && s'.log[i].caller in w.sent
      ensures s'.log[i].slot == SlotOf(w, w.sent[s'.log[i].caller])
    {
      if i < |s.log| { assert s'.log[i] == s.log[i]; }
    }
  }

  lemma {:induction false} DeliveredRun(w: World, es: seq<Event>)
    requires Delivered(w) && Trace(w, es)
    ensures Delivered(After(w, es))
    decreases |es|
  {
    hide Delivered, Enabled, Step;
    if es != [] {
      DeliveredStep(w, es[0]);
      DeliveredRun(Step(w, es[0]), es[1..]);
    }
  }

  lemma DeliveredStart(w: World)
    requires Start(w)
    ensures Delivered(w)
  {
  }

  // ---------- end to end ----------

  lemma {:induction false} Split(w: World, a: seq<Event>, b: seq<Event>)
    requires Trace(w, a + b)
    ensures Trace(w, a) && Trace(After(w, a), b) && After(w, a + b) == After(After(w, a), b)
    decreases |a|
  {
    hide Enabled, Step;
    if a == [] {
      assert a + b == b;
    } else {
      assert (a + b)[1..] == a[1..] + b && (a + b)[0] == a[0];
      Split(Step(w, a[0]), a[1..], b);
    }
  }

  /**
   The calls of a run: from the submit that opens it, at any point of any trace, through retries
   of the unchanged form, whichever responses are lost, all carry one key; and afterwards,
   whatever else happens, at most one of them has committed while that key is retained, and two
   commits are more than a day apart.
   */
  lemma OneExpensePerRun(w: World, before: seq<Event>, submit: Event, run: seq<Event>, after: seq<Event>, i: nat,
                         j: nat)
    requires Start(w) && submit.Submit? && Trace(w, before + ([submit] + (run + after)))
    requires forall ev :: ev in run ==> Continues(submit.body, ev)
    requires var log := After(w, before + ([submit] + (run + after))).server.log;
             i < j < |log| && log[i].caller in Calls(run) + {submit.c} && log[j].caller in Calls(run) + {submit.c}
    ensures var server := After(w, before + ([submit] + (run + after))).server;
            && server.log[i].slot == server.log[j].slot
            && server.log[j].at > server.log[i].createdAt + Idempotency.DAY_MS
            && server.log[i].epoch < server.log[j].epoch <= Idempotency.Epoch(server, server.log[i].slot)
  {
    hide Enabled, Step, Trace, After, Start, Continues, Inv, Delivered, Calls;
    Split(w, before, [submit] + (run + after));
    var opens := After(w, before);
    OneStep(opens, submit, run + after);
    var first := Step(opens, submit);
    Split(first, run, after);
    var request := Bind(opens.pending, submit.body, submit.minted);
    SubmitOpens(opens, submit.body, submit.minted, submit.c);
    RunKeepsKey(first, run, request);
    SentForGood(first, run);
    SentForGood(After(first, run), after);
    InvStart(w);
    DeliveredStart(w);
    InvRun(w, before + ([submit] + (run + after)));
    DeliveredRun(w, before + ([submit] + (run + after)));
    CommitsOfOneKey(After(w, before + ([submit] + (run + after))), request, i, j);
  }

  lemma OneStep(w: World, ev: Event, es: seq<Event>)
    requires Trace(w, [ev] + es)
    ensures Enabled(w, ev) && Trace(Step(w, ev), es) && After(w, [ev] + es) == After(Step(w, ev), es)
  {
    hide Enabled, Step;
    assert ([ev] + es)[1..] == es;
  }

  lemma SubmitOpens(w: World, body: string, minted: string, c: nat)
    requires Enabled(w, Submit(body, minted, c))
    ensures var first := Step(w, Submit(body, minted, c));
            var request := Bind(w.pending, body, minted);
            first.pending == Some(request) && request.body == body && c in first.sent && first.sent[c] == request
  {
    hide Idempotency.Enabled, Idempotency.Step;
  }

  /** Two commits of calls that carried one request. */
  lemma CommitsOfOneKey(w: World, request: PendingRequest, i: nat, j: nat)
    requires Inv(w) && Delivered(w) && i < j < |w.server.log|
    requires w.server.log[i].caller in w.sent && w.sent[w.server.log[i].caller] == request
    requires w.server.log[j].caller in w.sent && w.sent[w.server.log[j].caller] == request
    ensures var log := w.server.log;
            && log[i].slot == log[j].slot && log[j].at > log[i].createdAt + Idempotency.DAY_MS
            && log[i].epoch < log[j].epoch <= Idempotency.Epoch(w.server, log[i].slot)
  {
    hide Named, Idempotency.Behind, Idempotency.CallOk, Idempotency.Rests;
    assert Idempotency.LogOk(w.server, w.server.log[j]);
  }

  // ---------- what the form can always do ----------

  /**
   Whenever the form waits, its response may be lost and the unchanged form be sent again under the
   same key; a form that is mounted anew sends it under a new one.
   */
  lemma LostAndSentAgain(w: World, request: PendingRequest, minted: string, c: nat)
    requires w.inFlight.Some? && w.pending == Some(request) && NewKey(w, minted) && c !in w.sent
    requires Idempotency.NewCaller(w.server, c)
    ensures var es := [OtherError] + ([Submit(request.body, minted, c)] + []);
            && Trace(w, es) && c in After(w, es).sent && After(w, es).sent[c] == request
            && After(w, es).bound == w.bound
    ensures var es := [Remount] + ([Submit(request.body, minted, c)] + []);
            && Trace(w, es) && c in After(w, es).sent && After(w, es).sent[c] == PendingRequest(minted, request.body)
  {
    hide Trace, After;
    var submit := Submit(request.body, minted, c);
    var w1, w2 := Step(w, OtherError), Step(w, Remount);
    Ended(Step(w1, submit));
    OneMore(w1, submit, []);
    OneMore(w, OtherError, [submit] + []);
    Ended(Step(w2, submit));
    OneMore(w2, submit, []);
    OneMore(w, Remount, [submit] + []);
  }

  /** A submit of an idle form with nothing pending, met by nobody, commits one expense and leaves a clean form. */
  lemma UndisturbedSubmit(w: World, body: string, minted: string, c: nat, response: Idempotency.Response)
    requires w.inFlight.None? && w.pending.None? && NewKey(w, minted) && c !in w.sent
    requires Idempotency.NewCaller(w.server, c)
    requires Idempotency.Slot(minted, w.user, w.endpoint) !in w.server.table
    ensures var es := [Submit(body, minted, c), Server(Idempotency.Lookup(c)), Server(Idempotency.Store(c, response)),
                       Added];
            && Trace(w, es) && After(w, es).pending.None? && After(w, es).inFlight.None?
            && |After(w, es).server.log| == |w.server.log| + 1
            && After(w, es).server.log[|w.server.log|].slot == Idempotency.Slot(minted, w.user, w.endpoint)
            && After(w, es).server.log[|w.server.log|].hash == w.hash(body)
  {
    hide Trace, After, NewKey, Idempotency.Epoch;
    var a, b, d := Submit(body, minted, c), Server(Idempotency.Lookup(c)), Server(Idempotency.Store(c, response));
    var w1 := Step(w, a);
    var w2 := Step(w1, b);
    var w3 := Step(w2, d);
    assert [Added] + [] == [Added] && [d] + [Added] == [d, Added];
    assert [b] + [d, Added] == [b, d, Added] && [a] + [b, d, Added] == [a, b, d, Added];
    Ended(Step(w3, Added));
    OneMore(w3, Added, []);
    OneMore(w2, d, [Added]);
    OneMore(w1, b, [d, Added]);
    OneMore(w, a, [b, d, Added]);
  }

  lemma Ended(w: World)
    ensures Trace(w, []) && After(w, []) == w
  {
  }

  lemma OneMore(w: World, ev: Event, es: seq<Event>)
    requires Enabled(w, ev) && Trace(Step(w, ev), es)
    ensures Trace(w, [ev] + es) && After(w, [ev] + es) == After(Step(w, ev), es)
  {
    hide Enabled, Step;
    assert ([ev] + es)[1..] == es;
  }
}
