/**
 Payments, disputes and resolutions (recordPayment, disputePayment and resolvePayment in
 apps/api/src/ledger/ledger.service.ts; lockActingMember in packages/ledger/src/posting.ts).
 */
module Payments {
  import opened Text
  import opened Sums
  import opened Splits
  import opened Balances

  /** DISPUTE_WINDOW_MS: 72 hours. */
  const DISPUTE_WINDOW_MS := 259200000

  datatype Payment = Payment(
    fromUser: UserId, toUser: UserId, amountCents: int, currency: string, status: Status, createdAt: int)

  datatype Kind = Dispute | Resolve

  datatype Refusal =
    | ToYourself | OtherCurrency | RecipientInactive | RecipientPlaceholder
    | NotFound | NotRecipient | NotOpen | WindowClosed

  /** A `payment.disputed` or `payment.resolved` event. */
  datatype Moved = Moved(payment: nat, kind: Kind, who: UserId, at: int)

  function Before(kind: Kind): Status {
    if kind.Dispute? then Recorded else Disputed
  }

  function Next(kind: Kind): Status {
    if kind.Dispute? then Disputed else Resolved
  }

  type Table = map<nat, Payment>

  /** What the checks before the update answer. */
  function Answer(payments: Table, active: set<UserId>, kind: Kind, id: nat, user: UserId, now: int): Option<Refusal> {
    if id !in payments || user !in active then Some(NotFound)
    else if payments[id].toUser != user then Some(NotRecipient)
    else if payments[id].status != Before(kind) then Some(NotOpen)
    else if kind.Dispute? && now - payments[id].createdAt > DISPUTE_WINDOW_MS then Some(WindowClosed)
    else None
  }

  /** UPDATE payments SET status WHERE id AND status = the one before. */
  function Updated(payments: Table, kind: Kind, id: nat): Table {
    if id in payments && payments[id].status == Before(kind) then payments[id := payments[id].(status := Next(kind))]
      else payments
  }

  class PaymentStore {
    /** The currency the house keeps its ledger in. */
    const currency: string
    var payments: Table
    /** Active members, and those of them that are placeholders. */
    var active: set<UserId>
    var placeholders: set<UserId>
    var log: seq<Moved>

    constructor (currency: string, active: set<UserId>, placeholders: set<UserId>)
      ensures this.currency == currency && payments == map[] && this.active == active
              && this.placeholders == placeholders && log == []
    {
      this.currency, payments, this.active, this.placeholders, log := currency, map[], active, placeholders, [];
    }

    /** `stated` is the currency of the request, if it has one; the empty text passes. */
    method RecordPayment(id: nat, from: UserId, to: UserId, amountCents: int, stated: Option<string>, now: int)
        returns (r: Result<Payment, Refusal>)
      requires id !in payments
      modifies this`payments
      ensures r.Success? <==>
                to != from && (stated.Some? ==> stated.value in {"", currency}) && to in active && to !in placeholders
      ensures r.Success? ==>
              r.value == Payment(from, to, amountCents, stated.GetOr(currency), Recorded, now)
                && payments == old(payments)[id := r.value]
      ensures r.Failure? ==> payments == old(payments)
    {
      if to == from { return Failure(ToYourself); }
      if stated.Some? && stated.value != "" && stated.value != currency { return Failure(OtherCurrency); }
      if to !in active { return Failure(RecipientInactive); }
      if to in placeholders { return Failure(RecipientPlaceholder); }
      var payment := Payment(from, to, amountCents, stated.GetOr(currency), Recorded, now);
      payments := payments[id := payment];
      return Success(payment);
    }

    /** The recipient alone, within the window, and only a payment still recorded. */
    method DisputePayment(id: nat, user: UserId, now: int) returns (r: Result<Payment, Refusal>)
      modifies this`payments, this`log
      ensures r.Success? <==>
                id in old(payments) && user in active && old(payments)[id].toUser == user
                  && old(payments)[id].status == Recorded
                && now <= old(payments)[id].createdAt + 72 * 60 * 60 * 1000
      ensures r.Success? ==>
              r.value == old(payments)[id].(status := Disputed) && payments == old(payments)[id := r.value]
                             && log == old(log) + [Moved(id, Dispute, user, now)]
      ensures r.Failure? ==> payments == old(payments) && log == old(log)
      ensures Answer(old(payments), active, Dispute, id, user, now) == if r.Success? then None else Some(r.error)
    {
      if id !in payments { return Failure(NotFound); }
      var payment := payments[id];
      if user !in active { return Failure(NotFound); }
      if payment.toUser != user { return Failure(NotRecipient); }
      if payment.status != Recorded { return Failure(NotOpen); }
      if now - payment.createdAt > DISPUTE_WINDOW_MS { return Failure(WindowClosed); }
      payments := Updated(payments, Dispute, id);
      log := log + [Moved(id, Dispute, user, now)];
      return Success(payments[id]);
    }

    /** The recipient alone, at any later time, and only a disputed payment. */
    method ResolvePayment(id: nat, user: UserId, now: int) returns (r: Result<Payment, Refusal>)
      modifies this`payments, this`log
      ensures r.Success? <==>
                id in old(payments) && user in active && old(payments)[id].toUser == user
                  && old(payments)[id].status == Disputed
      ensures r.Success? ==>
              r.value == old(payments)[id].(status := Resolved) && payments == old(payments)[id := r.value]
                             && log == old(log) + [Moved(id, Resolve, user, now)]
      ensures r.Failure? ==> payments == old(payments) && log == old(log)
      ensures Answer(old(payments), active, Resolve, id, user, now) == if r.Success? then None else Some(r.error)
    {
      if id !in payments { return Failure(NotFound); }
      var payment := payments[id];
      if user !in active { return Failure(NotFound); }
      if payment.toUser != user { return Failure(NotRecipient); }
      if payment.status != Disputed { return Failure(NotOpen); }
      payments := Updated(payments, Resolve, id);
      log := log + [Moved(id, Resolve, user, now)];
      return Success(payments[id]);
    }
  }

  // ---------- interleavings ----------

  /**
   A transaction that has locked its payment row and passed the checks, at its own clock
   reading.  Without the row lock (`locking` false) only the status in the UPDATE guards it.
   */
  datatype Open = Open(kind: Kind, id: nat, user: UserId, at: int)

  datatype State = State(locking: bool, payments: Table, active: set<UserId>, open: map<nat, Open>, log: seq<Moved>)

  datatype Event =
    | Record(id: nat, from: UserId, to: UserId, amountCents: int, currency: string, now: int)
    | Members(active: set<UserId>)
    | Check(t: nat, kind: Kind, id: nat, user: UserId, now: int)
    | Commit(t: nat)
    | Abort(t: nat)

  predicate Enabled(s: State, ev: Event) {
    match ev
    case Record(id, from, to, _, _, _) => id !in s.payments && from != to && to in s.active
    case Members(_) => true
    case Check(t, kind, id, user, now) =>
      t !in s.open && Answer(s.payments, s.active, kind, id, user, now).None?
      && (s.locking ==> forall t' :: t' in s.open ==> s.open[t'].id != id)
    case Commit(t) => t in s.open
    case Abort(t) => t in s.open
  }

  /** A commit whose UPDATE finds no row answers an error and changes nothing. */
  predicate Hits(s: State, t: nat) {
    t in s.open && s.open[t].id in s.payments && s.payments[s.open[t].id].status == Before(s.open[t].kind)
  }

  function Step(s: State, ev: Event): State
    requires Enabled(s, ev)
  {
    match ev
    case Record(id, from, to, amount, currency, now) =>
      s.(payments := s.payments[id := Payment(from, to, amount, currency, Recorded, now)])
    case Members(active) => s.(active := active)
    case Check(t, kind, id, user, now) => s.(open := s.open[t := Open(kind, id, user, now)])
    case Commit(t) =>
      var o := s.open[t];
      s.(open := s.open - {t}, payments := Updated(s.payments, o.kind, o.id),
         log := if Hits(s, t) then s.log + [Moved(o.id, o.kind, o.user, o.at)] else s.log)
    case Abort(t) => s.(open := s.open - {t})
  }

  predicate Trace(s: State, es: seq<Event>)
    decreases |es|
  {
    es == [] || (Enabled(s, es[0]) && Trace(Step(s, es[0]), es[1..]))
  }

  function After(s: State, es: seq<Event>): State
    requires Trace(s, es)
    decreases |es|
  {
    if es == [] then s else After(Step(s, es[0]), es[1..])
  }

  predicate Start(s: State) {
    s.payments == map[] && s.open == map[] && s.log == []
  }

  /** The moves of one payment, in order. */
  function MovesOf(log: seq<Moved>, id: nat): seq<Kind> {
    if log == [] then []
    else
      var k := |log| - 1;
      MovesOf(log[..k], id) + if log[k].payment == id then [log[k].kind] else []
  }

  lemma MovesSnoc(log: seq<Moved>, m: Moved, id: nat)
    ensures MovesOf(log + [m], id) == MovesOf(log, id) + if m.payment == id then [m.kind] else []
  {
    assert (log + [m])[..|log|] == log;
  }

  /** How a payment gets to a status: every transition once, in order. */
  function Path(status: Status): seq<Kind> {
    match status
    case Recorded => []
    case Disputed => [Dispute]
    case Resolved => [Dispute, Resolve]
  }

  predicate MoveOk(payments: Table, id: nat, kind: Kind, who: UserId, at: int) {
    id in payments && who == payments[id].toUser && (kind.Dispute? ==> at - payments[id].createdAt <= DISPUTE_WINDOW_MS)
  }

  ghost predicate Paths(payments: Table, log: seq<Moved>) {
    forall id :: MovesOf(log, id) == if id in payments then Path(payments[id].status) else []
  }

  ghost predicate Inv(s: State) {
    && Paths(s.payments, s.log)
    && (forall i :: 0 <= i < |s.log| ==> MoveOk(s.payments, s.log[i].payment, s.log[i].kind, s.log[i].who, s.log[i].at))
    && (forall t :: t in s.open ==> MoveOk(s.payments, s.open[t].id, s.open[t].kind, s.open[t].user, s.open[t].at))
    && (s.locking ==> forall t :: t in s.open ==> Hits(s, t))
    && (s.locking ==> forall t, t' :: t in s.open && t' in s.open && t != t' ==> s.open[t].id != s.open[t'].id)
  }

  lemma PathsMove(payments: Table, log: seq<Moved>, o: Open)
    requires Paths(payments, log) && o.id in payments && payments[o.id].status == Before(o.kind)
    ensures Paths(Updated(payments, o.kind, o.id), log + [Moved(o.id, o.kind, o.user, o.at)])
  {
    hide MovesOf;
    forall id { MovesSnoc(log, Moved(o.id, o.kind, o.user, o.at), id); }
  }

  lemma PathsRecord(payments: Table, log: seq<Moved>, id: nat, p: Payment)
    requires Paths(payments, log) && id !in payments && p.status == Recorded
    ensures Paths(payments[id := p], log)
  {
    hide MovesOf;
  }

  lemma CommitKeeps(s: State, t: nat)
    requires Inv(s) && t in s.open
    ensures Inv(Step(s, Commit(t)))
  {
    hide Paths;
    if Hits(s, t) { PathsMove(s.payments, s.log, s.open[t]); }
  }

  lemma InvStep(s: State, ev: Event)
    requires Inv(s) && Enabled(s, ev)
    ensures Inv(Step(s, ev))
  {
    hide Paths;
    match ev
    case Commit(t) => CommitKeeps(s, t);
    case Record(id, from, to, amount, currency, now) =>
      PathsRecord(s.payments, s.log, id, Payment(from, to, amount, currency, Recorded, now));
    case _ =>
  }

  lemma {:induction false} InvRun(s: State, es: seq<Event>)
    requires Inv(s) && Trace(s, es)
    ensures Inv(After(s, es)) && After(s, es).locking == s.locking
    decreases |es|
  {
    hide Inv, Enabled;
    if es != [] {
      InvStep(s, es[0]);
      InvRun(Step(s, es[0]), es[1..]);
    }
  }

  /**
   In every interleaving, with the row lock or without it, the moves a payment has made are
   exactly those that lead to its status: recorded to disputed to resolved, each fired at most
   once, each by the recipient, a dispute within its window.
   */
  lemma EachMoveOnce(s: State, es: seq<Event>, id: nat)
    requires Start(s) && Trace(s, es) && id in After(s, es).payments
    ensures MovesOf(After(s, es).log, id) == Path(After(s, es).payments[id].status)
    ensures forall m :: m in After(s, es).log && m.payment == id ==>
              m.who == After(s, es).payments[id].toUser
              && (m.kind.Dispute? ==> m.at <= After(s, es).payments[id].createdAt + 72 * 60 * 60 * 1000)
  {
    hide Enabled, Step, MovesOf;
    EmptyMoves(s);
    InvRun(s, es);
  }

  lemma EmptyMoves(s: State)
    requires Start(s)
    ensures Inv(s)
  {
  }

  /** Under the row lock the status in the UPDATE never refuses what the check allowed. */
  lemma CheckedCommitHits(s: State, es: seq<Event>, t: nat)
    requires Start(s) && s.locking && Trace(s, es) && t in After(s, es).open
    ensures Hits(After(s, es), t)
  {
    hide Enabled, Step, MovesOf;
    EmptyMoves(s);
    InvRun(s, es);
  }

  function Order(status: Status): nat {
    match status
    case Recorded => 0
    case Disputed => 1
    case Resolved => 2
  }

  lemma StatusStep(s: State, ev: Event, id: nat)
    requires Enabled(s, ev) && id in s.payments
    ensures var s' := Step(s, ev);
            && id in s'.payments && s'.payments[id] == s.payments[id].(status := s'.payments[id].status)
            && Order(s.payments[id].status) <= Order(s'.payments[id].status)
  {
  }

  /** A status never goes back, and nothing else of a payment ever changes. */
  lemma {:induction false} StatusOnlyForward(s: State, es: seq<Event>, id: nat)
    requires Trace(s, es) && id in s.payments
    ensures var s' := After(s, es);
            && id in s'.payments && s'.payments[id] == s.payments[id].(status := s'.payments[id].status)
            && Order(s.payments[id].status) <= Order(s'.payments[id].status)
    decreases |es|
  {
    hide Enabled, Step;
    if es != [] {
      StatusStep(s, es[0], id);
      StatusOnlyForward(Step(s, es[0]), es[1..], id);
    }
  }

  // ---------- the log and the table are what the events say ----------

  /** What the transaction was last let through for. */
  function Checked(es: seq<Event>, t: nat): Option<Moved> {
    if es == [] then None
    else
      match es[|es| - 1]
      case Check(t', kind, id, user, now) =>
        if t' == t then Some(Moved(id, kind, user, now)) else Checked(es[..|es| - 1], t)
      case _ => Checked(es[..|es| - 1], t)
  }

  /** The moves that committed, in order. */
  function Committed(es: seq<Event>): seq<Moved> {
    if es == [] then []
    else
      var before := es[..|es| - 1];
      Committed(before) +
      match es[|es| - 1]
      case Commit(t) => if Checked(before, t).Some? then [Checked(before, t).value] else []
      case _ => []
  }

  ghost predicate Logged(es: seq<Event>, s: State) {
    && s.log == Committed(es)
    && (forall t :: t in s.open ==>
          Checked(es, t) == Some(Moved(s.open[t].id, s.open[t].kind, s.open[t].user, s.open[t].at)))
    && (forall id, from, to, amount, currency, now :: Record(id, from, to, amount, currency, now) in es ==>
          id in s.payments
          && s.payments[id] == Payment(from, to, amount, currency, s.payments[id].status, now))
    && (forall id :: id in s.payments ==>
          Record(id, s.payments[id].fromUser, s.payments[id].toUser, s.payments[id].amountCents,
            s.payments[id].currency, s.payments[id].createdAt) in es)
  }

  lemma Snoc(es: seq<Event>, ev: Event)
    ensures (es + [ev])[..|es + [ev]| - 1] == es && (es + [ev])[|es + [ev]| - 1] == ev
  {
  }

  lemma CheckedSnoc(es: seq<Event>, ev: Event, t: nat)
    ensures Checked(es + [ev], t)
         == if ev.Check? && ev.t == t then Some(Moved(ev.id, ev.kind, ev.user, ev.now)) else Checked(es, t)
  {
    Snoc(es, ev);
  }

  lemma CommittedSnoc(es: seq<Event>, ev: Event)
    ensures Committed(es + [ev])
         == Committed(es) + if ev.Commit? && Checked(es, ev.t).Some? then [Checked(es, ev.t).value] else []
  {
    hide Checked;
    Snoc(es, ev);
  }

  lemma LoggedStep(es: seq<Event>, s: State, ev: Event)
    requires Inv(s) && s.locking && Enabled(s, ev) && Logged(es, s)
    ensures Logged(es + [ev], Step(s, ev))
  {
    hide Checked, Committed, Paths, Answer;
    CommittedSnoc(es, ev);
    forall t | t in Step(s, ev).open { CheckedSnoc(es, ev, t); }
  }

  lemma {:induction false} TraceInit(s: State, es: seq<Event>)
    requires Trace(s, es) && es != []
    ensures var before, ev := es[..|es| - 1], es[|es| - 1];
            Trace(s, before) && Enabled(After(s, before), ev) && After(s, es) == Step(After(s, before), ev)
    decreases |es|
  {
    hide Enabled, Step;
    if |es| == 1 {
      assert es[..0] == [] && es[1..] == [];
      assert After(s, es) == After(Step(s, es[0]), []);
    } else {
      TraceInit(Step(s, es[0]), es[1..]);
      assert es[1..][..|es[1..]| - 1] == es[..|es| - 1][1..];
    }
  }

  lemma {:induction false} LoggedRun(s: State, es: seq<Event>)
    requires Start(s) && s.locking && Trace(s, es)
    ensures Inv(After(s, es)) && After(s, es).locking && Logged(es, After(s, es))
    decreases |es|
  {
    hide Inv, Enabled, Step, Trace, Logged;
    EmptyMoves(s);
    InvRun(s, es);
    if es == [] {
      NothingLogged(s);
    } else {
      var before, ev := es[..|es| - 1], es[|es| - 1];
      TraceInit(s, es);
      LoggedRun(s, before);
      LoggedStep(before, After(s, before), ev);
      assert before + [ev] == es;
    }
  }

  lemma NothingLogged(s: State)
    requires Start(s)
    ensures Logged([], s)
  {
  }

  /**
   Read off the events alone, under the row lock: the payments are those recorded, as recorded,
   and the moves of each that committed are exactly those that lead to its status.
   */
  lemma CommitsAreThePath(s: State, es: seq<Event>, id: nat)
    requires Start(s) && s.locking && Trace(s, es) && id in After(s, es).payments
    ensures MovesOf(Committed(es), id) == Path(After(s, es).payments[id].status)
    ensures var p := After(s, es).payments[id];
            && Record(id, p.fromUser, p.toUser, p.amountCents, p.currency, p.createdAt) in es
            && forall from, to, amount, currency, now :: Record(id, from, to, amount, currency, now) in es ==>
                 p == Payment(from, to, amount, currency, p.status, now)
  {
    hide Enabled, Step, Start, MovesOf, Path, Trace, After, Inv, Committed;
    LoggedRun(s, es);
    EachMoveOnce(s, es, id);
  }

  // ---------- the code is a run of the machine ----------

  lemma OneMore(s: State, ev: Event, es: seq<Event>)
    requires Enabled(s, ev) && Trace(Step(s, ev), es)
    ensures Trace(s, [ev] + es) && After(s, [ev] + es) == After(Step(s, ev), es)
  {
    hide Enabled, Step;
    assert ([ev] + es)[1..] == es;
  }

  lemma NoMore(s: State)
    ensures Trace(s, []) && After(s, []) == s
  {
  }

  /** A dispute or a resolution that the code lets through is a check and a commit of the machine. */
  lemma MoveIsTrace(s: State, active: set<UserId>, t: nat, kind: Kind, id: nat, user: UserId, now: int)
    requires Answer(s.payments, active, kind, id, user, now).None?
    requires forall t' :: t' in s.open ==> t' != t && s.open[t'].id != id
    ensures var es := [Members(active)] + ([Check(t, kind, id, user, now)] + ([Commit(t)] + []));
            && Trace(s, es)
            && After(s, es) == s.(active := active, log := s.log + [Moved(id, kind, user, now)],
                                  payments := s.payments[id := s.payments[id].(status := Next(kind))])
  {
    hide Trace, After;
    var s1 := Step(s, Members(active));
    var s2 := Step(s1, Check(t, kind, id, user, now));
    var s3 := Step(s2, Commit(t));
    assert s2.open - {t} == s.open;
    NoMore(s3);
    OneMore(s2, Commit(t), []);
    OneMore(s1, Check(t, kind, id, user, now), [Commit(t)] + []);
    OneMore(s, Members(active), [Check(t, kind, id, user, now)] + ([Commit(t)] + []));
  }

  /** A payment to a member can be recorded at any time, under an id not used before. */
  lemma RecordIsTrace(s: State, id: nat, from: UserId, to: UserId, amount: int, currency: string, now: int)
    requires id !in s.payments && from != to && to in s.active
    ensures var es := [Record(id, from, to, amount, currency, now)] + [];
            && Trace(s, es)
            && After(s, es)
               == s.(payments := s.payments[id := Payment(from, to, amount, currency, Recorded, now)])
  {
    NoMore(Step(s, Record(id, from, to, amount, currency, now)));
    OneMore(s, Record(id, from, to, amount, currency, now), []);
  }

  /** From any state on, whatever is open may abort, and that leaves payments and log as they are. */
  lemma {:induction false} AllMayAbort(s: State)
    ensures exists es :: Trace(s, es) && After(s, es) == s.(open := map[])
    decreases |s.open|
  {
    hide Trace, After;
    if s.open == map[] {
      NoMore(s);
    } else {
      var t :| t in s.open;
      var next := Step(s, Abort(t));
      assert next == s.(open := s.open - {t}) && s.open == (s.open - {t})[t := s.open[t]];
      AllMayAbort(next);
      var es :| Trace(next, es) && After(next, es) == next.(open := map[]);
      OneMore(s, Abort(t), es);
    }
  }
}
