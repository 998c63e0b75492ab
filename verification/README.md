# HOMI ledger: a verified model

HOMI is a ledger for people who share a house: expenses split over roommates, payments between
them, recurring bills, placeholder roommates who are later claimed by a real person, and rooms
whose weights decide who pays how much rent. This project models the money math and the
transaction protocols around it in Dafny and proves what they keep. `dafny verify dfyconfig.toml`
checks everything.

| files | what they model |
|---|---|
| `Text`, `Calendar`, `Schedule` | string order and decimal text, the proleptic Gregorian calendar of ECMA-262 section 21.4.1 and RFC 3339, due dates, period keys and anchors |
| `Bills`, `BillRuns`, `BillResumes`, `BillWorker`, `BillCatchUp`, `BillPosting` | recurring bills: creating, pausing and resuming templates, the posting protocol as a state machine, resumes under runs in flight, the worker as imperative code, the proof that the code is a run of the machine, and when a bill can post |
| `Sums`, `Splits`, `Rooms`, `Posting` | sums over sets, the split modes, room shares, and what the posting core accepts |
| `Balances`, `BalanceLaws`, `Expenses`, `Payments` | the one balance function with its laws; writing, editing and reading expenses; recording, disputing and resolving payments |
| `Claim` | the SQL statements of a placeholder claim and how they commute with the balance function |
| `ClaimProtocol`, `ClaimLocks`, `ClaimEvents`, `ClaimLedger`, `ClaimHistory`, `ClaimMeetings`, `ClaimAnomalies` | accepts, claims, postings and edits interleaving statement by statement under row locks: what the locks keep, what a run's events alone say of its state, conservation, the append-only history, exactly when two claims of a user lose a share, and runs in which they do |
| `House` | rooms and memberships, and why room-weighted bills keep posting |
| `Idempotency`, `RequestHash`, `Prune`, `ClientKeys` | the idempotency protocol on the server, request identity, key pruning, and the form that mints the keys |
| `Pagination`, `RateLimiter`, `Amount` | keyset pages over two merged sources, the fixed-window limiter, the amount parser and printer |

Code that changes state step by step is a class or a method with loops, proved against a
specification function; protocols are state machines over their steps (`Enabled`, `Step`,
`Trace`, `After`), and their theorems hold for every trace. Fields called history (`log`,
`claims`, `past`, `written`, `epoch`, `base`, `mark`, `bound`, `sent`) record what happened and
never influence a step. What such a field says is proved of the events alone as well
(`ClaimEvents`, `Idempotency.StoresAreADayApart`, `Payments.CommitsAreThePath`).

How the transactions are modelled: PostgreSQL's READ COMMITTED level, which the code uses
everywhere outside its snapshot reads. A statement sees what is committed when it starts, its
writes become visible at the commit, and the rows it wrote stay locked until then. The UPDATE of
a claim is two steps, because it chooses its rows before it waits for them and does not look for
others afterwards; for the other statements that can wait, starting later comes to the same. A
statement that waits is one that is not enabled yet, and a transaction may abort at any point.

Where the code differs from what its comments say, the model follows the code:

- `packages/domain/src/bills/schedule.ts` line 96 calls its throw unreachable. A monthly search
  from the last due date of December 9999 reaches it, because the text of a date in year 10000
  sorts low. `Schedule.NextDueDate` states exactly when.
- `apps/api/src/houses/invites.service.ts` lines 300-304 say a claim changes no expense total.
  That holds for every run in which two open claims of one user never meet in an expense, one in
  which both placeholders hold a share and the user none (`ClaimLedger.LedgerStaysBalanced`).
  Where they do, the second claim's DELETE can find a row that its UPDATE had not chosen, and the
  share is lost. `ClaimMeetings.MeetingLosesIff` says exactly when two such claims can come to
  that, `ClaimLedger.CommitConservesIff` when one commit does, `ClaimAnomalies.TwoClaimsAtOnceLoseAShare`
  is a run from an empty house, and `ClaimLedger.LedgerStaysSane` says what every run keeps. A
  claimer who is not yet a member cannot get into this: the membership insert serialises the two
  (`ClaimLocks.JoiningSerialises`).
- The same comment says a fold snapshots the prior state. The expense fields and the splits of
  that snapshot come from two statements, and an edit that commits in between leaves a revision
  of both (`ClaimAnomalies.EditBetweenSelectsMixesARevision`).
  `ClaimHistory.SnapRecordsStateIff` is the exact condition: the last such edit, if there was
  one, left the fields as they were.
- `apps/worker/src/bills/post-due-bills.ts` lines 23-28 rest on resumes that start afresh from
  today. A resume while a worker run is in flight can have its `nextRun` moved back, and
  `BillResumes.ResumeRewindsIff` says exactly when. `BillResumes.HarmlessRunsStayInOrder` is what
  the other resumes keep, and no period is posted twice in any case (`BillRuns.AtMostOnce`).
- `apps/api/src/ratelimit/rate-limiter.ts` lines 4-7 speak of 2 x the limit across a boundary.
  The exact maximum is one less, and it is reached.
- A resume on a day whose bill is already posted sets `nextRun` back to that day; the next run
  meets the unique index and heals it. `BillRuns` covers this: its `mark` counts the rows before
  the anchor.

## Model

| member | source | states |
|---|---|---|
| `Text.LessIsFirstDifference` | packages/domain/src/bills/schedule.ts:94 | comparing texts with `<`: a proper prefix comes first, otherwise the first code units that differ decide |
| `Calendar.DaysAreCounted` | packages/domain/src/bills/schedule.ts:99-102 | day 0 is 1970-01-01 and each date is numbered one after the day before it |
| `Calendar.UtcRoundTripDecides` | packages/domain/src/bills/schedule.ts:35-42 | the `Date.UTC` round trip accepts exactly the real calendar dates of year 100 and later |
| `Calendar.DayZeroIsMonthLength` | packages/domain/src/bills/schedule.ts:50-52 | day 0 of the next month gives the length of the month |
| `Schedule.ParseISOExact` | packages/domain/src/bills/schedule.ts:32-48 | parsing accepts exactly the texts that printing a storable date gives, and returns that date |
| `Schedule.ISOOrder` | packages/domain/src/bills/schedule.ts:94 | comparing ISO texts compares dates |
| `Schedule.FiveDigitYearSortsLow` | packages/domain/src/bills/schedule.ts:93-94 | a date of year 10000 prints to a text that sorts before that of every storable date from year 2000 on |
| `Schedule.AcceptedSchedules` | packages/domain/src/bills/schedule.ts:55-71 | a schedule is accepted exactly for "last", the decimals 1 to 31 and the seven weekday names, spelled out, each its own rule |
| `Schedule.DueIsScheduled` | packages/domain/src/bills/schedule.ts:22-30 | a date is due under a weekly schedule if and only if its distance in days from Monday 1970-01-05 is that of the weekday named, under a monthly one if and only if it is the day of month named, or the last of a shorter month |
| `Schedule.NextIsEarliest` | packages/domain/src/bills/schedule.ts:79-108 | the next due date is due under the rule, strictly later, and no due date lies between |
| `Schedule.NextIsFirst` | packages/domain/src/bills/schedule.ts:73-108 | the next due date is the first scheduled one after the argument, in terms of named weekdays and days of the month alone |
| `Schedule.NextDueDate` | packages/domain/src/bills/schedule.ts:79-108 | the search returns the text of the first date after the argument that the calendar gives the schedule, weekday names and days of month spelled out; it fails only for a bad schedule, a bad date, or a monthly search from the last due date of December 9999, where the throw called unreachable is reached |
| `Schedule.EndOfIsoTimeReached` | packages/domain/src/bills/schedule.ts:96 | the throw called unreachable is reached: the month after 9999-12-31 of a bill due on the last day |
| `Schedule.SearchMonths` | packages/domain/src/bills/schedule.ts:83-96 | the month loop finds the next due date unless its text would need a five-digit year |
| `Schedule.SearchWeek` | packages/domain/src/bills/schedule.ts:99-107 | the weekday loop always finds the next due date |
| `Schedule.NextDueTextIsEarliest` | packages/domain/src/bills/schedule.ts:79-108 | the same in terms of ISO text: earliest scheduled text strictly after the argument |
| `Schedule.NextSlot` | packages/domain/src/bills/schedule.ts:73-78 | from a due date the next one is in the next calendar month, or the next week |
| `Schedule.EveryPeriodOnce` | packages/domain/src/bills/schedule.ts:73-108 | iterating visits every later due date exactly once, after as many steps as there are months or weeks between |
| `Schedule.OneDueDatePerMonth` | packages/domain/src/bills/schedule.ts:74-77 | clamping leaves exactly one due date in every month |
| `Schedule.PeriodKeyInjective` | packages/domain/src/bills/schedule.ts:110-119 | two due dates of a schedule with one period key are the same date |
| `Schedule.PeriodKeyIs` | packages/domain/src/bills/schedule.ts:116-119 | a monthly key is the year and month of the ISO text, a weekly one the whole due date |
| `Schedule.KeyAtInjective` | packages/domain/src/bills/schedule.ts:116-119 | different periods of a schedule have different keys |
| `Schedule.FirstRun` | apps/api/src/ledger/bills.service.ts:82-85 | the anchor of a new template is the earliest due date on or after the house-local today; it fails only for a bad schedule or on 0100-01-01 |
| `Schedule.AnchorIsEarliest` | apps/api/src/ledger/bills.service.ts:148-154 | the anchor of a resumed template is the earliest due date on or after today |
| `Schedule.AdvanceIsNextSlot` | apps/worker/src/bills/post-due-bills.ts:83-84 | advancing a due date gives the due date of the next period |
| `Bills.Anchor` | apps/api/src/ledger/bills.service.ts:82-85 | the earliest due date on or after today, and a due date the worker can work with |
| `Bills.BillBook.CreateBill` | apps/api/src/ledger/bills.service.ts:55-117 | succeeds exactly for a valid schedule and an owner, by default the caller, who is an active member and no placeholder; the bill is stored as given, active, at its anchor |
| `Bills.BillBook.SetActive` | apps/api/src/ledger/bills.service.ts:127-171 | succeeds exactly for an existing bill and an active member who owns it or is an admin; pausing keeps `nextRun`, resuming moves it to the anchor of today, a bill already in the wanted state is left alone |
| `Bills.SwitchIsStep` | apps/api/src/ledger/bills.service.ts:141-160 | switching a bill off or on is the pause or the resume of the posting protocol, or nothing |
| `BillRuns.PostedMeansSlot` | packages/db/src/schema/ledger.ts:59-63 | the unique (template, period) index refuses exactly the due dates already posted |
| `BillRuns.AtMostOnce` | apps/worker/src/bills/post-due-bills.ts:79-107 | in every interleaving of worker runs, crashes, pauses and resumes no due date is posted twice |
| `BillRuns.GapFreeStep` | apps/worker/src/bills/post-due-bills.ts:79-193 | each step keeps the postings gap-free, every stored and local `nextRun` a due date not past the first unposted one |
| `BillRuns.GapFreeHeal` | apps/worker/src/bills/post-due-bills.ts:97-100 | the compare-and-set of a heal keeps the postings gap-free and `nextRun` at a due date not past the first unposted one |
| `BillRuns.GapFreeRun` | apps/worker/src/bills/post-due-bills.ts:79-193 | the same over every run in which resumes are quiet |
| `BillRuns.PostsAtTop` | apps/worker/src/bills/post-due-bills.ts:85-107 | a run posts exactly at the first unposted due date and meets the unique index below it |
| `BillRuns.PostsEveryPeriodOnce` | apps/worker/src/bills/post-due-bills.ts:42-193 | each posting that commits is a row, the i-th of the i-th due date from the first `nextRun`, each exactly once, and `nextRun` lies between the first and the first unposted |
| `BillRuns.NextRunForward` | apps/worker/src/bills/post-due-bills.ts:97-100 | the stored `nextRun` never moves back except by a resume |
| `BillRuns.AllMayCrash` | apps/worker/src/bills/post-due-bills.ts:23-28 | from any state any days may pass and every run may crash, and the template and its postings stay |
| `BillRuns.OverlapRewinds` | apps/api/src/ledger/bills.service.ts:148-160 | a reachable instance: from a due date two periods after the template began, a resume under a run in flight has its `nextRun` moved back |
| `BillRuns.EveryScheduleCanRewind` | apps/api/src/ledger/bills.service.ts:148-160 | and every valid schedule has such a template, created on any of its due dates |
| `BillResumes.GapFreeIsOrderly` | apps/worker/src/bills/post-due-bills.ts:79-193 | a gap-free state whose first due date is not past the anchor of the day is orderly: posted without a gap up to a first unposted due date, nothing beyond it, every run at or before it or stuck below an earlier gap |
| `BillResumes.HarmlessRunsStayInOrder` | apps/api/src/ledger/bills.service.ts:148-160 | in every run from a template's creation whose resumes endanger nothing, overlapping ones included, the postings are gap-free from the last anchor on and no event but a resume moves `nextRun` back |
| `BillResumes.ResumeRewindsIff` | apps/api/src/ledger/bills.service.ts:148-160 | in every such run, a resume lets the stored `nextRun` move back later if and only if some worker run in flight can still post a due date before the anchor: the first unposted one from where the run stands, due on the run's day, with rounds left to get to it |
| `BillWorker.BillStore.PostOne` | apps/worker/src/bills/post-due-bills.ts:123-193 | one transaction: the expense and the new `nextRun`, or nothing on a duplicate period or when the posting core refuses; what it posts charges every active member, or every one with a room, the whole amount together, an equal part or the room share each, the remainder to the owner |
| `BillWorker.BillStore.TryPeriod` | apps/worker/src/bills/post-due-bills.ts:83-117 | one round of the loop: post, heal or pause |
| `BillWorker.BillStore.RunTemplate` | apps/worker/src/bills/post-due-bills.ts:79-118 | the catch-up loop of one template equals its specification round by round, at most 24 rounds |
| `BillWorker.BillStore.TakeTurn` | apps/worker/src/bills/post-due-bills.ts:69-118 | one template under its own house date; a broken zone pauses it |
| `BillWorker.BillStore.PostDueBills` | apps/worker/src/bills/post-due-bills.ts:42-121 | the whole pass over the filtered scan, in creation order |
| `BillWorker.LocalDateHolds` | apps/worker/src/bills/post-due-bills.ts:69-78 | the house date is the real date whose 1440 minutes, counted from 1970, hold the instant at the offset of the house |
| `BillWorker.ScannedTilTomorrow` | apps/worker/src/bills/post-due-bills.ts:49-67 | the scan takes exactly the active templates due no later than the day after the UTC date |
| `BillCatchUp.CatchUpExact` | apps/worker/src/bills/post-due-bills.ts:79-118 | with k periods due, the first few already posted, and no problem, a turn steps past the posted ones, posts the following in order up to 24 in all, and leaves `nextRun` min(k, 24) periods on; with none posted it posts exactly min(k, 24) |
| `BillCatchUp.CatchUpMoves` | apps/worker/src/bills/post-due-bills.ts:79-118 | a turn moves `nextRun` exactly min(k, 24) periods on |
| `BillCatchUp.RunMovesAtMost24` | apps/worker/src/bills/post-due-bills.ts:79-118 | one run of a template under its house date moves `nextRun` over the periods due, at most 24 |
| `BillCatchUp.RunsCatchUp` | apps/worker/src/bills/post-due-bills.ts:80-81 | repeated runs end with `nextRun` past today |
| `BillCatchUp.SkippedNotDue` | apps/worker/src/bills/post-due-bills.ts:49-52 | a template the SQL bound skips is not due in its house for any offset up to UTC+14 |
| `BillCatchUp.PreFilterLosesNothing` | apps/worker/src/bills/post-due-bills.ts:49-81 | the pre-filtered pass posts the same expenses as visiting every active template and leaves the same templates, except that a skipped one whose house has a broken zone is not yet paused |
| `BillCatchUp.PausedExactly` | apps/worker/src/bills/post-due-bills.ts:69-115 | a turn pauses its template exactly when the zone of its house is broken, or the template is due there and its posting meets a problem; it then posts nothing and keeps the date |
| `BillCatchUp.PausedIsLeftAlone` | apps/worker/src/bills/post-due-bills.ts:195-206 | a pass at any time leaves a paused template and its postings as they are |
| `BillCatchUp.TurnIsTrace` | apps/worker/src/bills/post-due-bills.ts:79-118 | every turn of the imperative worker is a run of the protocol the theorems above are about |
| `BillCatchUp.ScannedTurnIsTrace` | apps/worker/src/bills/post-due-bills.ts:49-118 | with the scan before it: scanning a template and taking its turn is a trace of the protocol |
| `Splits.ComputeSplits` | packages/domain/src/money/split.ts:67-108 | succeeds exactly for a total of 1 to 2^53 - 1, distinct non-empty participants and a well-formed configuration that sums up; everyone but the payer, or but the least id when the payer takes no part, gets the floor of total / n, the configured cents, or the floor of total x weight / 10000, and all together the total |
| `Splits.SplitEqually` | packages/domain/src/money/split.ts:76-83 | the equal mode returns the floor for everyone and the rest for the recipient |
| `Splits.SplitExactly` | packages/domain/src/money/split.ts:84-101 | the exact mode returns the configured amounts, exactly when they sum to the total |
| `Splits.SplitByWeights` | packages/domain/src/money/split.ts:42-65 | the weighted modes succeed exactly when the weights sum to 10000 bp |
| `Splits.FirstIsLeast` | packages/domain/src/money/split.ts:35-40 | the fallback recipient is the least participant |
| `Splits.RecipientOfSet` | packages/domain/src/money/split.ts:35-40 | the recipient depends on who participates, not on the order |
| `Splits.SplitSumsToTotal` | packages/domain/src/money/split.ts:4-11 | in every mode the shares sum exactly to the total and are those of the participants |
| `Splits.RemainderBound` | packages/domain/src/money/split.ts:55-65 | the remainder is non-negative and below the number of participants; none in exact mode |
| `Splits.SharesNearFloor` | packages/domain/src/money/split.ts:76-83 | everyone but the recipient gets the floor, the recipient less than the participant count more, nobody less than zero |
| `Splits.PayerTakesTheRest` | packages/domain/src/money/split.ts:35-108 | every participant but one gets the plain share of the mode and that one what is left: the payer, or if the payer takes no part the participant whose id no other is less than |
| `Splits.OrderOfParticipants` | packages/domain/src/money/split.ts:67-108 | the result is the same for every order of the participants |
| `Splits.ProductsExact` | packages/domain/src/money/split.ts:55-60 | for totals up to 10^10 cents every product stays below 2^53 |
| `Rooms.DivideRoomWeight` | packages/domain/src/money/rooms.ts:11-28 | accepts exactly a weight of 1 to 10000 bp and distinct, non-empty occupants, and returns the specified shares |
| `Rooms.DividedSum` | packages/domain/src/money/rooms.ts:20-27 | the shares of a room sum to its weight |
| `Rooms.DividedFairly` | packages/domain/src/money/rooms.ts:5-9 | shares differ by at most one basis point, the larger ones first in the given order |
| `Posting.LockActingMember` | packages/ledger/src/posting.ts:69-92 | passes exactly an active member who is no placeholder |
| `Posting.OccupantsExact` | packages/ledger/src/posting.ts:180-192 | the occupants derived for a room are its members, each once, in strict order of (joinedAt, userId) |
| `Posting.WeightOfAnyOrder` | packages/ledger/src/posting.ts:152-159 | a member's derived weight does not depend on the order in which the member rows come |
| `Posting.WeightByRank` | packages/ledger/src/posting.ts:152-194 | a roomed member weighs the room's weight divided by its occupants, plus one basis point if fewer occupants than the odd points joined before, ties by id |
| `Posting.PostingAnyOrder` | packages/ledger/src/posting.ts:110-206 | neither what is accepted nor the split depends on the order of the member rows |
| `Posting.GroupByRoom` | packages/ledger/src/posting.ts:180-186 | the Map of occupants holds for every room exactly its members in row order |
| `Posting.DeriveRoomWeights` | packages/ledger/src/posting.ts:160-206 | derives each participant's share of their room, and fails exactly when a participant has no room |
| `Posting.ResolveSplits` | packages/ledger/src/posting.ts:110-150 | accepts exactly active participants and payer, a payer who is no placeholder, no client weights for rooms, and a valid split; the participants are charged the whole amount, each the plain share of the mode, the payer, or the least id, the rest |
| `Posting.ResolvedShares` | packages/ledger/src/posting.ts:110-150 | what an accepted posting charges: exactly its participants, in full, plain shares with the remainder where it belongs, room weights being the derived ones |
| `Posting.RoomedTotal` | packages/ledger/src/posting.ts:160-206 | all derived weights together are the weights of the occupied rooms |
| `Posting.FullHouse` | packages/ledger/src/posting.ts:160-206 | the weights of some roomed members reach 10000 bp exactly when no room is vacant and all left out have zero |
| `Posting.RoomWeightedAcceptance` | packages/ledger/src/posting.ts:110-206 | with rooms summing to 10000 bp, a room-weighted posting is accepted if and only if participants are non-empty, distinct and roomed, no room is vacant and every roomed member left out has a zero share |
| `BillPosting.PostingShares` | apps/worker/src/bills/post-due-bills.ts:133-161 | a period is charged to all active members, or to all with a room, who pay the amount between them: in the equal mode everyone but the owner amount / members, by rooms everyone but the owner the floor of amount x weight / 10000; an equal bill is refused only when its owner cannot pay |
| `BillPosting.EqualBillPosts` | apps/worker/src/bills/post-due-bills.ts:133-161 | an equally split bill meets a posting problem only when its owner is no active member or a placeholder |
| `BillPosting.RoomBillPosts` | apps/worker/src/bills/post-due-bills.ts:137-161 | a room-weighted bill posts if and only if its owner can pay, the house has rooms and none stands vacant |
| `Balances.EntryOrderIsKeyOrder` | packages/domain/src/money/balances.ts:54 | sorting the Map entries as text sorts their keys |
| `Balances.EnterRows` | packages/domain/src/money/balances.ts:41-50 | the Map holds, for each pair, the signed sum of all shares and counted payments between the two |
| `Balances.ReadOut` | packages/domain/src/money/balances.ts:52-62 | the read-out loop lists the non-zero entries in key order and sums the nets |
| `Balances.ComputeBalances` | packages/domain/src/money/balances.ts:31-63 | the two phases together compute the specified balance |
| `Balances.PairwiseExact` | packages/domain/src/money/balances.ts:54-58 | a pair is listed with an amount if and only if that is their signed sum and positive |
| `Balances.EachPairOnce` | packages/domain/src/money/balances.ts:27-28 | every unordered pair appears at most once, with a positive amount |
| `Balances.ListedByPair` | packages/domain/src/money/balances.ts:54 | the debts are listed by the smaller id of each pair, then by the greater |
| `Balances.NetsOfParties` | packages/domain/src/money/balances.ts:58-60 | the users who appear with a net are exactly those with a non-zero balance towards somebody |
| `BalanceLaws.NetsSumToZero` | packages/domain/src/money/balances.ts:59-60 | nets sum to zero |
| `BalanceLaws.NetExact` | packages/domain/src/money/balances.ts:59-60 | each net is what was paid for others minus own shares paid by others plus payments sent minus received |
| `BalanceLaws.RowOrderIrrelevant` | packages/domain/src/money/balances.ts:31-63 | the result does not depend on the order of the rows |
| `BalanceLaws.PayingSettlesThePair` | packages/domain/src/money/balances.ts:46-50 | paying exactly a pair's amount removes that pair and changes no other |
| `BalanceLaws.DisputeAndResolve` | packages/domain/src/money/balances.ts:46-50 | disputing a payment gives the balances without it, resolving those with it |
| `Expenses.ExpenseStore.CreateExpense` | apps/api/src/ledger/ledger.service.ts:57-107 | succeeds exactly in the house currency and for a posting resolveSplits accepts; then the expense and all its splits are there, else nothing changes |
| `Expenses.ExpenseStore.EditExpense` | apps/api/src/ledger/ledger.service.ts:126-222 | succeeds exactly for an existing expense, an editor among the active members and an accepted posting; the head is replaced, its currency kept, and one revision holds the whole previous state; a refusal leaves neither |
| `Expenses.GroupRows` | apps/api/src/ledger/ledger.service.ts:429-434 | the Map built from the join rows is the expenses with their splits, whatever order the rows come in |
| `Expenses.GetBalances` | apps/api/src/ledger/ledger.service.ts:402-450 | the balances are those of the stored expenses, whatever order join rows and Map values come in |
| `Payments.PaymentStore.RecordPayment` | apps/api/src/ledger/ledger.service.ts:230-290 | records exactly a payment to another active member who is no placeholder, stated in the house currency, in none, or with an empty text |
| `Payments.PaymentStore.DisputePayment` | apps/api/src/ledger/ledger.service.ts:297-344 | succeeds exactly for the recipient, an active member, a recorded payment and 72 hours; otherwise nothing changes |
| `Payments.PaymentStore.ResolvePayment` | apps/api/src/ledger/ledger.service.ts:356-400 | succeeds exactly for the recipient, an active member, and a disputed payment |
| `Payments.EachMoveOnce` | apps/api/src/ledger/ledger.service.ts:327-333 | in every interleaving the logged moves of a payment are exactly the path to its status, each fired once, by the recipient, a dispute within its window; the guarded UPDATE alone suffices |
| `Payments.CheckedCommitHits` | apps/api/src/ledger/ledger.service.ts:299-333 | under the row lock the guarded UPDATE never refuses what the checks allowed |
| `Payments.CommitsAreThePath` | apps/api/src/ledger/ledger.service.ts:297-400 | read off the events alone: the payments are those recorded, as recorded, and the moves of each that committed are exactly those that lead to its status |
| `Payments.MoveIsTrace` | apps/api/src/ledger/ledger.service.ts:297-400 | a dispute or resolution the code lets through is a check and a commit of the state machine, with the code's table and log |
| `Payments.RecordIsTrace` | apps/api/src/ledger/ledger.service.ts:230-290 | a payment to an active member can be recorded in the state machine at any time under a new id |
| `Payments.AllMayAbort` | apps/api/src/ledger/ledger.service.ts:297-400 | whatever is open may abort, and that leaves payments and log as they are |
| `Payments.StatusOnlyForward` | apps/api/src/ledger/ledger.service.ts:297-400 | a status only moves recorded to disputed to resolved, and nothing else of a payment changes |
| `Claim.SplitRows.ClaimHistory` | apps/api/src/houses/invites.service.ts:322-392 | the statements do to every expense what folding one share into the other means, and leave for each expense they fold one revision of its whole previous state |
| `Claim.RowAfter` | apps/api/src/houses/invites.service.ts:374-392 | after the three statements the placeholder has no row, the claimer one wherever either had one, with both amounts, and everybody else's row is as before |
| `Claim.ClaimIsThreeStatements` | apps/api/src/houses/invites.service.ts:374-392 | the three statements in sequence are one fold per expense |
| `Claim.ClaimKeepsTotal` | apps/api/src/houses/invites.service.ts:300-304 | a claim changes no expense total |
| `Claim.ClaimCommutesWithNets` | apps/api/src/houses/invites.service.ts:374-392 | afterwards the claimer's net is the sum of both, the placeholder's nothing, every other net unchanged |
| `Claim.ClaimCommutesWithPairs` | apps/api/src/houses/invites.service.ts:374-392 | each other member's pair with the claimer is the signed sum of their pairs with both, all other pairs unchanged |
| `ClaimLocks.InvStep` | apps/api/src/houses/invites.service.ts:157-298 | every step of accepts, claims, postings, edits and invites keeps the locks exclusive and what a claim's statements found in place |
| `ClaimLocks.UsesWithinMax` | apps/api/src/houses/invites.service.ts:159-171 | the stored uses of an invite never exceed its maximum, in any interleaving |
| `ClaimLocks.LocksExclude` | packages/ledger/src/posting.ts:24-36 | a claim and a posting, or two claims, never hold the same placeholder |
| `ClaimLocks.JoiningSerialises` | apps/api/src/houses/invites.service.ts:216-233 | while a new member's insert is uncommitted no other accept of that user passes its own |
| `ClaimLocks.ClaimedForGood` | apps/api/src/houses/invites.service.ts:207-211 | `claimedBy` never changes once set |
| `ClaimLocks.ClaimedOnceAndSwept` | apps/api/src/houses/invites.service.ts:185-211 | a placeholder is claimed at most once and no committed split is under a claimed placeholder, in every interleaving |
| `ClaimEvents.UsesAreCommits` | apps/api/src/houses/invites.service.ts:283-286 | read off the events alone: an invite has been used once for each accept on it that committed, and at most ten did; it names the placeholder it was minted for and is open until it is closed |
| `ClaimEvents.AcceptBeginsIff` | apps/api/src/houses/invites.service.ts:159-187 | an accept begins if and only if the user has an account, the invite was minted and not closed, fewer than ten accepts on it committed, none is open, and a member's link is one that claims |
| `ClaimEvents.MembersAreTheirEvents` | apps/api/src/houses/invites.service.ts:190-271 | the members are who the events made them: a placeholder stays active until the claim that names its claimer, a person becomes active by an accept that commits |
| `ClaimEvents.NewcomerCountsOnce` | apps/api/src/houses/invites.service.ts:216-233 | of the plain links a newcomer accepts at once only the first to commit counts a use |
| `ClaimEvents.ExpensesAreTheirPosts` | apps/api/src/ledger/ledger.service.ts:134-222 | an expense has the columns of its last post and every post of it is in one currency |
| `ClaimEvents.PostIsAsked` | apps/api/src/ledger/ledger.service.ts:57-222 | a posting that commits is a valid split among active members, paid by one who is no placeholder, leaves the columns asked and the split computed, and as an edit adds exactly one revision, with the columns of the post before |
| `ClaimEvents.EditorIsMember` | apps/api/src/ledger/ledger.service.ts:134-150 | only an active member begins an edit, and only of an expense that was posted |
| `ClaimEvents.CommitIsClaim` | apps/api/src/houses/invites.service.ts:322-392 | where two claims of one user do not meet, the commit of an accept does to every expense exactly what the claim of its events says, and each expense in which both held a share gets exactly one revision |
| `ClaimEvents.MintClaimsIff` | apps/api/src/houses/invites.service.ts:27-64 | an invite that claims is minted if and only if its placeholder was added, is not claimed and is held by no open claim or posting |
| `ClaimEvents.LonePlainAccept` | apps/api/src/houses/invites.service.ts:157-298 | where nothing is open, a user with an account who is no member joins through any plain invite left open, counting one use |
| `ClaimEvents.MayCloseAndAbort` | apps/api/src/houses/invites.service.ts:157-298 | at any time an invite may be closed and whatever is open abort, and everything else committed stays |
| `ClaimLedger.SweptTotal` | apps/api/src/houses/invites.service.ts:374-392 | a claim's commit changes an expense total by exactly a share deleted without having been added |
| `ClaimLedger.CommitConservesIff` | apps/api/src/houses/invites.service.ts:374-392 | a commit keeps every total if and only if every row of value the DELETE found had been found by the UPDATE |
| `ClaimLedger.LedgerStaysSane` | apps/api/src/houses/invites.service.ts:300-304 | in every run, however claims overlap, splits are non-negative and never exceed the amount together, and no payer is a placeholder |
| `ClaimLedger.LedgerStaysBalanced` | apps/api/src/ledger/ledger.service.ts:134-222 | in every run in which two open claims of one user never meet in an expense, the splits also sum to the amount |
| `ClaimHistory.RevisionsListEveryState` | apps/api/src/ledger/ledger.service.ts:126-133 | in those runs the edits' revisions followed by the head list every state the expense ever had, fields and splits, in order, up to renaming claimed placeholders |
| `ClaimHistory.SnapRecordsStateIff` | apps/api/src/houses/invites.service.ts:322-360 | whatever commits between a claim's two SELECTs, its revision is the state at the second if and only if the last edit between them, if any, left the fields as the first SELECT read them |
| `ClaimHistory.FoldedRevisionsAreStates` | apps/api/src/houses/invites.service.ts:300-313 | in every run in which no edit of an expense to fold commits between a claim's two SELECTs, each revision of a claim is a state the expense had, exactly, however claims overlap |
| `ClaimHistory.FoldedRevisionsAreListed` | apps/api/src/houses/invites.service.ts:300-313 | when no two claims of a user meet either, that state is one the edits' revisions and the head list, up to renaming claimed placeholders |
| `ClaimMeetings.OverlapLosesShare` | apps/api/src/houses/invites.service.ts:374-392 | from every state in which a user's first claim has re-keyed a split and the UPDATE of a second, the only other accept of that user, has chosen its rows, the second can go on to a commit that loses its share |
| `ClaimMeetings.MeetingLosesIff` | apps/api/src/houses/invites.service.ts:374-392 | two claims of one user past the membership insert, the user's only accepts: whatever happens around them, the second can lose its share of an expense if and only if both placeholders hold a share of it, that one not zero, and the user holds none |
| `ClaimAnomalies.TwoClaimsAtOnceLoseAShare` | apps/api/src/houses/invites.service.ts:300-304 | a run from an empty house in which two claims at once leave an expense of 100 with splits of 50 and nothing open |
| `ClaimAnomalies.EditBetweenSelectsMixesARevision` | apps/api/src/houses/invites.service.ts:322-360 | a run in which an edit between the two SELECTs leaves a revision of amount 100 with splits of 60 |
| `House.HouseStore.SetRooms` | apps/api/src/houses/rooms.service.ts:27-88 | accepts exactly weights summing to 10000 bp, distinct and active occupants, and then everyone listed lives in the room listed and nobody else in any |
| `House.HouseStore.Accept` | apps/api/src/houses/invites.service.ts:172-298 | membership and room after an accept; refused exactly when the placeholder is no longer claimable |
| `House.PlaceholderKeepsFull` | apps/api/src/houses/members.service.ts:18-41 | a new placeholder, who has no room, leaves a full house full |
| `House.SetRoomsFills` | apps/api/src/houses/rooms.service.ts:21-26 | a configuration with an occupant in each room leaves every room lived in and the weights at 10000 bp |
| `House.AcceptKeepsFullIff` | apps/api/src/houses/invites.service.ts:251-271 | an accept keeps every room lived in if and only if it is not a claimer with another room taking over the only occupant of one |
| `House.StaysFull` | apps/api/src/houses/invites.service.ts:190-271 | through any later run of joins, new placeholders and other claims every room stays lived in and weights sum to 10000 bp |
| `House.RoomWeightedBillPosts` | apps/worker/src/bills/post-due-bills.ts:137-161 | in such a house a room-weighted bill with an active owner who is no placeholder never fails for its split, whatever the row order |
| `Idempotency.KeyStore.FindStoredResponse` | apps/api/src/lib/idempotency.ts:24-46 | no row, a conflict for another hash, or the stored response |
| `Idempotency.KeyStore.WithIdempotency` | apps/api/src/lib/idempotency.ts:60-89 | for one call, with or without a rival that commits while it runs: a reply is the stored row's, a conflict means another request's row, an error leaves no row of its own |
| `Idempotency.CallIsTrace` | apps/api/src/lib/idempotency.ts:60-89 | every such execution is a run of the state machine from any state, with its table and its answer, that disturbs no other call |
| `Idempotency.InvStep` | apps/api/src/lib/idempotency.ts:60-89 | every step keeps one commit behind each stored row and each answer |
| `Idempotency.AtMostOnce` | apps/api/src/lib/idempotency.ts:48-59 | at most one mutation commits per (key, user, endpoint) while its row is retained; two under one key are more than a day apart |
| `Idempotency.StoresAreADayApart` | apps/api/src/lib/idempotency.ts:48-89 | the same read off the events alone: who stored, for which request, begun and committed when; between two stores of one key it was pruned, and they are more than a day apart |
| `Idempotency.AllMayCrash` | apps/api/src/lib/idempotency.ts:48-59 | from any state any time may pass and every call may crash, and what is stored stays |
| `Idempotency.AllGetTheStoredResponse` | apps/api/src/lib/idempotency.ts:66-88 | every successful caller gets the response of the one commit, which was for the same request |
| `Idempotency.RefusedCommitsNothing` | apps/api/src/lib/idempotency.ts:42-44 | a caller told of a conflict or an error has committed nothing, and a conflict means another request holds the key |
| `RequestHash.HashTellsSame` | apps/api/src/lib/request-hash.ts:3-18 | two requests hash alike if and only if they are equal up to object key order at every depth |
| `Prune.KeyTable.DeleteBatch` | apps/worker/src/prune/prune-idempotency-keys.ts:27-37 | deletes some expired rows, as many as there are up to 5000, and nothing else |
| `Prune.CutoffIs` | apps/worker/src/prune/prune-idempotency-keys.ts:24 | the cutoff lies the retained days of 86400000 milliseconds before now, a fraction of a millisecond dropped towards 1970 |
| `Prune.KeyTable.PruneIdempotencyKeys` | apps/worker/src/prune/prune-idempotency-keys.ts:16-39 | ends, deletes exactly the rows older than the window and counts them; refuses a window that is not a finite number of at least one day |
| `Prune.BatchIsTrace` | apps/worker/src/prune/prune-idempotency-keys.ts:27-37 | what one delete statement removes is a run of the idempotency protocol's prune steps that leaves every call and every commit alone |
| `ClientKeys.NoSelfConflict` | apps/mobile/src/expenses/AddExpenseScreen.tsx:159-203 | with fresh keys the form never causes its own conflict, whichever responses are lost |
| `ClientKeys.RunKeepsKey` | apps/mobile/src/api/idempotency.ts:8-13 | through errors, retries of the unchanged form and anything other people do, the form keeps one key and every call of the run carries it |
| `ClientKeys.RetryKeepsKeyIff` | apps/mobile/src/api/idempotency.ts:8-13 | a submit after such a run keeps its key if and only if the body is unchanged |
| `ClientKeys.DoneRekeys` | apps/mobile/src/expenses/AddExpenseScreen.tsx:182-203 | once an expense was added, a conflict answered or the form remounted, the next submit goes out under its own new key, even of the same body |
| `ClientKeys.LostAndSentAgain` | apps/mobile/src/expenses/AddExpenseScreen.tsx:188-203 | whenever the form waits its response may be lost, and the unchanged form can be sent again, under the same key; a form mounted anew sends it under a new one |
| `ClientKeys.UndisturbedSubmit` | apps/mobile/src/expenses/AddExpenseScreen.tsx:159-203 | a submit under a new key that meets nobody commits one expense of its body and leaves a clean form |
| `ClientKeys.OneExpensePerRun` | apps/mobile/src/expenses/AddExpenseScreen.tsx:182-203 | of the calls of a run of unchanged submits, whichever responses are lost and whatever happens later, two commit only more than a day apart, after the key of the first was pruned |
| `Pagination.PageIsSlice` | apps/api/src/ledger/ledger.service.ts:474-544 | taking limit + 1 rows of each source, merging and slicing is slicing the sorted union, with a next cursor exactly when more is left |
| `Pagination.PageNewestFirst` | apps/api/src/ledger/ledger.service.ts:474-516 | in createdAt and id alone: a page lists rows strictly below the cursor, as many as the limit allows, later times first and on one time larger ids first, ahead of every row it leaves out |
| `Pagination.MergeTop` | apps/api/src/ledger/ledger.service.ts:460-516 | limit + 1 rows of each source are enough for the newest limit of both |
| `Pagination.WalkIsSorted` | apps/api/src/ledger/ledger.service.ts:452-457 | the pages one after the other are the rows below the cursor in descending order |
| `Pagination.WholeWalk` | apps/api/src/ledger/ledger.service.ts:452-457 | a whole walk lists every expense and payment exactly once, by descending createdAt and on one createdAt by descending id, and ends |
| `Pagination.InsertsAboveAreInvisible` | apps/api/src/ledger/ledger.service.ts:454-456 | rows committed above the cursor between pages do not disturb the rest of the walk |
| `RateLimiter.MemoryRateLimiter.Consume` | apps/api/src/ratelimit/rate-limiter.ts:27-46 | one call: it counts in the key's live window or opens one of windowSec x 1000 ms, answers yes up to the limit and otherwise the seconds left, rounded up and at least 1, and once a minute drops the windows that ended |
| `RateLimiter.MemoryRateLimiter.Sweep` | apps/api/src/ratelimit/rate-limiter.ts:30-35 | the sweep deletes exactly the windows that have ended |
| `RateLimiter.SweepInvisible` | apps/api/src/ratelimit/rate-limiter.ts:29-35 | with a clock that never goes back, sweeping never changes a decision compared with never evicting |
| `RateLimiter.FreshBound` | apps/api/src/ratelimit/rate-limiter.ts:36-42 | from a moment without a live window at most limit calls pass in one window length |
| `RateLimiter.NeverTwiceTheLimit` | apps/api/src/ratelimit/rate-limiter.ts:4-7 | at most 2 x limit - 1 calls pass in any half-open interval of one window length |
| `RateLimiter.BoundIsReached` | apps/api/src/ratelimit/rate-limiter.ts:4-7 | for every limit there are calls for which exactly 2 x limit - 1 pass |
| `RateLimiter.WaitingIsEnough` | apps/api/src/ratelimit/rate-limiter.ts:42-44 | after waiting retryAfterSec the window that refused has expired and the next call passes; no shorter whole wait would do |
| `RateLimiter.EvictingNeverTwice` | apps/api/src/ratelimit/rate-limiter.ts:4-7 | the sweeping limiter of the code, after any calls: at most 2 x limit - 1 pass in any half-open interval of one window length |
| `RateLimiter.EvictingFreshBound` | apps/api/src/ratelimit/rate-limiter.ts:27-46 | and at most limit from a moment without a live window |
| `RateLimiter.EvictingWaitIsEnough` | apps/api/src/ratelimit/rate-limiter.ts:42-44 | and a refused caller who waits retryAfterSec is let in, whatever is swept meanwhile |
| `Amount.ParseExact` | apps/mobile/src/ui/amount.ts:34-50 | for any one-character non-digit separator a text is accepted if and only if, trimmed, it is in the grammar and 100 x whole + padded fraction is within the ceiling, and then that is the value |
| `Amount.TrimIs` | apps/mobile/src/ui/amount.ts:34-38 | trimming takes the white space of ECMA-262, listed by code unit, off both ends and leaves none there |
| `Amount.CentsAre` | apps/mobile/src/ui/amount.ts:46-49 | the digit-wise value is 100 x the whole part plus the fraction padded to two digits |
| `Amount.PrintThenParse` | apps/mobile/src/ui/amount.ts:65-70 | every amount from 1 to 10^10 cents prints to a text that parses back to it, under any separator |
| `Amount.PrintedParams` | apps/mobile/src/ui/amount.ts:58-70 | a route parameter prints if and only if it is a positive whole amount within the ceiling, and then as units, a point and two digits |

## Left out

- Splits.ComputeSplits: amounts are integers; a non-integer number is not in the model, and above the API's ceiling the products of the weighted modes are exact here but not in a double (`Splits.ProductsExact` covers the ceiling).
- ClaimLedger.LedgerStaysBalanced: the sum holds for runs in which two open claims of one user never meet in an expense, because the code does not keep it otherwise (`ClaimMeetings.MeetingLosesIff`); what every run keeps is `ClaimLedger.LedgerStaysSane`.
- BillRuns.GapFreeRun: holds for runs whose resumes meet no worker run in flight; `BillResumes.HarmlessRunsStayInOrder` is the same for all resumes that endanger nothing.
- BillResumes.ResumeRewindsIff: the anchor lies within the clock's years, 0101 to 9998; "moves back" is about events up to the next resume.
- BillWorker.BillStore.PostOne: the splits it inserts are its second result; the tables of the worker keep only the columns the unique index covers, and the members and rooms do not change during a pass.
- Idempotency.KeyStore.WithIdempotency: what the mutation comes to is an argument; more than one rival at a time is the state machine, of which `Idempotency.CallIsTrace` makes each execution a run.
- House.StaysFull: memberships and rooms change one whole transaction at a time; a room configuration that races a claim is not in the model, nor is running it a second time.
- Posting.OccupantsExact: `localeCompare` on user ids is plain string order, which it is for lower-case UUID text.
- RequestHash.HashTellsSame: the digest and `JSON.stringify` are any injective function of the canonical value; names that look like array indices, which JavaScript enumerates first, and `undefined` properties do not occur in it.
- Prune.KeyTable.PruneIdempotencyKeys: no other transaction runs between the batches, and the retention is a real number without the rounding of a double; calls between the batches are `Prune.BatchIsTrace` with `Idempotency`.
- Amount.ParseExact: is about one-character separators that are no digits, which locale separators are; `Amount.ParseCents` itself takes any text.
- Pagination.InsertsAboveAreInvisible: a row whose transaction began before the cursor and commits after it was passed is missed by that walk, as the source says.
- Row locks in `ClaimProtocol` are those on membership, invite, expense and split rows; key-share locks of foreign keys and deadlock aborts would only disable steps or abort, which every step may do anyway.
- The claimer's room in `ClaimProtocol`: the room update of an accept may make two claims of one user wait for each other; the machine leaves that wait out and so has more interleavings.
- House time zones are offsets of at most 14 hours either way; the zone database behind `Intl` is not part of this model.
- ISO years: a house date outside 0101 to 9998 is not in the posting protocol; the calendar functions cover all years.
- Deleting expenses and removing members: the services never do either; a member who left before is covered by `ClaimProtocol` and `House`.
- Controllers, request validation and sessions: the caller of an operation is taken as known; membership, and for bills the role, are checked as the code does.
- Activity events, realtime hints, Redis and the Redis limiter, mail, invite previews and tokens: they hold no ledger state.
- Screens, formatting and previews of the app, except the submit handler of the expense form.
- The list of rooms with their occupants, member names, house creation and home snapshots: correct by a single reading.
