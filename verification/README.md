# Verified model of the billing backend

This project models the parts of a multi-tenant billing backend whose guarantees rest on
transactions, locks, unique indexes and rounding rules, and proves those guarantees with
Dafny 4.11. `dafny verify dfyconfig.toml` checks all of it.

Five groups of modules, each with its own state:

- **Money, calendar, ranges, search.** `Money` and `MoneyFormat` (the one rounding rule, charges,
  rates, printed amounts), `Calendar` (Gregorian dates and billing periods), `Ranges` (versioned
  effective ranges for plans and rates), `Costs` (monthly cost figures), `Search` (the identification
  decision and whole-word matching).
- **The books of one tenant.** `Records`, `Payments`, `Ledger` and `Commission` hold the tables and
  their arithmetic; `Books` gives every command as a function from state to state. `BooksInvariants`,
  `BooksClosing` and `BooksRuns` prove what every run of commands keeps; `BooksBalance`,
  `BooksReports`, `BooksStatus`, `BooksHistory`, `BooksUndo`, `BooksAcceptance` and `BooksLocking` state
  the results. `BooksEffects` (with `CommissionEffects`) and `BooksCloseEffects` say of every accepted
  command everything that it leaves behind, `BooksRefusals` why any other is refused, and `BooksCommands`
  puts them together: each without the functions of `Books` that compute it. `BooksFeed` plays commands
  and pulls of the five feed tables together; `BooksClients`, `BooksCopies` and `BooksSupersessions` say
  what a client of such a play holds. `BooksStore` is
  the same state updated in place, one method per command, proved equal to the functions;
  `BooksTenant` executes commands on it and stays a run, so every result over runs holds of the tables.
- **The sync protocol.** `OpTypes` and `Registers` are the operation types and the register; `Feed` is
  the paged read of five tables; `SyncProtocol` is a step machine over every interleaving of transactions
  of several tenants, with `SyncInvariants`, `SyncTheorems`, `SyncHistory` (what becomes of staged rows,
  and that the answers are serial), `SyncCycles` and `SyncWrites` (the tenant's billing cycle, and
  what a commit publishes, told from the actions), `SyncProgress` (locks and pulls), `SyncSnapshots` and `SyncGaps` (pages whose tables are read one after
  the other). `BooksTransactions` puts one tenant's books under that machine: its transactions work on the
  books between their claim and their commit, beside those of other tenants, and every interleaving does
  what whole commands do, in the order of the commits (`BooksCommitOrder`).
- **Operations and the client.** `Operations` (with `Folds`) is the register, the two transports and the
  four verdicts on top of a tenant's books, for every operation of the books, while anything else may
  happen between two deliveries; `OperationVerdicts` says what each envelope is answered with, and
  `OperationEffects` what deliveries do to the books;
  `PendingOperation` is the browser hook that keeps one envelope until it is answered.
- **Reminders.** `Schedule` validates a schedule and picks the due stage; `Reminders` is the engine, and
  `RemindersEffects` says what one customer's turn and one dispatch do; `RemindersSafety` and `RemindersCatchUp` prove what every run of rounds, payments, re-dispatches and
  crashes keeps; `RemindersDelivery` counts what the provider has seen, and `RemindersOverlap` what it has
  when dispatches overlap; `BooksReminders` runs the engine beside the books it reads; `RemindersRunner`
  is the engine and the daily round in place.

Ids are positions in their table, and rows are never removed. A tenant's business date never decreases
and its cycle start day is fixed. Unique indexes, the exclusion constraint and CHECK constraints are
guards tested where the row is flushed; the books prove that on every run none of them is ever what
refuses a command. Version numbers come from one sequence that a rollback does not rewind. The request
hash is taken to be injective. A provider's answer to a delivery is an arbitrary boolean, and `accepted`
means what the receipt says. One command draws its versions without another draw in between; the draws of
other tenants fall between commands.

Two assumptions carry the sync results. A page of changes is read in one snapshot: that is what the
argument for lock-free readers needs, while the code issues one SELECT per entity and sets no isolation
level. `SyncGaps.GapFreeExactly` and `SyncGaps.GapFreeAtEveryLimit` say exactly when a page over several
snapshots has a gap, and `SyncGaps.GapsAreCrossings` says it of the order of commits and reads;
`SyncSnapshots.TwoSnapshotsCanSkip` is a run in which it has one for good. One commit alone makes a gap
only if it wrote rows of two tables (`SyncGaps.OneCommitNeedsTwoTables`), which no command of the books
does (`BooksFeed.CommandMovesOne`). And only the operation types listed for the feed lock stage feed rows;
`BooksLocking.PostingTakesTheLock` proves of the commands of the books that they are among them.

Where the code and its comments differ, or the code does what a reader might not expect, the model follows
the code:

- `backend/app/service/commands.py:313-318` says that a cursor which saw a supersession has seen its
  replacement. The version order gives the converse, which is proved
  (`BooksClients.ReplacementBringsSupersession`). The stated direction holds exactly when the cursor has
  passed the supersession itself (`BooksSupersessions.SuccessorHeldExactly`), and after any accepted
  correction pages can end right before that (`BooksSupersessions.SupersessionSeenAlone`).
- `backend/app/core/money.py:44-46` says the largest charge fits BIGINT. It is about 10^21 and does not;
  the product does stay far below 50 digits (`Money.ChargeBound`). `Money.ChargeFitsExactly` says which
  charges fit.
- A PER_EVENT fee is taken back once per SKIP or void, not once per chain, and a SKIP corrected back to a
  SERVICE never restores it (`backend/app/commission/engine.py:104-107`). `Commission.PerEventNet` says
  exactly when the net is the promised fee.
- `format_minor` widens the decimal context for the scaling only; `abs` runs in the ambient 28-digit
  context (`backend/app/core/money.py:267-271`). An amount is printed exactly if and only if its magnitude
  has at most 28 significant digits (`MoneyFormat.PrintedExactly`), which every magnitude below 10^28 has;
  10^28 and its successor print alike (`MoneyFormat.FormatCollidesAtTheBound`).
- A reminder stage at or below one already sent can be attempted again when its row exists and the day
  of the month has fallen; `RemindersCatchUp.ReplayNeedsAnExistingRow` says exactly when, and
  `RemindersCatchUp.DayFourAfterDayEight` shows such a run.
- A crash between a provider's acceptance and the commit loses the SENT mark, in a round and in the
  owner's re-dispatch alike, so the message goes out again (`backend/app/api/routes.py:1279-1286` promises
  no second message). `RemindersDelivery.OnlyACrashRepeats` counts exactly how often, and
  `RemindersDelivery.SentTwice` is a run in which it happens.
- `backend/app/reminders/runner.py:86-89` says that two overlapping runners never send a second message.
  For a row not yet inserted its unique index sees to that. A committed row is read without a lock, so two
  overlapping dispatches of it send its message twice exactly when it is deliverable and the provider
  accepts both (`RemindersOverlap.OverlapRepeatsExactly`); `RemindersOverlap.OverlapsCountExactly` counts
  the messages for any number of dispatches that overlap, commit and die. A commit writes only the columns
  its transaction changed, so a later refusal takes a SENT mark back unless the row was FAILED when it was
  read (`RemindersOverlap.LaterCommitDecides`).
- An envelope that was refused can still take effect: when the day it was refused for is freed, a copy
  still on its way is APPLIED after the client has let the envelope go
  (`OperationEffects.RefusedThenApplied`); `OperationEffects.AppliedExactly` says when in general.
- A customer is PARTIALLY_PAID also when payments of earlier cycles were voided in the open one and none
  taken: the status asks whether the live payments have moved since the cycle opened
  (`BooksStatus.StatusIsAboutDocuments`).

## Model

| member | source | states |
|---|---|---|
| Money.RoundHalfUpIsNearest | backend/app/core/money.py:75-91 | the rounding rule is the one and only function that stays within half a unit and sends ties away from zero |
| Money.RoundingIsSymmetric | backend/app/core/money.py:75-91 | a negated amount rounds to the negated result, so a reversal gives back what was earned |
| Money.RoundingError | backend/app/core/money.py:75-91 | rounding moves a fraction by at most half a unit |
| Money.QuantizeQuantity | backend/app/core/money.py:123-154 | a quantity is accepted exactly when it is non-negative, within the column and has at most three decimals, and then its value is unchanged; which of the three refuses any other |
| Money.ChargeBound | backend/app/core/money.py:171-194 | every charge is non-negative and at most 10^21 - 10^9; the product has at most 24 digits, and the maximum exceeds BIGINT |
| Money.ChargeFitsExactly | backend/app/core/money.py:171-194 | a charge fits BIGINT exactly when milli-quantity times price stays below 1000 times the largest BIGINT plus 500 |
| Money.RateReverses | backend/app/core/money.py:209-235 | commission on a negated base is the negated commission |
| Money.RateError | backend/app/core/money.py:209-235 | the commission times 10000 is within 5000 of base times rate |
| MoneyFormat.PrintedExactly | backend/app/core/money.py:267-271 | the printed magnitude is the amount's exactly when it has at most 28 significant digits, as every one below 10^28 has |
| MoneyFormat.FormatRoundTrip | backend/app/core/money.py:238-275 | for exponents 0..4 reading the rendering back gives the amount exactly when it has at most 28 significant digits |
| MoneyFormat.FormatIsInjective | backend/app/core/money.py:238-275 | distinct amounts of at most 28 significant digits never render alike in one currency |
| MoneyFormat.FormatCollidesAtTheBound | backend/app/core/money.py:267-271 | 10^28 and 10^28 + 1 render alike, so the bound is sharp |
| MoneyFormat.NumberShape | backend/app/core/money.py:272-275 | the number is a whole part grouped in threes with no leading comma, then a full stop and exactly the currency's fraction digits |
| MoneyFormat.RoundsHalfEven | backend/app/core/money.py:267-271 | beyond the context's precision an amount is rounded to the nearest multiple of the last digit kept, a tie to the even one |
| Calendar.NextDayIsOneLater | backend/app/billing/cycles.py:73-92 | the date arithmetic used for periods is Gregorian day arithmetic |
| Calendar.KeyIsLexicographic | backend/app/billing/cycles.py:104-136 | date comparison is by year, month, day |
| Calendar.PeriodContainsItsDate | backend/app/billing/cycles.py:73-92 | every date lies in its own period |
| Calendar.MembersShareThePeriod | backend/app/billing/cycles.py:73-92 | a date lies in a period exactly when it is its own |
| Calendar.PeriodsPartition | backend/app/billing/cycles.py:73-92 | two periods are equal or disjoint, for every start day 1..28 |
| Calendar.PeriodsAbut | backend/app/billing/cycles.py:61-92 | consecutive periods leave no gap and do not overlap |
| Calendar.PeriodIsOneMonth | backend/app/billing/cycles.py:61-92 | a period runs from the start day of one month to the day before that of the next, as many days as the month it starts in |
| Calendar.PeriodStaysInYearRange | backend/app/billing/cycles.py:61-92 | the arithmetic leaves years 1..9999 exactly in the first and last period |
| Ranges.EffectiveIsUnique | backend/app/commission/plans.py:62-84 | in an ordered table the effective lookup has at most one answer |
| Ranges.CreateKeepsOrder | backend/app/commission/plans.py:164-269 | a range is accepted exactly when well-formed and starting after the newest row ends, or strictly after an open-ended newest row begins; ranges stay disjoint and the exclusion constraint never decides |
| Ranges.CreateChangesOnlyTheFuture | backend/app/commission/plans.py:164-269 | an accepted start changes the lookup only from that date on |
| Ranges.CreatesExactly | backend/app/commission/plans.py:164-269 | each request's one outcome: refused for a range that ends before it begins or one the newest row does not admit; otherwise appended, an open-ended newest row ending the day before, every other row as it was |
| Ranges.ReplayIsOrdered | backend/app/commission/plans.py:224-269 | every table reachable by accepted and refused requests is ordered |
| Ranges.OpenEndedReplayTiles | backend/app/costs/commands.py:434-492 | open-ended requests always tile |
| Ranges.TiledCovers | backend/app/costs/estimates.py:98-118 | a tiled table answers for every date from its first start and for no other |
| Ranges.RangeTable.CloseOpenPredecessor | backend/app/commission/plans.py:164-221 | closes the open-ended predecessor in place or refuses, exactly as specified |
| Ranges.RangeTable.CreateRow | backend/app/commission/plans.py:224-269 | inserts a range or leaves the table as it was |
| Costs.EstimateError | backend/app/costs/estimates.py:121-151 | twelve monthly equivalents differ from the annual fee by at most six units, a usage estimate from the exact product by half of one |
| Costs.EstimateExactly | backend/app/costs/estimates.py:121-151 | for each kind of rate: usage times price over 10^6, the monthly fee itself, the annual fee over 12, each the half-up rounding; none exactly without a usage or with a price out of range |
| Costs.RecordKeepsFigures | backend/app/costs/commands.py:645-687 | one ACTIVE figure per month, replacement chains walkable both ways, recorded amounts never change, the new figure is the one asked for, and a missing reason is the only refusal |
| Costs.RecordKeepsOtherMonths | backend/app/costs/commands.py:645-687 | other months keep their ACTIVE figure |
| Costs.CostItem.CreateRate | backend/app/costs/commands.py:495-607 | rates tile, and recorded figures do not move when a rate is added |
| Costs.CostItem.RecordUsage | backend/app/costs/commands.py:610-706 | refused for the first of the stated reasons that applies; otherwise one more figure for that month, the half-up estimate at the price in force on the first of it, frozen with both |
| Costs.CostItem.FindPrice | backend/app/costs/commands.py:610-706 | the price in force on the first of the month, or the first reason that there is none |
| Costs.CostItem.RecordActual | backend/app/costs/commands.py:709-805 | refused for the first of the stated reasons that applies; otherwise one more figure for that month with the invoiced amount; never touches the estimates |
| Search.RankIsRanking | backend/app/search/query.py:347-379 | the search result holds each customer's strongest match once, strongest first |
| Search.ResolvesExactlyTheIdentified | backend/app/search/resolver.py:101-150 | for every limit and tie order: RESOLVED exactly when over all matches one customer alone holds the top tier and it is strong, NOT_FOUND exactly when nothing matches |
| Search.AmbiguousExactly | backend/app/search/resolver.py:113-150 | a blank query finds nobody; any other is AMBIGUOUS exactly when somebody matches and nobody is identified, and then offers, up to the clamped limit, each customer's strongest match, strongest first, leaving out nobody stronger |
| Search.OccursIffWord | backend/app/search/query.py:208-218 | a padded token occurs in a padded column exactly when it is one of its words |
| Search.WholeWordIsTokenSubset | backend/app/search/query.py:208-218 | whole-word matching is containment of token sets, so word order is irrelevant |
| Records.ChainIsTailClass | backend/app/commission/engine.py:126-147 | walking a chain back from its last record finds exactly the records whose walk forward ends there |
| Records.SupersedeExtendsChain | backend/app/service/commands.py:319-344 | a correction extends exactly the corrected record's chain by one link |
| Records.VoidKeepsChains | backend/app/service/commands.py:410-413 | a void moves no chain |
| Ledger.OutstandingIsGeneratedMinusCollected | backend/app/billing/reporting.py:86-143 | in every customer and cycle scope outstanding is generated minus collected |
| Ledger.SumOverEverybody | backend/app/billing/statements.py:196-223 | summing customer by customer over everybody with an entry is the tenant's sum |
| Commission.RecordedKeeps | backend/app/commission/engine.py:249-276 | a recorded service keeps every event and adjustment in order |
| Commission.CorrectedKeeps | backend/app/commission/engine.py:279-312 | a correction moves exactly its chain's event, or lets a chain that never earned earn |
| Commission.VoidedKeeps | backend/app/commission/engine.py:315-335 | a void gives back the accepted value at the event's own terms |
| Commission.PaymentRecordedKeeps | backend/app/commission/engine.py:338-353 | a payment earns at most once |
| Commission.PaymentVoidedKeeps | backend/app/commission/engine.py:356-381 | a voided payment's commission is taken back in full |
| Commission.StatementKeeps | backend/app/commission/engine.py:384-400 | a statement earns once on what it billed and is never adjusted |
| Commission.NewPlanKeeps | backend/app/commission/plans.py:224-269 | a new plan rewrites no earned history |
| CommissionEffects.RecordedGains | backend/app/commission/engine.py:249-276 | a SERVICE gains its one event exactly under a plan in force on its date that pays per event or on the recorded value: on its charge, at that plan's terms, the fee or the half-up rate |
| CommissionEffects.CorrectedGains | backend/app/commission/engine.py:279-312 | a correction adjusts the one event its chain has earned by the half-up rate of the difference, or takes the fee back when it is now a SKIP; a chain that has not earned may earn on the replacement |
| CommissionEffects.VoidedGains | backend/app/commission/engine.py:315-335 | a void gives the accepted value back at the event its chain has earned, and nothing without one |
| CommissionEffects.PaymentGains | backend/app/commission/engine.py:338-353 | a payment gains its one event exactly under a plan in force on its date on the collected value |
| CommissionEffects.PaymentVoidedGains | backend/app/commission/engine.py:356-381 | a voided payment's event gets one adjustment by the half-up rate of the negated amount |
| CommissionEffects.StatementGains | backend/app/commission/engine.py:384-400 | a statement gains its one event exactly under a plan in force at the period's end on the billed value |
| Commission.DriftBound | backend/app/commission/engine.py:90-108 | with k adjustments, 10000 times the net is within 5000(k+1) of the rate times the accepted charge; zero for a record voided uncorrected |
| Commission.PaymentNet | backend/app/commission/engine.py:356-381 | a payment's net is its commission or, once voided, zero |
| Commission.PerEventNet | backend/app/commission/engine.py:104-107 | the net fee is F(1-n), and it is the promised fee exactly when F is zero or no SKIP after the earning record has itself ended |
| Commission.SkipThenVoid | backend/app/commission/engine.py:315-335 | SERVICE, SKIP, void nets minus F |
| Commission.SkipThenService | backend/app/commission/engine.py:279-312 | SERVICE, SKIP, SERVICE nets zero while F is promised |
| BooksInvariants.OpenCycleIsNewest | backend/app/billing/cycles.py:95-136 | at most one cycle is open and it has the greatest start |
| BooksInvariants.NewCycleIsLater | backend/app/billing/cycles.py:113-116 | a new period begins after every existing cycle ends, so it never collides |
| BooksInvariants.EnsureOpenCycleKeeps | backend/app/billing/cycles.py:104-160 | the valid open cycle is the newest and has not ended; only an expired open cycle refuses |
| BooksInvariants.PostEntryKeeps | backend/app/billing/ledger.py:37-79 | a posting disturbs no closed cycle and no issued statement, and never violates the ledger's unique key |
| BooksInvariants.LiveSourceIsFree | backend/app/billing/models.py:110-117 | a live document carries no adjustment yet, so the ledger key stays satisfiable along any chain |
| BooksInvariants.InsertRecordKeeps | backend/app/service/commands.py:235-279 | recording keeps the whole invariant |
| BooksInvariants.ReplaceRecordKeeps | backend/app/service/commands.py:319-374 | correcting keeps it, and the active-day index never refuses |
| BooksInvariants.EndRecordKeeps | backend/app/service/commands.py:410-428 | voiding keeps it |
| BooksInvariants.InsertPaymentKeeps | backend/app/payments/commands.py:210-231 | a payment keeps it |
| BooksInvariants.ReversePaymentKeeps | backend/app/payments/commands.py:281-304 | a payment's void keeps it |
| BooksClosing.OpeningIsLedgerBalance | backend/app/billing/statements.py:167-193 | both ways of computing an opening balance give the ledger sum of the earlier cycles |
| BooksClosing.DraftIsRight | backend/app/billing/statements.py:78-136 | a drafted statement presents its slice of the ledger, balances, and passes its CHECK constraints |
| BooksClosing.IssuingSucceeds | backend/app/billing/statements.py:250-291 | issuing never fails and bills each billable customer once |
| BooksClosing.CloseCycleKeeps | backend/app/billing/cycles.py:196-245 | closing keeps the whole invariant |
| BooksRuns.ApplyKeeps | backend/app/sync/idempotency.py:123-169 | every command on every input keeps the invariant and is never refused by an index or CHECK |
| BooksRuns.RunKeeps | backend/app/sync/idempotency.py:123-169 | so does every run of commands |
| BooksAcceptance.PostsExactly | backend/app/billing/ledger.py:37-79 | a posting goes through exactly when zero or the rollover is done, and appends exactly its entry to the newest cycle |
| BooksAcceptance.ServiceAcceptedExactly | backend/app/service/commands.py:218-257 | exactly when a day can be recorded, and what the record snapshots: a SERVICE is charged its quantity at the price, rounded half up, a SKIP nothing |
| BooksAcceptance.CorrectionAcceptedExactly | backend/app/service/commands.py:282-344 | exactly when a record can be corrected |
| BooksAcceptance.CorrectionReplaces | backend/app/service/commands.py:319-367 | an accepted correction supersedes the original with its replacement |
| BooksAcceptance.CorrectionKeepsThePrice | backend/app/service/commands.py:302-308 | an accepted correction inserts a record resolved at the original's snapshotted price, with the difference it made |
| BooksAcceptance.PriceChangesDoNotReachBack | backend/app/service/commands.py:302-305 | with any other customer rows, at any other price, the same correction is accepted and does the same |
| BooksAcceptance.CorrectionMovesTheDebt | backend/app/service/commands.py:346-367 | what the customer owes moves by exactly the difference the correction recorded |
| BooksAcceptance.VoidAcceptedExactly | backend/app/service/commands.py:392-426 | exactly when a record can be voided |
| BooksAcceptance.PaymentAcceptedExactly | backend/app/payments/commands.py:186-227 | any positive amount from a known customer is accepted, overpayments included |
| BooksAcceptance.ReversalAcceptedExactly | backend/app/payments/commands.py:248-299 | exactly when a payment can be voided |
| BooksAcceptance.CloseAcceptedExactly | backend/app/billing/cycles.py:216-242 | a cycle closes exactly when open and past its end, and everybody with an entry so far gets one statement |
| BooksAcceptance.ServiceEarnsExactly | backend/app/commission/engine.py:249-276 | the hook of a SERVICE earns exactly under a fitting plan in force on its date, at that plan's terms |
| BooksAcceptance.PaymentEarnsExactly | backend/app/commission/engine.py:338-353 | the hook of a payment earns exactly under a collected-value plan |
| BooksAcceptance.StatementEarnsExactly | backend/app/commission/engine.py:384-400 | the hook of a statement earns exactly under a billed-value plan in force at the period's end; what a close earns is `BooksCloseEffects.CloseLeaves` |
| BooksEffects.ResolvesExactly | backend/app/service/commands.py:135-151 | a day has a charge exactly for a SKIP, or for a quantity that is given, not negative, within bounds and no finer than a thousandth, at a price within bounds |
| BooksEffects.ResolvedIsCharged | backend/app/core/money.py:171-194 | the charge is quantity times price over 1000, a tie going away from zero; nothing for a SKIP |
| BooksEffects.RecordingLeaves | backend/app/service/commands.py:218-279 | an accepted recording leaves one more record with every field as asked, priced today, its charge as the one entry of the open cycle or of one opened for today's period, and its commission; nothing else but drawn versions |
| BooksEffects.CorrectionLeaves | backend/app/service/commands.py:282-389 | an accepted correction leaves the original superseded, a replacement at its price that records the difference and draws the later version, the difference as one adjustment, and the chain's commission moved; nothing else |
| BooksEffects.VoidLeaves | backend/app/service/commands.py:392-440 | an accepted void leaves the record ended, its charge posted back and its commission given back; nothing else |
| BooksEffects.PaymentLeaves | backend/app/payments/commands.py:186-245 | an accepted payment leaves one more payment, its negative entry and its commission; nothing else |
| BooksEffects.ReversalLeaves | backend/app/payments/commands.py:248-319 | an accepted void leaves the payment reversed, its amount posted back and its commission given back; nothing else |
| BooksCloseEffects.StatementsEarn | backend/app/billing/statements.py:250-291 | under a billed-value plan in force at the period's end each statement issued has exactly one event, on its charges and service adjustments at that plan's half-up rate; every other event was there before, and without such a plan none is added |
| BooksCloseEffects.CloseLeaves | backend/app/billing/cycles.py:196-245 | an accepted close leaves the newest cycle closed and one statement for everybody with an entry so far and nobody else, each presenting its slice of the ledger, with the commission above; nothing else |
| BooksRefusals.RecordingRefused | backend/app/service/commands.py:218-264 | which error refuses a recording: the first that applies of an unknown or inactive customer, a future date, no charge, a day already recorded, and a rollover due while the charge is not zero |
| BooksRefusals.CorrectionRefused | backend/app/service/commands.py:282-367 | which error refuses a correction: no reason, an unknown record, one not ACTIVE, no charge, and a rollover due while the charge differs |
| BooksRefusals.VoidRefused | backend/app/service/commands.py:392-426 | which error refuses a void of a record |
| BooksRefusals.PaymentRefused | backend/app/payments/commands.py:186-227 | which error refuses a payment |
| BooksRefusals.ReversalRefused | backend/app/payments/commands.py:248-299 | which error refuses a void of a payment |
| BooksRefusals.CloseRefused | backend/app/billing/cycles.py:196-242 | which error refuses a close, and that nothing else does |
| BooksRefusals.PlanCreated | backend/app/commission/plans.py:224-269 | a plan is refused for its terms or its range; an accepted one changes the plans only, as the ranges say |
| BooksCommands.EveryCommandDoes | backend/app/sync/idempotency.py:162-169 | in every state the invariant holds of, every command on every input is refused for the reason it should be, changing nothing but drawn versions, or leaves exactly what it should |
| BooksCommands.EveryRunDoes | backend/app/sync/idempotency.py:162-169 | so it is after every run |
| BooksBalance.RunBalances | backend/app/billing/ledger.py:167-178 | in every reachable state, per customer and for the tenant, what was generated is the active charges, what was collected is the live payments, and the ledger sum is their difference |
| BooksReports.RunConserves | backend/app/billing/reporting.py:146-175 | in every reachable state billed value is what was generated in the closed cycles |
| BooksReports.FiguresReconcile | backend/app/billing/reporting.py:86-175 | billed plus generated in the open cycle is everything generated; in every scope outstanding is generated minus collected |
| BooksReports.ClosingIsLiveOutstanding | backend/app/billing/statements.py:250-291 | each new statement's closing balance is the customer's live outstanding at the moment of close |
| BooksReports.OpeningIsPreviousClosing | backend/app/billing/statements.py:139-182 | each opening is the previous closing, over any number of skipped months |
| BooksReports.OpeningsAgree | backend/app/billing/statements.py:167-193 | the carried balance and the ledger sum agree for every cycle |
| BooksReports.CyclesAreOrdered | backend/app/billing/cycles.py:104-160 | in every reachable state every cycle but the newest is closed and cycles are whole periods in order |
| BooksReports.EntriesPostForward | backend/app/billing/cycles.py:118-121 | an entry never posts to a cycle that ended before it occurred |
| BooksHistory.RunKeepsOrder | backend/app/service/commands.py:310-344 | an earlier record of a customer and date has ended at a lower version than every later one |
| BooksHistory.HistoryIsFinal | backend/app/service/commands.py:293-296 | an ended record never changes again |
| BooksHistory.RunsMakeHistories | backend/app/service/commands.py:310-344 | the record tables of every run form a history in which ended records stay, slots are ordered and chains are walkable |
| BooksFeed.CommandMovesOne | backend/app/sync/changes.py:109-206 | every command redraws at most one of the five feed tables, at fresh versions, so no two feed rows share one |
| BooksFeed.PlaysAreRuns | backend/app/sync/changes.py:247-285 | the books of a play of commands and pulls are a run of its commands |
| BooksClients.PlayFollows | backend/app/sync/changes.py:247-285 | over every play, at every page limit, the client holds every record at or below its cursor as it is, and none that was never committed; no two rows of the five tables share a version |
| BooksClients.OneActivePerSlot | backend/app/sync/changes.py:268-276 | over every play, at every cursor and page boundary, the client holds at most one ACTIVE record per customer and date |
| BooksClients.ReplacementBringsSupersession | backend/app/service/commands.py:313-318 | over every play, a client that holds a replacement holds the supersession it explains |
| BooksClients.CopiesAreCurrentOrEnding | backend/app/sync/changes.py:268-276 | the client's copy of a record is current, or the record has ended above the cursor since |
| BooksCopies.TablesAreHeld | backend/app/sync/changes.py:109-206 | over every play and page limit the client holds every customer, record, payment and statement and the tenant's row at or below its cursor as the books' tables have it: a payment voided at or below the cursor as voided |
| BooksCopies.NothingElseIsHeld | backend/app/sync/changes.py:159-206 | and beyond that only payments voided above the cursor, as they were before, and customers written again above it; statements exactly up to the cursor |
| BooksCopies.PullBrings | backend/app/sync/changes.py:260-276 | a pull brings as many of the newer rows as were asked for, between one and a thousand, and changes nothing but the client, which is caught up exactly when none is left |
| BooksSupersessions.SuccessorHeldExactly | backend/app/service/commands.py:313-318 | over every play, a client that holds a supersession holds its live successor exactly when its cursor has passed the supersession, and an ended successor's end exactly from its version on |
| BooksSupersessions.SupersessionSeenAlone | backend/app/service/commands.py:313-318 | after any accepted correction, wherever the client stands, single-row pages come to one that ends between the supersession and its live successor |
| BooksSupersessions.SupersessionIsSeenAlone | backend/app/service/commands.py:313-318 | such a play from nothing |
| BooksUndo.RunPosts | backend/app/payments/commands.py:210-299 | in every reachable state every document has posted exactly the entries it calls for |
| BooksUndo.PaymentUndone | backend/app/payments/commands.py:248-299 | a payment and its void cancel in exactly the scopes that do not separate their cycles: in every scope when both fell into one cycle, whatever happened between or since |
| BooksUndo.ServiceUndone | backend/app/service/commands.py:392-426 | a record and its void cancel in exactly the scopes that do not separate their cycles |
| BooksStatus.StatusIsAboutDocuments | backend/app/billing/reporting.py:202-228 | PAID exactly when the live payments cover the active charges; otherwise PARTIALLY_PAID exactly when a cycle is open and the live payments have moved since just before it was opened, else UNPAID |
| BooksStatus.CollectedInOpenCycle | backend/app/billing/reporting.py:222-228 | what the open cycle collected is how far the live payments have moved since just before it was opened |
| BooksStatus.BeforeTheCycle | backend/app/billing/cycles.py:104-160 | every cycle was opened from a state with no open cycle |
| BooksUndo.OneEventPerChain | backend/app/commission/engine.py:126-158 | in every reachable state a correction chain has at most one earning event |
| BooksUndo.RunCommission | backend/app/commission/engine.py:90-108 | the drift bound and the PER_EVENT law hold of every event in every reachable state |
| BooksStore.Store.Rollback | backend/app/core/db.py:76-84 | a rollback restores everything but the drawn version numbers |
| BooksStore.Store.ChainIds | backend/app/commission/engine.py:126-147 | the guarded walk ends on any table and visits no record twice; on a chained table it finds exactly the record and everything it corrects |
| BooksStore.Store.ServiceCorrected | backend/app/commission/engine.py:279-312 | in place, the chain's event is found by the walk and adjusted once, at its own terms |
| BooksStore.Store.ServiceVoided | backend/app/commission/engine.py:315-335 | in place, the chain's event is found by the walk and adjusted once, at its own terms |
| BooksStore.Store.OpenOrCreateCycle | backend/app/billing/cycles.py:104-160 | finds or inserts the open cycle, or refuses and changes nothing |
| BooksStore.Store.Post | backend/app/billing/ledger.py:37-79 | appends one entry, or none for zero, or refuses |
| BooksStore.Store.Record | backend/app/service/commands.py:218-279 | recording in place is refused for the reason it should be, with every table as it was but for drawn version numbers, or leaves everything that `BooksCommands.Does` says and nothing else |
| BooksStore.Store.SupersedeRow | backend/app/service/commands.py:319-344 | the superseded row draws its version first, then the replacement takes the freed slot |
| BooksStore.Store.Correct | backend/app/service/commands.py:282-389 | correcting in place is refused for the reason it should be, with every table as it was but for drawn version numbers, or leaves everything that `BooksCommands.Does` says and nothing else |
| BooksStore.Store.Void | backend/app/service/commands.py:392-440 | voiding in place is refused for the reason it should be, with every table as it was but for drawn version numbers, or leaves everything that `BooksCommands.Does` says and nothing else |
| BooksStore.Store.Pay | backend/app/payments/commands.py:186-245 | taking a payment in place is refused for the reason it should be, with every table as it was but for drawn version numbers, or leaves everything that `BooksCommands.Does` says and nothing else |
| BooksStore.Store.VoidPaid | backend/app/payments/commands.py:248-319 | voiding a payment in place is refused for the reason it should be, with every table as it was but for drawn version numbers, or leaves everything that `BooksCommands.Does` says and nothing else |
| BooksStore.Store.Issue | backend/app/billing/statements.py:250-291 | the loop issues one statement per billable customer |
| BooksStore.Store.Close | backend/app/billing/cycles.py:196-245 | closing a cycle in place is refused for the reason it should be, with every table as it was but for drawn version numbers, or leaves everything that `BooksCommands.Does` says and nothing else |
| BooksStore.Store.Put | backend/app/customers/commands.py:227-297 | a new or edited customer is one row at a fresh version; an unknown one is refused |
| BooksTenant.Tenant.Execute | backend/app/sync/idempotency.py:162-169 | whatever is executed, the tables are the state of that run, the command did what it should, and no index or CHECK refuses |
| Feed.MergeIsPrefix | backend/app/sync/changes.py:260-271 | limit+1 rows per table, merged, sorted and truncated, are the first rows of the whole sorted union, and has_more is exact |
| Feed.ReadAndMerge | backend/app/sync/changes.py:261-266 | the loop over the entities appends every row each reader returns |
| Feed.ChangesSince | backend/app/sync/changes.py:247-285 | the page, cursor, has_more and head of the response |
| Feed.PageHasNoGap | backend/app/sync/changes.py:268-276 | a page leaves nothing out up to its own cursor, and is empty exactly when nothing is newer |
| Feed.FollowDeliversAll | backend/app/sync/changes.py:268-276 | following the cursor ends and delivers each row exactly once, in version order |
| SyncInvariants.InsertCycleKeeps | backend/app/billing/cycles.py:146-160 | the insert of an open cycle keeps the protocol's invariant and never conflicts |
| SyncInvariants.CommitKeeps | backend/app/sync/idempotency.py:162-169 | a commit keeps every client's copy current and every other transaction above what is committed |
| SyncInvariants.PullKeeps | backend/app/sync/changes.py:247-285 | a page applied by identity leaves the client with current copies up to its new cursor |
| SyncInvariants.RunKeeps | backend/app/sync/serialization.py:17-31 | every interleaving keeps the protocol's invariant |
| SyncTheorems.NothingCommitsBelow | backend/app/sync/serialization.py:17-31 | nothing in flight can commit below a committed version of its tenant or a cursor of its clients |
| SyncTheorems.ClientsNeverMissARow | backend/app/sync/changes.py:247-285 | a client always holds the current copy of every row at or below its cursor |
| SyncTheorems.CommitOrderIsVersionOrder | backend/app/sync/serialization.py:17-23 | within a tenant, whatever commits later has a higher version than everything committed before |
| SyncTheorems.RoutePagesAreComplete | backend/app/sync/changes.py:247-285 | the route's page has no gap in every reachable state, and an empty one means the client is up to date |
| SyncGaps.GapFreeExactly | backend/app/sync/changes.py:262-266 | a page of a given limit whose tables are read one after the other has a gap exactly when a row committed too late for its own table's read lies above the client's cursor and below a row that was read, with fewer read rows in between than the page takes |
| SyncGaps.GapFreeAtEveryLimit | backend/app/sync/changes.py:262-266 | no page has a gap, whatever its limit, exactly when no row committed too late for its table's read lies below one that was read |
| SyncGaps.GapsAreCrossings | backend/app/sync/changes.py:262-266 | of the schedule: some page has a gap exactly when a row was committed after its own table was read, and another no earlier and above it, yet before its own table was |
| SyncGaps.OneCommitNeedsTwoTables | backend/app/sync/changes.py:262-266 | a single commit between the reads makes a gap only if it wrote two tables, the lower version in the one read earlier |
| SyncSnapshots.OneSnapshotIsGapFree | backend/app/sync/changes.py:262-266 | when nothing commits between the reads there is never a gap |
| SyncSnapshots.TwoSnapshotsCanSkip | backend/app/sync/changes.py:262-266 | a run with two commits between the reads, whose page steps over a committed row at every limit, and no later page has it |
| BooksTransactions.OneAtWork | backend/app/sync/serialization.py:118-128 | the lock admits one of a tenant's feed-writing transactions to its work at a time |
| BooksTransactions.InterleavingsAreSerial | backend/app/sync/serialization.py:17-31 | every interleaving of transactions, of whichever tenants, leaves a tenant's committed books, and a client, exactly as a sequence of whole commands and pulls does, so every result about runs of the books holds of them |
| BooksCommitOrder.SerialInCommitOrder | backend/app/sync/idempotency.py:123-169 | that sequence does the work of the committed transactions and no other, each transaction's together, in the order of the commits |
| BooksTransactions.OneActivePerSlot | backend/app/sync/changes.py:268-276 | over every interleaving, at every cursor and page boundary, the client holds at most one ACTIVE record per customer and date |
| BooksTransactions.ReplacementBringsSupersession | backend/app/service/commands.py:313-318 | over every interleaving, a client that holds a replacement holds the supersession it explains |
| BooksTransactions.CopiesAreCurrentOrEnding | backend/app/sync/changes.py:268-276 | over every interleaving, the client's copy of a committed record is current, or the record has ended above the cursor since |
| BooksTransactions.TablesAreHeld | backend/app/sync/changes.py:109-206 | over every interleaving the client holds every committed row of the five tables at or below its cursor as it is, and beyond that only what an earlier write had left |
| BooksTransactions.PerformsExactly | backend/app/sync/idempotency.py:162 | accepted work is seen from then on by its own transaction and by nobody else; refused work takes its whole transaction with it, and either way what is committed stands |
| BooksTransactions.PublishesExactly | backend/app/sync/idempotency.py:168-169 | a step of the protocol changes what is committed exactly when it is the commit of a transaction at work, and then to what that transaction saw |
| SyncTheorems.ExactlyOnce | backend/app/sync/idempotency.py:76-90 | one APPLIED per operation id, before every other answer; then DUPLICATE with the same result, or a refusal for another request |
| SyncTheorems.RepliesFollowACommit | backend/app/sync/idempotency.py:126-160 | every DUPLICATE or refusal follows the commit it repeats |
| SyncTheorems.EffectsCommitWithTheirRegister | backend/app/sync/idempotency.py:162-169 | whatever changes committed state binds a fresh operation id in the same step; every other step changes nothing committed |
| SyncHistory.AllOrNothing | backend/app/sync/idempotency.py:130-169 | over every continuation: what a commit staged is committed for ever, and no version a rolled-back transaction drew is ever committed |
| SyncHistory.AnswersAreSerial | backend/app/sync/idempotency.py:123-176 | over every interleaving the answers and the register are those of a register that serves the operations one at a time |
| SyncTheorems.RetriesAreAnswered | backend/app/sync/idempotency.py:123-128 | with the lock free, a retry is answered from the register |
| SyncTheorems.FreshOperationsApply | backend/app/sync/idempotency.py:123-176 | with the lock free, a new operation gets through |
| BooksLocking.PostingTakesTheLock | backend/app/sync/serialization.py:76-97 | every command that posts, opens a cycle or meets an expired one, and every command that changes a feed table, belongs to an operation that takes the feed lock |
| OpTypes.FeedWritingExactly | backend/app/sync/serialization.py:76-97 | the operations that take the feed lock: all but plans, settlements, costs and re-dispatches |
| SyncTheorems.CycleConflictIsUnreachable | backend/app/billing/cycles.py:147-159 | the rollback-and-continue branch, which would discard the register row, is unreachable from any state of the protocol; `SyncCycles` says what those states keep of the actions |
| SyncCycles.OpenCyclesAreCounted | backend/app/billing/cycles.py:104-160 | over every run a tenant has an OPEN cycle on record exactly when its commits whose transactions inserted one outnumber by one its commits whose transactions closed one, and otherwise they are as many |
| SyncCycles.ClosedBetweenOpenings | backend/app/billing/cycles.py:138-160 | between two commits of a tenant that inserted a cycle lies one that closed one |
| SyncCycles.CyclesAreFound | backend/app/billing/cycles.py:95-121 | whoever posts notes that there is no open cycle exactly when the commits so far left none |
| SyncCycles.InsertMeetsNoConflict | backend/app/billing/cycles.py:146-160 | whoever has found no cycle still has its claim, there still is none, and nobody else of the tenant has inserted one |
| SyncCycles.CommitsFindItSo | backend/app/billing/cycles.py:216-240 | at a commit that inserted a cycle there was none, and at one that closed one there was |
| SyncCycles.CycleGetsOpened | backend/app/billing/cycles.py:138-160 | a transaction at work on a posting opens the cycle when there is none, whatever else is in flight |
| SyncCycles.CycleGetsClosed | backend/app/billing/cycles.py:216-240 | and one at work on a close closes it when there is one |
| SyncWrites.CommitsPublishWhatIsWritten | backend/app/sync/idempotency.py:148-169 | over every run a commit leaves each row as its transaction last wrote it, at the version drawn for that write, every other row as it was, and its id bound to its request and result |
| SyncWrites.LateClaimsAreAnswered | backend/app/sync/idempotency.py:145-160 | a transaction that comes to claim an id bound meanwhile is answered from the register and changes nothing |
| SyncProgress.LocksAreHeld | backend/app/sync/serialization.py:118-128 | every lock is that of a transaction in flight for a tenant of that key, so it is free once that has ended |
| SyncProgress.JoinsWithNothing | backend/app/sync/changes.py:247-253 | a new client starts with nothing at cursor zero |
| SyncProgress.PullsBringWhatIsNewer | backend/app/sync/changes.py:260-276 | pulling the route's page moves the cursor unless the client has everything, and a page with room for everything newer brings everything |
| Operations.TransportsAgree | backend/app/api/routes.py:549-571 | the online route and a sync envelope give one intent the same message |
| Operations.FailureChangesNothing | backend/app/sync/operations.py:217-227 | a failed operation changes nothing but drawn version numbers |
| Operations.ReplaysAreInvisible | backend/app/sync/idempotency.py:126-128 | a replay can be added or removed anywhere among deliveries and other commands without changing the final state |
| Operations.AppliedOnce | backend/app/sync/idempotency.py:93-176 | whatever else happens to the books, each id is APPLIED at most once and later identical messages get its document, whichever operation it is |
| Operations.ConsistentClientsNeverConflict | backend/app/sync/idempotency.py:76-84 | clients that never reuse an id are never told they did, whatever else happens to the books |
| Operations.VerdictsAreTruthful | backend/app/sync/operations.py:154-233 | APPLIED exactly for a valid envelope under a new id that the books accept, and then one record was added and bound; DUPLICATE exactly for its repetition; a taken slot is reported with the ACTIVE record of the envelope's own customer and day; the other verdicts are told apart by `OperationVerdicts.VerdictsExactly` |
| OperationVerdicts.EnvelopesExactly | backend/app/sync/operations.py:154-191 | which envelopes are unsupported, invalid or of another kind than they say, and that any other asks for its own payload with the defaults filled in |
| OperationVerdicts.OnlineExactly | backend/app/api/routes.py:549-571 | each online route registers under its own operation type, a recording under its kind's |
| OperationVerdicts.AnswersExactly | backend/app/sync/operations.py:154-233 | every envelope's one answer, field by field: its own id, its verdict, its document, its problem and what the server holds, in terms of the envelope, of the register and of the command's own error |
| OperationVerdicts.VerdictsExactly | backend/app/sync/operations.py:206-227 | CONFLICT exactly for an id bound to another request, a day already recorded and a rollover that is due; REJECTED exactly for any other refusal; DUPLICATE exactly for the request the id is bound to |
| Operations.BatchIsItsMessages | backend/app/api/routes.py:1338-1368 | a batch is its valid messages one by one |
| Operations.OperationDesk.ExecuteIdempotent | backend/app/sync/idempotency.py:93-176 | claim, perform, fill in and commit, or replay, or roll back, as specified |
| Operations.OperationDesk.ApplyOperation | backend/app/sync/operations.py:154-233 | in place, the answer and state that `OperationVerdicts.AnswersExactly` speaks of |
| Operations.OperationDesk.ApplyBatch | backend/app/api/routes.py:1354-1369 | the loop gives one verdict per entry, in order |
| PendingOperation.Pending.Start | frontend/src/daily/usePendingOperation.ts:85-93 | a new intent travels under an id never used before |
| PendingOperation.Pending.Retry | frontend/src/daily/usePendingOperation.ts:95-99 | a retry resends the kept envelope unchanged, or does nothing without one |
| PendingOperation.Pending.Discard | frontend/src/daily/usePendingOperation.ts:101-106 | discarding lets the envelope go |
| PendingOperation.Pending.Settle | frontend/src/daily/usePendingOperation.ts:49-83 | a verdict settles the write, a lost reply keeps its envelope; it is stranded exactly when a reply is lost after the envelope was let go |
| OperationEffects.AcceptedDoes | backend/app/sync/idempotency.py:148-169 | every accepted operation answers with its own document as it then stands, and does to it what had not been done before |
| OperationEffects.OneEffectPerId | backend/app/sync/idempotency.py:148-169 | all deliveries of one id together change the tables once exactly when the id ends up bound, and never otherwise; its document stays in the tables, and no two ids did the same thing |
| OperationEffects.OneRecordPerId | backend/app/sync/idempotency.py:148-169 | they add one record exactly when the id ends up bound to a recording or a correction |
| OperationEffects.AppliedExactly | backend/app/sync/idempotency.py:123-169 | a delivery takes effect exactly when its id is unbound and the books would accept its command by then, whichever operation it is |
| OperationEffects.RefusedThenApplied | backend/app/sync/operations.py:206-227 | after a refusal for a taken day and a void of the record that held it, a delayed copy is APPLIED unless its charge cannot be posted |
| OperationEffects.RefusedThenAppliedHappens | backend/app/sync/operations.py:206-227 | such a run, from nothing |
| PendingOperation.EndToEnd | frontend/src/daily/usePendingOperation.ts:49-99 | whatever is delivered, in any order, any number of times, over either transport, and whatever else happens to the books: no id is refused as reused, at most one effect per id, of whichever operation, and the same answer to every later delivery |
| PendingOperation.TakesEffectExactly | frontend/src/daily/usePendingOperation.ts:49-99 | a delivery takes effect exactly when none of its id did before and the books would accept its command now |
| Schedule.LoadSchedule | backend/app/reminders/schedule.py:67-109 | a column loads exactly when acceptable, to its entries in day order with FINAL last; any other is refused for its first unreadable entry, a second FINAL stage, or a FINAL one that is not the last |
| Schedule.FindDueStage | backend/app/reminders/schedule.py:112-130 | the loop finds the latest stage on or before the day |
| Schedule.DueStage | backend/app/reminders/schedule.py:112-130 | what it means to be the due stage |
| Schedule.DueStageRises | backend/app/reminders/schedule.py:112-130 | a later day is never due for an earlier stage |
| Schedule.FindNextStage | backend/app/reminders/schedule.py:141-152 | the loop finds the earliest stage after the day |
| RemindersEffects.GeneratesExactly | backend/app/reminders/engine.py:293-408 | a customer's turn: the due stage's row runs if it waits or has an attempt left; a new one is created, with what is owed now, unless as late a stage was sent or, for anything but the bill, nothing is owed; a FINAL one brings the owner's alert |
| RemindersEffects.DispatchesExactly | backend/app/reminders/engine.py:496-646 | one dispatch: a settled or exhausted row is left alone, a debt that is gone cancels it, a missing destination fails it, and otherwise what is owed now goes out and the answer decides |
| RemindersEffects.ProcessesExactly | backend/app/reminders/engine.py:766-792 | one customer's unit of work is the turn and then its dispatches in order |
| RemindersEffects.ActsExactly | backend/app/reminders/engine.py:766-792 | every action of a run, the turns of the environment included: what it changes, and nothing else |
| RemindersEffects.AttemptsExactly | backend/app/reminders/engine.py:766-792 | what an action has done when it comes to commit, whether it then dies or not |
| RemindersEffects.RowsFollowTheSchedule | backend/app/reminders/engine.py:238-290 | over every run each row is for a stage of the schedule and carries its message: the bill, the reminder, the final notice or, beside a final stage, the owner's alert |
| RemindersSafety.EveryDeliveryCarriedTheBalance | backend/app/reminders/engine.py:538-573 | over every run, every delivery in the log carried its customer's balance in the state in which it was sent |
| BooksReminders.PlaysStayTied | backend/app/reminders/engine.py:140-172 | over every interleaving of business and rounds the engine's balances, current cycles and day are those of the books |
| BooksReminders.DeliveriesCarryTheBooks | backend/app/reminders/engine.py:538-573 | over every such interleaving every delivery carried what the ledger, and so the documents, said the customer owed at that moment |
| BooksReminders.EngineActs | backend/app/reminders/engine.py:766-792 | over every interleaving of business and rounds the engine does beside the books what it does by itself, on the balances of the ledger, and leaves the books alone |
| BooksReminders.CurrentCycleIsTheNewestStatements | backend/app/reminders/engine.py:150-172 | the cycle being chased is that of the statement with the customer's highest version |
| RemindersSafety.RunIsSafe | backend/app/reminders/engine.py:235-290 | over every run: one row per customer, cycle, day and kind, at most three attempts and one success per row, and no debt-chasing delivery without a positive balance |
| RemindersSafety.RunAbsorbs | backend/app/reminders/engine.py:519-523 | SENT and CANCELLED rows never change again |
| RemindersDelivery.SendsOnce | backend/app/reminders/engine.py:599-615 | an action has a slot's message accepted at most once, exactly when it marks the row SENT or dies before it can |
| RemindersDelivery.OnlyACrashRepeats | backend/app/reminders/runner.py:172-192 | over every run a slot's message is accepted once if its row is SENT, and once more for each round or re-dispatch that dies right after sending it; so more than once exactly when two did, or one did and the row is SENT |
| RemindersDelivery.AtMostOncePerCrash | backend/app/reminders/runner.py:172-192 | a row's message is accepted at most once more often than its customer's rounds and its own re-dispatches crashed |
| RemindersDelivery.ResumedRoundRepeats | backend/app/reminders/runner.py:178-192 | a round resumed as it was repeats every message whose mark was lost |
| RemindersDelivery.ResumedRedispatchRepeats | backend/app/api/routes.py:1289-1310 | so does a repeated re-dispatch |
| RemindersDelivery.SentTwice | backend/app/reminders/engine.py:599-615 | a run from nothing in which a message goes out twice and one SENT row shows for it |
| RemindersOverlap.OverlapsCountExactly | backend/app/reminders/runner.py:86-89 | over every run in which dispatches of committed rows load, try, commit and die in any order, a message is accepted once if its row is SENT, once for each transaction that has sent it and not yet ended, and once for each acceptance lost |
| RemindersOverlap.LosingCommitsOverlap | backend/app/reminders/engine.py:519-523 | a commit loses an acceptance only when another marked the row SENT after it was read |
| RemindersOverlap.OverlapRepeatsExactly | backend/app/reminders/runner.py:86-89 | dispatches of a row one after the other send its message at most once; two that overlap send it twice exactly when the row is deliverable and both are accepted |
| RemindersOverlap.LaterCommitDecides | backend/app/reminders/engine.py:611-632 | after two that overlap the row is SENT exactly when the later was accepted, or the earlier was and the row was FAILED when both read it; it shows one attempt, the log two deliveries |
| RemindersCatchUp.GenerateIsDueOk | backend/app/reminders/engine.py:293-361 | a round attempts at most one customer-facing stage and it is the latest due |
| RemindersCatchUp.AttemptedExactly | backend/app/reminders/engine.py:331-355 | exactly when the due stage is attempted |
| RemindersCatchUp.FinalBringsItsAlert | backend/app/reminders/engine.py:357-408 | a FINAL stage that was not stopped has its owner alert beside it |
| RemindersCatchUp.RunCatchesUp | backend/app/reminders/engine.py:174-194 | while a cycle is current and the day does not fall, the runner's deliveries have strictly increasing days and nothing is ahead of schedule |
| RemindersCatchUp.ReplayNeedsAnExistingRow | backend/app/reminders/engine.py:322-355 | a stage at or below one already sent is attempted exactly when its row exists and may be retried |
| RemindersCatchUp.DayFourAfterDayEight | backend/app/reminders/engine.py:350-355 | a run from nothing in which the day falls and an earlier stage is sent after a later one |
| RemindersRunner.RoundIsSafe | backend/app/reminders/runner.py:141-192 | a round, resumed or not, keeps every safety property of the committed log |
| RemindersRunner.Engine.GenerateDue | backend/app/reminders/engine.py:293-361 | the rows created and the stages due in place are those the catch-up results speak about |
| RemindersRunner.Engine.DispatchReminder | backend/app/reminders/engine.py:496-646 | the row and log updates in place are those the safety results speak about, and what the provider accepts is what they add |
| RemindersRunner.Engine.ProcessOne | backend/app/reminders/engine.py:766-792 | one customer, end to end |
| RemindersRunner.Engine.Resend | backend/app/api/routes.py:1289-1310 | the owner's re-dispatch, committed or lost in a crash |
| RemindersRunner.Engine.ClaimRun | backend/app/reminders/runner.py:72-126 | only a SUCCEEDED run short-circuits |
| RemindersRunner.Engine.RunDaily | backend/app/reminders/runner.py:141-224 | a stop at a customer leaves the earlier ones committed and the rest untouched, while the provider keeps what that customer's round had sent; a round that succeeded is never repeated on its date |

## Left out

- Routing, schemas, authentication, capabilities, audit rows and snapshots: plumbing with no stateful property beyond those above.
- The database itself: isolation levels, deadlocks and query plans; a page of changes is one snapshot, as assumed above.
- BIGINT overflow of a stored charge: the database would refuse it; the model's amounts are unbounded and `Money.ChargeFitsExactly` says which fit.
- Python's year range 1..9999: dates are unbounded and `Calendar.PeriodStaysInYearRange` gives the exact ends.
- The validation of customer, alias, tenant and settlement routes: any customer row may be written with any contents, which stand for its price, its status and everything else it carries.
- OperationEffects.OneEffectPerId: stated of books that keep the invariant, as every reachable state does; and with it PendingOperation.EndToEnd.
- Ledger entries without a posting cycle, which only an older version wrote, and OPENING entries, which nothing posts.
- Statement presentation figures (service days, total quantity) and the order in which statements of one close are issued.
- Quantity strings: a quantity is a finite decimal, so two spellings of one number are one request here.
- The browser outbox and snapshot seeding from list routes: their files are not part of this model.
- Timezones, ids, Unicode normalisation and trigram similarity: dates, ids and tokens are inputs, and a fuzzy match is any weak-tier match.
- Provider adapters, message rendering beyond the amount, cost reporting, dashboards and screens: they add only easy members.
- The business date in the tenant's feed row: it changes without a version, so a client's copy of it may be older than its cursor; the row's settings are modelled.
- RemindersDelivery.OnlyACrashRepeats: is about runs in which dispatches of one row follow each other; those that overlap are `RemindersOverlap.OverlapsCountExactly`. A provider that accepts a message and then fails to say so counts as not accepting.
- RemindersOverlap.OverlapsCountExactly: two rows that one transaction dispatches together, a stage and its owner alert, may end apart here.
- BooksTransactions.InterleavingsAreSerial: a page is one snapshot, and a transaction works with the business date of the moment it works in.
- Operations.AppliedOnce: operations on costs, settlements and reminders go through the same register and are not among its operations here; an alias is an edit of its customer.
