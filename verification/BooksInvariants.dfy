/** What every run of commands keeps: cycles, postings, ledger keys, statements and
    tables, and that no unique index or CHECK constraint is ever the one to refuse. */
module BooksInvariants {
  import opened Outcomes
  import opened Calendar
  import opened Money
  import opened Ranges
  import opened Records
  import opened Payments
  import opened Commission
  import opened Ledger
  import opened Books

  // ---- the invariant -----------------------------------------------------------

  /** Cycles are whole periods in date order; at most the newest is open, and a closed
      one has ended. */
  ghost predicate CyclesOk(today: Date, startDay: StartDay, cycles: seq<Cycle>) {
    (forall i :: 0 <= i < |cycles| ==>
       cycles[i].period == PeriodBounds(startDay, cycles[i].period.start)
       && cycles[i].period.start.Key() <= today.Key()
       && cycles[i].period.start.Key() <= cycles[i].period.end.Key()
       && (cycles[i].open || cycles[i].period.end.Key() < today.Key()))
    && (forall i, j :: 0 <= i < j < |cycles| ==>
          !cycles[i].open && cycles[i].period.end.Key() < cycles[j].period.start.Key())
  }

  /** Every entry posts to an existing cycle that had not ended when it occurred. */
  ghost predicate PostingOk(es: seq<Entry>, cycles: seq<Cycle>) {
    forall i :: 0 <= i < |es| ==>
      es[i].cycle < |cycles| && es[i].occurredOn.Key() <= cycles[es[i].cycle].period.end.Key()
  }

  ghost predicate EntryOk(rs: seq<Record>, ps: seq<Payment>, e: Entry) {
    WellFormed(e)
    && match e.origin
       case FromRecord =>
         e.sourceId < |rs| && e.customer == rs[e.sourceId].customer && e.occurredOn == rs[e.sourceId].date
         && (e.kind == AdjustmentEntry ==> rs[e.sourceId].status != Active)
       case FromPayment =>
         e.sourceId < |ps| && e.customer == ps[e.sourceId].customer && e.occurredOn == ps[e.sourceId].receivedOn
         && (e.kind == AdjustmentEntry ==> ps[e.sourceId].status == Reversed)
       case FromOpening => false
  }

  ghost predicate SameKey(e: Entry, f: Entry) {
    e.origin == f.origin && e.sourceId == f.sourceId && e.kind == f.kind
  }

  /** Entries cite real documents, and the ledger's unique key holds. */
  ghost predicate SourcesOk(es: seq<Entry>, rs: seq<Record>, ps: seq<Payment>) {
    (forall i :: 0 <= i < |es| ==> EntryOk(rs, ps, es[i]))
    && (forall i, j :: 0 <= i < j < |es| ==> !SameKey(es[i], es[j]))
  }

  /** At most one ACTIVE record per customer and date; no document lies in the future. */
  ghost predicate RecordsOk(today: Date, rs: seq<Record>) {
    (forall i :: 0 <= i < |rs| ==>
       rs[i].date.Key() <= today.Key() && 0 <= rs[i].charge && (rs[i].kind == Skip ==> rs[i].charge == 0))
    && (forall i, j :: 0 <= i < j < |rs| && rs[i].status == Active && rs[j].status == Active ==>
          rs[i].customer != rs[j].customer || rs[i].date != rs[j].date)
  }

  ghost predicate PaymentsOk(today: Date, ps: seq<Payment>) {
    forall i :: 0 <= i < |ps| ==> ps[i].receivedOn.Key() <= today.Key() && 0 < ps[i].amount
  }

  /** A statement presents its cycle's slice of the ledger, and its balances are the
      ledger's own up to that cycle. */
  ghost predicate StatementOk(es: seq<Entry>, s: Statement) {
    var c, ks := Some(s.customer), Some({s.cycle});
    s.opening == Sum(es, c, Some(Below(s.cycle)), Whole)
    && s.charges == Sum(es, c, ks, Charges)
    && s.serviceAdjustments == Sum(es, c, ks, ServiceAdjustments)
    && s.payments == -Sum(es, c, ks, PaymentsMade)
    && s.paymentReversals == Sum(es, c, ks, PaymentReversals)
    && s.closing == Sum(es, c, Some(Below(s.cycle + 1)), Whole)
  }

  /** Statements exist for closed cycles only, one per customer and cycle. */
  ghost predicate StatementsOk(es: seq<Entry>, cycles: seq<Cycle>, ss: seq<Statement>) {
    (forall i :: 0 <= i < |ss| ==>
       ss[i].cycle < |cycles| && !cycles[ss[i].cycle].open && StatementOk(es, ss[i]))
    && (forall i, j :: 0 <= i < j < |ss| ==>
          ss[i].customer != ss[j].customer || ss[i].cycle != ss[j].cycle)
  }

  /** Every closed cycle below `n` has billed everybody with an entry up to it. */
  ghost predicate BilledThrough(es: seq<Entry>, cycles: seq<Cycle>, ss: seq<Statement>, n: nat) {
    forall k, i :: 0 <= k < n && k < |cycles| && !cycles[k].open && 0 <= i < |es| && es[i].cycle <= k ==>
      StatementKeyTaken(ss, es[i].customer, k)
  }

  /** Versions already drawn are below the next one. */
  ghost predicate VersionsOk(b: Books) {
    (forall i :: 0 <= i < |b.records| ==> b.records[i].version < b.nextVersion)
    && (forall i :: 0 <= i < |b.payments| ==> b.payments[i].version < b.nextVersion)
    && (forall i :: 0 <= i < |b.statements| ==> b.statements[i].version < b.nextVersion)
    && (forall i :: 0 <= i < |b.customers| ==> b.customers[i].version < b.nextVersion)
    && (forall i :: 0 <= i < |b.ledger| ==> b.ledger[i].version < b.nextVersion)
  }

  function BilledValues(ss: seq<Statement>): (r: seq<int>)
    ensures |r| == |ss|
  {
    if ss == [] then [] else BilledValues(ss[..|ss| - 1]) + [Billed(ss[|ss| - 1])]
  }

  ghost predicate EarningsOk(b: Books) {
    Ordered(b.earnings.plans) && CommissionInv(b.records, b.payments, BilledValues(b.statements), b.earnings)
  }

  /** The part of the invariant that a posting alone must keep. */
  ghost predicate BillingOk(b: Books) {
    CyclesOk(b.today, b.startDay, b.cycles)
    && PostingOk(b.ledger, b.cycles)
    && StatementsOk(b.ledger, b.cycles, b.statements)
    && BilledThrough(b.ledger, b.cycles, b.statements, |b.cycles|)
  }

  ghost predicate Inv(b: Books) {
    BillingOk(b)
    && SourcesOk(b.ledger, b.records, b.payments)
    && RecordsOk(b.today, b.records) && PaymentsOk(b.today, b.payments)
    && VersionsOk(b) && EarningsOk(b)
  }

  // ---- cycles ------------------------------------------------------------------

  /** There is at most one OPEN cycle, it is the newest, and it has the greatest start. */
  lemma {:induction false} OpenCycleIsNewest(today: Date, startDay: StartDay, cycles: seq<Cycle>, i: nat)
    requires CyclesOk(today, startDay, cycles) && i < |cycles| && cycles[i].open
    ensures i == |cycles| - 1 && OpenCycle(cycles) == Some(i)
    ensures forall j :: 0 <= j < |cycles| && j != i ==>
              !cycles[j].open && cycles[j].period.start.Key() < cycles[i].period.start.Key()
  {
    var newest := cycles[|cycles| - 1];
  }

  /** A new period never collides with an existing cycle, so the unique start index
      cannot refuse it. */
  lemma {:induction false} NewCycleIsLater(today: Date, startDay: StartDay, cycles: seq<Cycle>, i: nat)
    requires CyclesOk(today, startDay, cycles) && OpenCycle(cycles).None? && i < |cycles|
    ensures cycles[i].period.end.Key() < PeriodBounds(startDay, today).start.Key()
  {
    PeriodContainsItsDate(startDay, today);
    PeriodsPartition(startDay, cycles[i].period.start, today);
  }

  lemma {:induction false} AppendedCycleOk(today: Date, startDay: StartDay, cycles: seq<Cycle>, period: Period)
    requires CyclesOk(today, startDay, cycles) && OpenCycle(cycles).None?
    requires period == PeriodBounds(startDay, period.start) && period.Contains(today)
    requires forall i :: 0 <= i < |cycles| ==> cycles[i].period.end.Key() < period.start.Key()
    ensures CyclesOk(today, startDay, cycles + [Cycle(period, true)])
    ensures forall i :: 0 <= i < |cycles| ==> cycles[i].period.start != period.start
  {
  }

  lemma {:induction false} EnsureOpenCycleKeeps(b: Books)
    requires CyclesOk(b.today, b.startDay, b.cycles)
    ensures match EnsureOpenCycle(b)
            case Err(error) =>
              error == RolloverRequired && OpenCycle(b.cycles).Some?
              && b.cycles[OpenCycle(b.cycles).value].period.end.Key() < b.today.Key()
            case Ok((ready, k)) =>
              CyclesOk(b.today, b.startDay, ready.cycles) && k == |ready.cycles| - 1 && ready.cycles[k].open
              && b.today.Key() <= ready.cycles[k].period.end.Key()
              && ready == b.(cycles := ready.cycles)
              && (ready.cycles == b.cycles || ready.cycles == b.cycles + [ready.cycles[k]])
  {
    match OpenCycle(b.cycles)
    case Some(k) =>
      OpenCycleIsNewest(b.today, b.startDay, b.cycles, k);
    case None =>
      var period := PeriodBounds(b.startDay, b.today);
      PeriodContainsItsDate(b.startDay, b.today);
      PeriodsAbut(b.startDay, b.today);
      forall i | 0 <= i < |b.cycles| ensures b.cycles[i].period.end.Key() < period.start.Key() {
        NewCycleIsLater(b.today, b.startDay, b.cycles, i);
      }
      AppendedCycleOk(b.today, b.startDay, b.cycles, period);
  }

  // ---- posting -----------------------------------------------------------------

  /** Appending an entry to a later cycle leaves a statement as it was issued. */
  lemma {:induction false} StatementStands(es: seq<Entry>, e: Entry, s: Statement)
    requires StatementOk(es, s) && s.cycle < e.cycle
    ensures StatementOk(es + [e], s)
  {
    var c, ks := Some(s.customer), Some({s.cycle});
    SumAppend(es, e, c, Some(Below(s.cycle)), Whole);
    SumAppend(es, e, c, Some(Below(s.cycle + 1)), Whole);
    SumAppend(es, e, c, ks, Charges);
    SumAppend(es, e, c, ks, ServiceAdjustments);
    SumAppend(es, e, c, ks, PaymentsMade);
    SumAppend(es, e, c, ks, PaymentReversals);
  }

  /** The same cycles, or one more open one. */
  ghost predicate CyclesGrow(cycles: seq<Cycle>, cycles': seq<Cycle>) {
    cycles' == cycles || (|cycles'| == |cycles| + 1 && cycles' == cycles + [cycles'[|cycles|]]
                          && cycles'[|cycles|].open)
  }

  lemma {:induction false} GrownCyclesKeep(es: seq<Entry>, cycles: seq<Cycle>, cycles': seq<Cycle>, ss: seq<Statement>)
    requires CyclesGrow(cycles, cycles') && PostingOk(es, cycles)
    requires StatementsOk(es, cycles, ss) && BilledThrough(es, cycles, ss, |cycles|)
    ensures PostingOk(es, cycles') && StatementsOk(es, cycles', ss) && BilledThrough(es, cycles', ss, |cycles'|)
  {
  }

  /** An entry in the open, newest cycle disturbs no closed one. */
  lemma {:induction false} EntryKeeps(es: seq<Entry>, cycles: seq<Cycle>, ss: seq<Statement>, e: Entry)
    requires PostingOk(es, cycles) && StatementsOk(es, cycles, ss) && BilledThrough(es, cycles, ss, |cycles|)
    requires e.cycle == |cycles| - 1 && cycles[e.cycle].open
    requires e.occurredOn.Key() <= cycles[e.cycle].period.end.Key()
    ensures PostingOk(es + [e], cycles) && StatementsOk(es + [e], cycles, ss)
    ensures BilledThrough(es + [e], cycles, ss, |cycles|)
  {
    forall i | 0 <= i < |ss| ensures StatementOk(es + [e], ss[i]) {
      StatementStands(es, e, ss[i]);
    }
  }

  /** The entry a posting appends. */
  ghost predicate Posted(b: Books, b2: Books, p: Posting) {
    if p.amount == 0 then b2 == b
    else
      CyclesGrow(b.cycles, b2.cycles) && 0 < |b2.cycles| && b2.cycles[|b2.cycles| - 1].open
      && b2 == b.(ledger := b.ledger + [p.AsEntry(|b2.cycles| - 1, b.nextVersion)],
                  cycles := b2.cycles, nextVersion := b.nextVersion + 1)
  }

  lemma {:induction false} PostEntryKeeps(b: Books, p: Posting)
    requires BillingOk(b) && p.occurredOn.Key() <= b.today.Key() && !KeyTaken(b.ledger, p)
    ensures match PostEntry(b, p)
            case Err(error) => error == RolloverRequired
            case Ok(b2) => Posted(b, b2, p) && BillingOk(b2)
  {
    if p.amount != 0 {
      EnsureOpenCycleKeeps(b);
      if EnsureOpenCycle(b).Ok? {
        var (ready, k) := EnsureOpenCycle(b).value;
        assert PostEntry(b, p) == Ok(WithEntry(ready, p.AsEntry(k, b.nextVersion)));
        assert WithEntry(ready, p.AsEntry(k, b.nextVersion))
            == b.(ledger := b.ledger + [p.AsEntry(k, b.nextVersion)], cycles := ready.cycles,
                  nextVersion := b.nextVersion + 1);
        AcceptedPosting(b, ready, p);
      } else {
        assert PostEntry(b, p) == Err(RolloverRequired);
      }
    }
  }

  lemma {:induction false} AcceptedPosting(b: Books, ready: Books, p: Posting)
    requires BillingOk(b) && p.occurredOn.Key() <= b.today.Key()
    requires CyclesOk(b.today, b.startDay, ready.cycles) && CyclesGrow(b.cycles, ready.cycles)
    requires ready.cycles != [] && ready.cycles[|ready.cycles| - 1].open
    requires b.today.Key() <= ready.cycles[|ready.cycles| - 1].period.end.Key() && ready == b.(cycles := ready.cycles)
    ensures BillingOk(WithEntry(ready, p.AsEntry(|ready.cycles| - 1, b.nextVersion)))
  {
    GrownCyclesKeep(b.ledger, b.cycles, ready.cycles, b.statements);
    EntryKeeps(b.ledger, ready.cycles, b.statements, p.AsEntry(|ready.cycles| - 1, b.nextVersion));
  }

  /** Documents only ever end, so entries that cited them still do. */
  ghost predicate DocumentsEvolve(b: Books, b1: Books) {
    |b.records| <= |b1.records| && |b.payments| <= |b1.payments|
    && (forall i :: 0 <= i < |b.records| ==>
          b1.records[i].customer == b.records[i].customer && b1.records[i].date == b.records[i].date
          && (b.records[i].status != Active ==> b1.records[i].status != Active))
    && (forall i :: 0 <= i < |b.payments| ==>
          b1.payments[i].customer == b.payments[i].customer && b1.payments[i].receivedOn == b.payments[i].receivedOn
          && (b.payments[i].status == Reversed ==> b1.payments[i].status == Reversed))
  }

  lemma {:induction false} SourcesKeep(b: Books, b1: Books, b2: Books, p: Posting)
    requires SourcesOk(b.ledger, b.records, b.payments) && DocumentsEvolve(b, b1) && b1.ledger == b.ledger
    requires Posted(b1, b2, p) && !KeyTaken(b.ledger, p)
    requires p.amount != 0 ==> EntryOk(b1.records, b1.payments, p.AsEntry(0, 0))
    ensures SourcesOk(b2.ledger, b2.records, b2.payments)
  {
    forall i | 0 <= i < |b2.ledger| ensures EntryOk(b2.records, b2.payments, b2.ledger[i]) {
      if i < |b.ledger| {
        assert EntryOk(b.records, b.payments, b.ledger[i]);
      }
    }
  }

  // ---- one lemma per command ---------------------------------------------------

  /** A command keeps the invariant, and no unique index or CHECK constraint is what
      refuses it. */
  ghost predicate Keeps(outcome: Outcome) {
    Inv(outcome.books) && !(outcome.error.Some? && outcome.error.value.Integrity?)
  }

  lemma {:induction false} RefusalKeeps(b: Books, drawn: nat)
    requires Inv(b)
    ensures Inv(b.(nextVersion := b.nextVersion + drawn))
  {
  }

  lemma {:induction false} ChargeIsNonNegative(kind: Kind, quantity: Option<Decimal>, price: int)
    ensures ResolveCharge(kind, quantity, price).Some? ==>
              0 <= ResolveCharge(kind, quantity, price).value.1
              && (kind == Skip ==> ResolveCharge(kind, quantity, price).value == (0, 0))
  {
    if ResolveCharge(kind, quantity, price).Some? && kind != Skip {
      ChargeBound(QuantizeQuantity(quantity.value).value, price);
    }
  }

  /** What a posting command has done before it posts: changed documents only, and
      worked out the commission. */
  ghost predicate ReadyToPost(b: Books, b1: Books, earnings: Earnings) {
    b1 == b.(records := b1.records, payments := b1.payments, nextVersion := b1.nextVersion)
    && b.nextVersion <= b1.nextVersion
    && DocumentsEvolve(b, b1)
    && RecordsOk(b.today, b1.records) && PaymentsOk(b.today, b1.payments)
    && VersionsOk(b1)
    && Ordered(earnings.plans)
    && CommissionInv(b1.records, b1.payments, BilledValues(b.statements), earnings)
  }

  lemma {:induction false} PostedVersions(b1: Books, b2: Books, p: Posting)
    requires VersionsOk(b1) && Posted(b1, b2, p)
    ensures VersionsOk(b2)
  {
  }

  /** A posting that went through. */
  lemma {:induction false} AcceptedKeeps(b: Books, b1: Books, b2: Books, p: Posting, earnings: Earnings)
    requires Inv(b) && ReadyToPost(b, b1, earnings) && BillingOk(b2) && Posted(b1, b2, p) && !KeyTaken(b.ledger, p)
    requires p.amount != 0 ==> EntryOk(b1.records, b1.payments, p.AsEntry(0, 0))
    ensures Inv(b2.(earnings := earnings))
  {
    SourcesKeep(b, b1, b2, p);
    PostedVersions(b1, b2, p);
  }

  /** After the posting, the whole invariant holds again. */
  lemma {:induction false} PostingKeeps(b: Books, b1: Books, p: Posting, earnings: Earnings, drawn: nat)
    requires Inv(b) && ReadyToPost(b, b1, earnings)
    requires p.occurredOn.Key() <= b.today.Key() && !KeyTaken(b.ledger, p)
    requires p.amount != 0 ==> EntryOk(b1.records, b1.payments, p.AsEntry(0, 0))
    ensures Keeps(Settle(b, PostEntry(b1, p), earnings, drawn))
  {
    assert BillingOk(b1);
    PostEntryKeeps(b1, p);
    match PostEntry(b1, p)
    case Err(_) =>
      RefusalKeeps(b, drawn);
    case Ok(b2) =>
      AcceptedKeeps(b, b1, b2, p, earnings);
  }

  /** A document that does not exist yet has no entry. */
  lemma {:induction false} NewSourceIsFree(b: Books, p: Posting)
    requires SourcesOk(b.ledger, b.records, b.payments)
    requires (p.origin == FromRecord && p.sourceId == |b.records|)
             || (p.origin == FromPayment && p.sourceId == |b.payments|)
    ensures !KeyTaken(b.ledger, p)
  {
    forall i | 0 <= i < |b.ledger| ensures b.ledger[i].origin != p.origin || b.ledger[i].sourceId != p.sourceId {
      assert EntryOk(b.records, b.payments, b.ledger[i]);
    }
  }

  /** A live document has no ADJUSTMENT entry yet. */
  lemma {:induction false} LiveSourceIsFree(b: Books, p: Posting)
    requires SourcesOk(b.ledger, b.records, b.payments) && p.kind == AdjustmentEntry
    requires (p.origin == FromRecord && p.sourceId < |b.records| && b.records[p.sourceId].status == Active)
          || (p.origin == FromPayment && p.sourceId < |b.payments| && b.payments[p.sourceId].status == Recorded)
    ensures !KeyTaken(b.ledger, p)
  {
    forall i | 0 <= i < |b.ledger| && b.ledger[i].kind == AdjustmentEntry
      ensures b.ledger[i].origin != p.origin || b.ledger[i].sourceId != p.sourceId
    {
      assert EntryOk(b.records, b.payments, b.ledger[i]);
    }
  }

  lemma {:induction false} AppendedRecordsOk(today: Date, rs: seq<Record>, r: Record)
    requires RecordsOk(today, rs) && r.status == Active && !SlotTaken(rs, r.customer, r.date)
    requires r.date.Key() <= today.Key() && 0 <= r.charge && (r.kind == Skip ==> r.charge == 0)
    ensures RecordsOk(today, rs + [r])
  {
  }

  lemma {:induction false} RecordEvolves(b: Books, record: Record)
    requires VersionsOk(b) && record.version == b.nextVersion
    ensures DocumentsEvolve(b, WithRecord(b, record)) && VersionsOk(WithRecord(b, record))
  {
  }

  lemma {:induction false} RecordKeepsDocuments(b: Books, record: Record)
    requires Inv(b) && record.status == Active && !SlotTaken(b.records, record.customer, record.date)
    requires record.date.Key() <= b.today.Key() && 0 <= record.charge && (record.kind == Skip ==> record.charge == 0)
    requires record.version == b.nextVersion
    ensures var b1 := WithRecord(b, record);
            RecordsOk(b.today, b1.records) && DocumentsEvolve(b, b1) && VersionsOk(b1)
  {
    AppendedRecordsOk(b.today, b.records, record);
    RecordEvolves(b, record);
  }

  lemma {:induction false} InsertRecordKeeps(b: Books, record: Record)
    requires Inv(b) && record.status == Active && record.corrects.None? && record.supersededBy.None?
    requires record.date.Key() <= b.today.Key() && 0 <= record.charge && (record.kind == Skip ==> record.charge == 0)
    requires record.version == b.nextVersion
    ensures Keeps(InsertRecord(b, record))
  {
    if SlotTaken(b.records, record.customer, record.date) {
      RefusalKeeps(b, 1);
    } else {
      var i, b1 := |b.records|, WithRecord(b, record);
      RecordKeepsDocuments(b, record);
      RecordedKeeps(b.records, b.payments, BilledValues(b.statements), b.earnings, record);
      NewSourceIsFree(b, ChargePosting(record, i));
      PostingKeeps(b, b1, ChargePosting(record, i), OnServiceRecorded(b.earnings, b1.records, i), 1);
    }
  }

  /** What a correction must satisfy to take the place of record `i`. */
  ghost predicate Replaces(b: Books, i: nat, replacement: Record) {
    i < |b.records| && b.records[i].status == Active
    && replacement.status == Active && replacement.corrects == Some(i) && replacement.supersededBy.None?
    && replacement.customer == b.records[i].customer && replacement.date == b.records[i].date
    && 0 <= replacement.charge && (replacement.kind == Skip ==> replacement.charge == 0)
    && replacement.version == b.nextVersion + 1
  }

  lemma {:induction false} ReplacementKeepsDocuments(b: Books, i: nat, replacement: Record)
    requires Inv(b) && Replaces(b, i, replacement)
    ensures var b1 := WithReplacement(b, i, replacement);
            RecordsOk(b.today, b1.records) && DocumentsEvolve(b, b1) && VersionsOk(b1)
  {
    SupersededRecordsOk(b.today, b.records, i, b.nextVersion, replacement);
  }

  lemma {:induction false} SupersededRecordsOk(today: Date, rs: seq<Record>, i: nat, version: nat, r: Record)
    requires RecordsOk(today, rs) && i < |rs| && rs[i].status == Active && r.customer == rs[i].customer
             && r.date == rs[i].date
    requires 0 <= r.charge && (r.kind == Skip ==> r.charge == 0)
    ensures RecordsOk(today, Supersede(rs, i, version, r))
  {
  }

  /** Superseding a record frees the slot its replacement takes. */
  lemma {:induction false} SlotIsFreed(today: Date, rs: seq<Record>, i: nat)
    requires RecordsOk(today, rs) && i < |rs| && rs[i].status == Active
    ensures !SlotTaken(rs[i := rs[i].(status := Superseded)], rs[i].customer, rs[i].date)
  {
  }

  lemma {:induction false} ReplaceRecordKeeps(b: Books, i: nat, replacement: Record)
    requires Inv(b) && Replaces(b, i, replacement)
    ensures Keeps(ReplaceRecord(b, i, replacement))
  {
    SlotIsFreed(b.today, b.records, i);
    ReplacementPosts(b, i, replacement, WithReplacement(b, i, replacement));
  }

  lemma {:induction false} ReplacementPosts(b: Books, i: nat, replacement: Record, b1: Books)
    requires Inv(b) && Replaces(b, i, replacement) && b1 == WithReplacement(b, i, replacement)
    ensures var p := AdjustmentPosting(b.records[i], i, replacement.charge);
            Keeps(Settle(b, PostEntry(b1, p), OnServiceCorrected(b.earnings, b1.records, i, |b.records|), 2))
  {
    ReplacementKeepsDocuments(b, i, replacement);
    CorrectedKeeps(b.records, b.payments, BilledValues(b.statements), b.earnings, i, b.nextVersion, replacement);
    LiveSourceIsFree(b, AdjustmentPosting(b.records[i], i, replacement.charge));
    PostingKeeps(b, b1, AdjustmentPosting(b.records[i], i, replacement.charge),
                 OnServiceCorrected(b.earnings, b1.records, i, |b.records|), 2);
  }

  lemma {:induction false} EndKeepsDocuments(b: Books, i: nat)
    requires Inv(b) && i < |b.records| && b.records[i].status == Active
    ensures var b1 := WithoutRecord(b, i);
            RecordsOk(b.today, b1.records) && DocumentsEvolve(b, b1) && VersionsOk(b1)
  {
    VoidedRecordsOk(b.today, b.records, i, b.nextVersion);
  }

  lemma {:induction false} VoidedRecordsOk(today: Date, rs: seq<Record>, i: nat, version: nat)
    requires RecordsOk(today, rs) && i < |rs| && rs[i].status == Active
    ensures RecordsOk(today, VoidRecord(rs, i, version))
  {
  }

  lemma {:induction false} EndRecordKeeps(b: Books, i: nat)
    requires Inv(b) && i < |b.records| && b.records[i].status == Active
    ensures Keeps(EndRecord(b, i))
  {
    var b1, p := WithoutRecord(b, i), AdjustmentPosting(b.records[i], i, 0);
    EndKeepsDocuments(b, i);
    VoidedKeeps(b.records, b.payments, BilledValues(b.statements), b.earnings, i, b.nextVersion);
    LiveSourceIsFree(b, p);
    PostingKeeps(b, b1, p, OnServiceVoided(b.earnings, b1.records, i), 1);
  }

  lemma {:induction false} PaymentEvolves(b: Books, payment: Payment)
    requires VersionsOk(b) && PaymentsOk(b.today, b.payments) && payment.version == b.nextVersion
    requires 0 < payment.amount && payment.receivedOn.Key() <= b.today.Key()
    ensures var b1 := WithPayment(b, payment);
            PaymentsOk(b.today, b1.payments) && DocumentsEvolve(b, b1) && VersionsOk(b1)
  {
  }

  lemma {:induction false} InsertPaymentKeeps(b: Books, payment: Payment)
    requires Inv(b) && payment.status == Recorded && 0 < payment.amount
    requires payment.receivedOn.Key() <= b.today.Key() && payment.version == b.nextVersion
    ensures Keeps(InsertPayment(b, payment))
  {
    var b1, p := WithPayment(b, payment), PaymentPosting(payment, |b.payments|);
    PaymentEvolves(b, payment);
    PaymentRecordedKeeps(b.records, b.payments, BilledValues(b.statements), b.earnings, payment);
    NewSourceIsFree(b, p);
    PostingKeeps(b, b1, p, OnPaymentRecorded(b.earnings, b1.payments, |b.payments|), 1);
  }

  lemma {:induction false} ReversalEvolves(b: Books, p: nat)
    requires VersionsOk(b) && PaymentsOk(b.today, b.payments) && p < |b.payments|
    ensures var b1 := WithReversal(b, p);
            PaymentsOk(b.today, b1.payments) && DocumentsEvolve(b, b1) && VersionsOk(b1)
  {
  }

  lemma {:induction false} ReversePaymentKeeps(b: Books, p: nat)
    requires Inv(b) && p < |b.payments| && b.payments[p].status == Recorded
    ensures Keeps(ReversePayment(b, p))
  {
    var b1, posting := WithReversal(b, p), ReversalPosting(b.payments[p], p);
    ReversalEvolves(b, p);
    PaymentVoidedKeeps(b.records, b.payments, BilledValues(b.statements), b.earnings, p, b.nextVersion);
    LiveSourceIsFree(b, posting);
    PostingKeeps(b, b1, posting, OnPaymentVoided(b.earnings, b1.payments, p), 1);
  }
}
