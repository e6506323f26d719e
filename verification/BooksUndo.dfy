/** What a void undoes, and commission over whole runs. */
module BooksUndo {
  import opened Outcomes
  import opened Calendar
  import opened Money
  import opened Records
  import opened Payments
  import opened Commission
  import opened Ledger
  import opened Books
  import opened BooksInvariants
  import opened BooksRuns

  // ---- what each document has posted -------------------------------------------

  /** The entry a document of this kind posted. */
  ghost predicate EntryOf(e: Entry, origin: Origin, id: nat, kind: EntryKind, customer: nat, amount: int) {
    e.origin == origin && e.sourceId == id && e.kind == kind && e.customer == customer && e.amount == amount
  }

  ghost predicate HasEntry(es: seq<Entry>, origin: Origin, id: nat, kind: EntryKind, customer: nat, amount: int) {
    exists x :: 0 <= x < |es| && EntryOf(es[x], origin, id, kind, customer, amount)
  }

  /** A payment has its entry, and a voided one the opposite entry too. */
  ghost predicate PaymentPosted(es: seq<Entry>, ps: seq<Payment>, p: nat)
    requires p < |ps|
  {
    HasEntry(es, FromPayment, p, PaymentEntry, ps[p].customer, -ps[p].amount)
    && (ps[p].status == Reversed ==> HasEntry(es, FromPayment, p, AdjustmentEntry, ps[p].customer, ps[p].amount))
  }

  /** A first record has its charge, unless that is zero, and one voided the opposite too. */
  ghost predicate RecordPosted(es: seq<Entry>, rs: seq<Record>, i: nat)
    requires i < |rs|
  {
    rs[i].charge != 0 ==>
      (rs[i].corrects.None? ==> HasEntry(es, FromRecord, i, ChargeEntry, rs[i].customer, rs[i].charge))
      && (rs[i].status == Voided ==> HasEntry(es, FromRecord, i, AdjustmentEntry, rs[i].customer, -rs[i].charge))
  }

  ghost predicate DocumentsPosted(es: seq<Entry>, rs: seq<Record>, ps: seq<Payment>) {
    (forall i :: 0 <= i < |rs| ==> RecordPosted(es, rs, i)) && (forall p :: 0 <= p < |ps| ==> PaymentPosted(es, ps, p))
  }

  lemma {:induction false} EntryStays(
      es: seq<Entry>, es': seq<Entry>, origin: Origin, id: nat, kind: EntryKind, customer: nat, amount: int)
    requires es <= es' && HasEntry(es, origin, id, kind, customer, amount)
    ensures HasEntry(es', origin, id, kind, customer, amount)
  {
    var x :| 0 <= x < |es| && EntryOf(es[x], origin, id, kind, customer, amount);
    assert es'[x] == es[x];
  }

  lemma {:induction false} RecordStaysPosted(es: seq<Entry>, es': seq<Entry>, rs: seq<Record>, rs': seq<Record>, i: nat)
    requires es <= es' && i < |rs| && i < |rs'| && RecordPosted(es, rs, i) && rs'[i].status == rs[i].status
    requires rs'[i].charge == rs[i].charge && rs'[i].customer == rs[i].customer && rs'[i].corrects == rs[i].corrects
    ensures RecordPosted(es', rs', i)
  {
    if rs[i].charge != 0 {
      if rs[i].corrects.None? {
        EntryStays(es, es', FromRecord, i, ChargeEntry, rs[i].customer, rs[i].charge);
      }
      if rs[i].status == Voided {
        EntryStays(es, es', FromRecord, i, AdjustmentEntry, rs[i].customer, -rs[i].charge);
      }
    }
  }

  lemma {:induction false} PaymentStaysPosted(
      es: seq<Entry>, es': seq<Entry>, ps: seq<Payment>, ps': seq<Payment>, p: nat)
    requires es <= es' && p < |ps| && p < |ps'| && PaymentPosted(es, ps, p) && ps'[p] == ps[p]
    ensures PaymentPosted(es', ps', p)
  {
    EntryStays(es, es', FromPayment, p, PaymentEntry, ps[p].customer, -ps[p].amount);
    if ps[p].status == Reversed {
      EntryStays(es, es', FromPayment, p, AdjustmentEntry, ps[p].customer, ps[p].amount);
    }
  }

  /** A posting that went through left its entry, and changed nothing else of the ledger. */
  lemma {:induction false} PostedEntry(b1: Books, p: Posting)
    requires PostEntry(b1, p).Ok?
    ensures var x := PostEntry(b1, p).value;
            b1.ledger <= x.ledger && x.records == b1.records && x.payments == b1.payments
            && (p.amount != 0 ==> HasEntry(x.ledger, p.origin, p.sourceId, p.kind, p.customer, p.amount))
  {
    if p.amount != 0 {
      var (ready, k) := EnsureOpenCycle(b1).value;
      var x := PostEntry(b1, p).value;
      assert x.ledger == b1.ledger + [p.AsEntry(k, ready.nextVersion)];
      assert EntryOf(x.ledger[|b1.ledger|], p.origin, p.sourceId, p.kind, p.customer, p.amount);
    }
  }

  ghost predicate Posted(b: Books) {
    DocumentsPosted(b.ledger, b.records, b.payments)
  }

  lemma {:induction false} InsertRecordPosts(b: Books, record: Record)
    requires Posted(b) && record.status == Active && (record.kind == Skip ==> record.charge == 0)
    ensures Posted(InsertRecord(b, record).books)
  {
    var x := InsertRecord(b, record);
    if x.error.None? {
      var b1, i := WithRecord(b, record), |b.records|;
      PostedEntry(b1, ChargePosting(record, i));
      forall j | 0 <= j < |b.records| ensures RecordPosted(x.books.ledger, x.books.records, j) {
        RecordStaysPosted(b.ledger, x.books.ledger, b.records, x.books.records, j);
      }
      PaymentsStayPosted(b, x.books);
    }
  }

  lemma {:induction false} PaymentsStayPosted(b: Books, x: Books)
    requires Posted(b) && b.ledger <= x.ledger && x.payments == b.payments
    ensures forall p :: 0 <= p < |x.payments| ==> PaymentPosted(x.ledger, x.payments, p)
  {
    forall p | 0 <= p < |x.payments| ensures PaymentPosted(x.ledger, x.payments, p) {
      PaymentStaysPosted(b.ledger, x.ledger, b.payments, x.payments, p);
    }
  }

  lemma {:induction false} RecordsStayPosted(b: Books, x: Books)
    requires Posted(b) && b.ledger <= x.ledger && x.records == b.records
    ensures forall i :: 0 <= i < |x.records| ==> RecordPosted(x.ledger, x.records, i)
  {
    forall i | 0 <= i < |x.records| ensures RecordPosted(x.ledger, x.records, i) {
      RecordStaysPosted(b.ledger, x.ledger, b.records, x.records, i);
    }
  }

  lemma {:induction false} ReplaceRecordPosts(b: Books, i: nat, replacement: Record)
    requires Posted(b) && i < |b.records| && b.records[i].status == Active
    requires replacement.status == Active && replacement.corrects == Some(i)
    ensures Posted(ReplaceRecord(b, i, replacement).books)
  {
    var x := ReplaceRecord(b, i, replacement);
    if x.error.None? {
      PostedEntry(WithReplacement(b, i, replacement), AdjustmentPosting(b.records[i], i, replacement.charge));
      SupersededStaysPosted(b.ledger, x.books.ledger, b.records, i);
      forall j | 0 <= j < |x.books.records| ensures RecordPosted(x.books.ledger, x.books.records, j) {
        if j < |b.records| && j != i {
          RecordStaysPosted(b.ledger, x.books.ledger, b.records, x.books.records, j);
        }
      }
      PaymentsStayPosted(b, x.books);
    }
  }

  lemma {:induction false} SupersededStaysPosted(es: seq<Entry>, es': seq<Entry>, rs: seq<Record>, i: nat)
    requires es <= es' && i < |rs| && rs[i].status == Active && RecordPosted(es, rs, i)
    ensures rs[i].charge != 0 && rs[i].corrects.None? ==>
              HasEntry(es', FromRecord, i, ChargeEntry, rs[i].customer, rs[i].charge)
  {
    if rs[i].charge != 0 && rs[i].corrects.None? {
      EntryStays(es, es', FromRecord, i, ChargeEntry, rs[i].customer, rs[i].charge);
    }
  }

  lemma {:induction false} EndRecordPosts(b: Books, i: nat)
    requires Posted(b) && i < |b.records| && b.records[i].status == Active
    ensures Posted(EndRecord(b, i).books)
  {
    var x := EndRecord(b, i);
    if x.error.None? {
      PostedEntry(WithoutRecord(b, i), AdjustmentPosting(b.records[i], i, 0));
      SupersededStaysPosted(b.ledger, x.books.ledger, b.records, i);
      forall j | 0 <= j < |b.records| && j != i ensures RecordPosted(x.books.ledger, x.books.records, j) {
        RecordStaysPosted(b.ledger, x.books.ledger, b.records, x.books.records, j);
      }
      PaymentsStayPosted(b, x.books);
    }
  }

  lemma {:induction false} InsertPaymentPosts(b: Books, payment: Payment)
    requires Posted(b) && payment.status == Recorded && payment.amount != 0
    ensures Posted(InsertPayment(b, payment).books)
  {
    var x := InsertPayment(b, payment);
    if x.error.None? {
      PostedEntry(WithPayment(b, payment), PaymentPosting(payment, |b.payments|));
      forall p | 0 <= p < |b.payments| ensures PaymentPosted(x.books.ledger, x.books.payments, p) {
        PaymentStaysPosted(b.ledger, x.books.ledger, b.payments, x.books.payments, p);
      }
      RecordsStayPosted(b, x.books);
    }
  }

  lemma {:induction false} ReversePaymentPosts(b: Books, p: nat)
    requires Posted(b) && p < |b.payments| && b.payments[p].amount != 0
    ensures Posted(ReversePayment(b, p).books)
  {
    var x := ReversePayment(b, p);
    if x.error.None? {
      PostedEntry(WithReversal(b, p), ReversalPosting(b.payments[p], p));
      assert PaymentPosted(b.ledger, b.payments, p);
      EntryStays(b.ledger, x.books.ledger, FromPayment, p, PaymentEntry, b.payments[p].customer, -b.payments[p].amount);
      forall q | 0 <= q < |b.payments| && q != p ensures PaymentPosted(x.books.ledger, x.books.payments, q) {
        PaymentStaysPosted(b.ledger, x.books.ledger, b.payments, x.books.payments, q);
      }
      RecordsStayPosted(b, x.books);
    }
  }

  lemma {:induction false} ServicePosts(b: Books, cmd: Command)
    requires Posted(b) && (cmd.RecordServiceCmd? || cmd.CorrectServiceCmd? || cmd.VoidServiceCmd?)
    ensures Posted(Apply(b, cmd).books)
  {
    match cmd
    case RecordServiceCmd(c, kind, quantity, date) =>
      if c < |b.customers| && ResolveCharge(kind, quantity, b.customers[c].unitPrice).Some? {
        var price := b.customers[c].unitPrice;
        var (milli, charge) := ResolveCharge(kind, quantity, price).value;
        var on := if date.Some? then date.value else b.today;
        ChargeIsNonNegative(kind, quantity, price);
        InsertRecordPosts(b, Record(c, on, milli, price, charge, kind, Active, None, None, None, b.nextVersion));
      }
    case CorrectServiceCmd(i, kind, quantity, _) =>
      if i < |b.records| && b.records[i].status == Active
         && ResolveCharge(kind, quantity, b.records[i].unitPrice).Some? {
        var (milli, charge) := ResolveCharge(kind, quantity, b.records[i].unitPrice).value;
        ReplaceRecordPosts(b, i, Replacement(b, i, kind, milli, charge));
      }
    case VoidServiceCmd(i, _) =>
      if i < |b.records| && b.records[i].status == Active {
        EndRecordPosts(b, i);
      }
  }

  lemma {:induction false} PaymentsPost(b: Books, cmd: Command)
    requires PaymentsOk(b.today, b.payments) && Posted(b) && (cmd.RecordPaymentCmd? || cmd.VoidPaymentCmd?)
    ensures Posted(Apply(b, cmd).books)
  {
    match cmd
    case RecordPaymentCmd(_, amount, date) =>
      if 0 < amount {
        var on := if date.Some? then date.value else b.today;
        InsertPaymentPosts(b, Payment(cmd.customer, amount, on, Recorded, b.nextVersion));
      }
    case VoidPaymentCmd(p, _) =>
      if p < |b.payments| && b.payments[p].status == Recorded {
        ReversePaymentPosts(b, p);
      }
  }

  lemma {:induction false} ApplyPosts(b: Books, cmd: Command)
    requires PaymentsOk(b.today, b.payments) && Posted(b)
    ensures Posted(Apply(b, cmd).books)
  {
    if cmd.RecordPaymentCmd? || cmd.VoidPaymentCmd? {
      PaymentsPost(b, cmd);
    } else if IsPosting(cmd) {
      ServicePosts(b, cmd);
    } else if cmd.CloseCycleCmd? {
      CloseLeavesPosted(b, cmd.cycle);
    }
  }

  lemma {:induction false} CloseLeavesPosted(b: Books, k: nat)
    ensures var x := CloseCycle(b, k).books;
            x.ledger == b.ledger && x.records == b.records && x.payments == b.payments
  {
  }

  /** In every reachable state every document has posted exactly what it says. */
  lemma {:induction false} RunPosts(today: Date, startDay: StartDay, commands: seq<Command>)
    ensures Posted(Run(today, startDay, commands))
  {
    if commands != [] {
      var before := commands[..|commands| - 1];
      RunPosts(today, startDay, before);
      RunKeeps(today, startDay, before);
      ApplyPosts(Run(today, startDay, before), commands[|commands| - 1]);
    }
  }

  // ---- a void undoes ----------------------------------------------------------

  /** The ledger without two of its entries. */
  function Without(es: seq<Entry>, x: nat, y: nat): seq<Entry>
    requires x < |es| && y < |es| && x != y
  {
    if x < y then es[..x] + es[x + 1..y] + es[y + 1..] else es[..y] + es[y + 1..x] + es[x + 1..]
  }

  lemma {:induction false} SumJoins(
      a: seq<Entry>, b: seq<Entry>, customer: Option<nat>, cycles: Option<set<nat>>, part: Part)
    ensures Sum(a + b, customer, cycles, part) == Sum(a, customer, cycles, part) + Sum(b, customer, cycles, part)
  {
    if b == [] {
      assert a + b == a;
    } else {
      var last: nat := |b| - 1;
      SumJoins(a, b[..last], customer, cycles, part);
      assert (a + b)[..|a| + last] == a + b[..last];
    }
  }

  function Amount(e: Entry, customer: Option<nat>, cycles: Option<set<nat>>, part: Part): int {
    if InScope(e, customer, cycles) && InPart(e, part) then e.amount else 0
  }

  lemma {:induction false} SumWithoutOne(
      es: seq<Entry>, x: nat, customer: Option<nat>, cycles: Option<set<nat>>, part: Part)
    requires x < |es|
    ensures Sum(es, customer, cycles, part)
            == Sum(es[..x] + es[x + 1..], customer, cycles, part) + Amount(es[x], customer, cycles, part)
  {
    assert es == (es[..x] + [es[x]]) + es[x + 1..];
    SumJoins(es[..x] + [es[x]], es[x + 1..], customer, cycles, part);
    SumAppend(es[..x], es[x], customer, cycles, part);
    SumJoins(es[..x], es[x + 1..], customer, cycles, part);
  }

  lemma {:induction false} SumWithout(
      es: seq<Entry>, x: nat, y: nat, customer: Option<nat>, cycles: Option<set<nat>>, part: Part)
    requires x < |es| && y < |es| && x != y
    ensures Sum(es, customer, cycles, part)
            == Sum(Without(es, x, y), customer, cycles, part)
               + Amount(es[x], customer, cycles, part) + Amount(es[y], customer, cycles, part)
  {
    var lo, hi := if x < y then x else y, if x < y then y else x;
    var rest := es[..hi] + es[hi + 1..];
    SumWithoutOne(es, hi, customer, cycles, part);
    SumWithoutOne(rest, lo, customer, cycles, part);
    CutTwice(es, lo, hi, rest);
  }

  lemma {:induction false} CutTwice(es: seq<Entry>, lo: nat, hi: nat, rest: seq<Entry>)
    requires lo < hi < |es| && rest == es[..hi] + es[hi + 1..]
    ensures rest[lo] == es[lo] && rest[..lo] + rest[lo + 1..] == Without(es, lo, hi) == Without(es, hi, lo)
  {
    assert rest[..lo] == es[..lo];
    assert rest[lo + 1..] == es[lo + 1..hi] + es[hi + 1..];
  }

  /** The same figures in one scope. */
  ghost predicate SameFigures(es: seq<Entry>, es': seq<Entry>, customer: Option<nat>, cycles: Option<set<nat>>) {
    Outstanding(es', customer, cycles) == Outstanding(es, customer, cycles)
    && Generated(es', customer, cycles) == Generated(es, customer, cycles)
    && Collected(es', customer, cycles) == Collected(es, customer, cycles)
  }

  /** The scope takes in one of the two entries and not the other. */
  ghost predicate Separates(e: Entry, f: Entry, customer: Option<nat>, cycles: Option<set<nat>>) {
    InScope(e, customer, cycles) != InScope(f, customer, cycles)
  }

  /** Two entries of opposite amounts that the figures treat alike cancel in every scope that
      does not separate them, and in no other. */
  lemma {:induction false} OppositeEntriesCancel(
      es: seq<Entry>, x: nat, y: nat, customer: Option<nat>, cycles: Option<set<nat>>)
    requires x < |es| && y < |es| && x != y && es[x].amount == -es[y].amount && es[x].amount != 0
    requires es[y].kind == AdjustmentEntry
    requires (es[x].kind == ChargeEntry && es[y].origin == FromRecord)
          || (es[x].kind == PaymentEntry && es[y].origin == FromPayment)
    ensures SameFigures(Without(es, x, y), es, customer, cycles) <==> !Separates(es[x], es[y], customer, cycles)
  {
    SumWithout(es, x, y, customer, cycles, Whole);
    SumWithout(es, x, y, customer, cycles, Charges);
    SumWithout(es, x, y, customer, cycles, ServiceAdjustments);
    SumWithout(es, x, y, customer, cycles, PaymentsMade);
    SumWithout(es, x, y, customer, cycles, PaymentReversals);
  }

  /** A void undoes its document in one scope: taking its two entries out leaves the figures
      as they are. */
  ghost predicate UndoneIn(es: seq<Entry>, x: nat, y: nat, customer: Option<nat>, cycles: Option<set<nat>>) {
    x < |es| && y < |es| && x != y && SameFigures(Without(es, x, y), es, customer, cycles)
  }

  /** In every reachable state a voided payment has two entries, and figures read as if it
      had never been taken, in exactly the scopes that do not separate the cycle it was posted
      in from the cycle its void was: in all of them when both fell into one cycle, whatever
      happened between or since. */
  lemma {:induction false} PaymentUndone(
      today: Date, startDay: StartDay, commands: seq<Command>, p: nat, customer: Option<nat>, cycles: Option<set<nat>>)
    returns (x: nat, y: nat)
    requires var ps := Run(today, startDay, commands).payments; p < |ps| && ps[p].status == Reversed
    ensures var b := Run(today, startDay, commands);
            x < |b.ledger| && y < |b.ledger|
            && EntryOf(b.ledger[x], FromPayment, p, PaymentEntry, b.payments[p].customer, -b.payments[p].amount)
            && EntryOf(b.ledger[y], FromPayment, p, AdjustmentEntry, b.payments[p].customer, b.payments[p].amount)
            && (UndoneIn(b.ledger, x, y, customer, cycles)
                <==> !Separates(b.ledger[x], b.ledger[y], customer, cycles))
            && (b.ledger[x].cycle == b.ledger[y].cycle ==> UndoneIn(b.ledger, x, y, customer, cycles))
  {
    var b := Run(today, startDay, commands);
    RunPosts(today, startDay, commands);
    assert 0 < b.payments[p].amount by { RunKeeps(today, startDay, commands); }
    assert PaymentPosted(b.ledger, b.payments, p);
    x, y := BothEntries(b.ledger, FromPayment, p, PaymentEntry, b.payments[p].customer, -b.payments[p].amount);
    OppositeEntriesCancel(b.ledger, x, y, customer, cycles);
  }

  lemma {:induction false} BothEntries(
      es: seq<Entry>, origin: Origin, id: nat, kind: EntryKind, customer: nat, amount: int)
    returns (x: nat, y: nat)
    requires HasEntry(es, origin, id, kind, customer, amount)
             && HasEntry(es, origin, id, AdjustmentEntry, customer, -amount)
    requires kind != AdjustmentEntry
    ensures x < |es| && y < |es| && x != y && EntryOf(es[x], origin, id, kind, customer, amount)
    ensures EntryOf(es[y], origin, id, AdjustmentEntry, customer, -amount)
  {
    x :| 0 <= x < |es| && EntryOf(es[x], origin, id, kind, customer, amount);
    y :| 0 <= y < |es| && EntryOf(es[y], origin, id, AdjustmentEntry, customer, -amount);
  }

  /** The same of a voided record that corrected nothing; with a charge of zero it never had
      an entry. */
  lemma {:induction false} ServiceUndone(
      today: Date, startDay: StartDay, commands: seq<Command>, i: nat, customer: Option<nat>, cycles: Option<set<nat>>)
    returns (x: nat, y: nat)
    requires var rs := Run(today, startDay, commands).records;
             i < |rs| && rs[i].status == Voided && rs[i].corrects.None? && rs[i].charge != 0
    ensures var b := Run(today, startDay, commands);
            x < |b.ledger| && y < |b.ledger|
            && EntryOf(b.ledger[x], FromRecord, i, ChargeEntry, b.records[i].customer, b.records[i].charge)
            && EntryOf(b.ledger[y], FromRecord, i, AdjustmentEntry, b.records[i].customer, -b.records[i].charge)
            && (UndoneIn(b.ledger, x, y, customer, cycles)
                <==> !Separates(b.ledger[x], b.ledger[y], customer, cycles))
            && (b.ledger[x].cycle == b.ledger[y].cycle ==> UndoneIn(b.ledger, x, y, customer, cycles))
  {
    var b := Run(today, startDay, commands);
    RunPosts(today, startDay, commands);
    assert RecordPosted(b.ledger, b.records, i);
    x, y := BothEntries(b.ledger, FromRecord, i, ChargeEntry, b.records[i].customer, b.records[i].charge);
    OppositeEntriesCancel(b.ledger, x, y, customer, cycles);
  }

  // ---- commission over runs ----------------------------------------------------

  /** In every reachable state each correction chain has at most one earning event. */
  lemma {:induction false} OneEventPerChain(today: Date, startDay: StartDay, commands: seq<Command>, k: nat, m: nat)
    requires var t := Run(today, startDay, commands).earnings;
             k < m < |t.events| && t.events[k].source.OfRecord? && t.events[m].source.OfRecord?
    ensures var b := Run(today, startDay, commands);
            var i, j := b.earnings.events[k].source.id, b.earnings.events[m].source.id;
            i < |b.records| && j < |b.records| && Tail(b.records, i) != Tail(b.records, j)
  {
    var b := Run(today, startDay, commands);
    RunKeeps(today, startDay, commands);
    assert EventHolds(b.records, b.payments, BilledValues(b.statements), b.earnings, k);
    assert EventHolds(b.records, b.payments, BilledValues(b.statements), b.earnings, m);
  }

  lemma {:induction false} RunEarnings(today: Date, startDay: StartDay, commands: seq<Command>)
    ensures var b := Run(today, startDay, commands);
            CommissionInv(b.records, b.payments, BilledValues(b.statements), b.earnings)
  {
    RunKeeps(today, startDay, commands);
  }

  /** A rated chain's net is within half a unit per rounding of the rate on its accepted
      charge, and exactly zero once the earning record itself was voided. */
  ghost predicate DriftBounded(rs: seq<Record>, t: Earnings, k: nat) {
    k < |t.events| && t.events[k].source.OfRecord? && t.events[k].terms.Rated? ==>
      var e, rate := t.events[k].source.id, t.events[k].terms.rate;
      e < |rs|
      && Abs(RATE_BP_SCALE * Net(t, k) - rate * AcceptedValue(rs[Tail(rs, e)]))
         <= 5000 * (AdjustmentCount(t.adjustments, k) + 1)
      && (rs[e].status == Voided ==> Net(t, k) == 0)
  }

  /** A PER_EVENT chain nets the fee times one minus its ended SKIPs and voids, which is
      the promised fee exactly when no SKIP after the earning record has itself ended. */
  ghost predicate PerEventExact(rs: seq<Record>, t: Earnings, k: nat) {
    k < |t.events| && t.events[k].source.OfRecord? && t.events[k].terms.PerEvent? ==>
      var e, fixed := t.events[k].source.id, t.events[k].terms.fixed;
      e < |rs| && Net(t, k) == fixed * (1 - Drops(rs, e))
      && (Net(t, k) == PromisedFee(rs, e, fixed) <==> fixed == 0 || EndedSkipsAfter(rs, e) == 0)
  }

  lemma {:induction false} EventIsBounded(rs: seq<Record>, ps: seq<Payment>, billed: seq<int>, t: Earnings, k: nat)
    requires CommissionInv(rs, ps, billed, t)
    ensures DriftBounded(rs, t, k) && PerEventExact(rs, t, k)
  {
    if k < |t.events| && t.events[k].source.OfRecord? {
      if t.events[k].terms.Rated? {
        DriftBound(rs, ps, billed, t, k);
      } else {
        PerEventNet(rs, ps, billed, t, k);
      }
    }
  }

  /** Both hold of every event in every reachable state. */
  lemma {:induction false} RunCommission(today: Date, startDay: StartDay, commands: seq<Command>, k: nat)
    ensures var b := Run(today, startDay, commands); DriftBounded(b.records, b.earnings, k)
    ensures var b := Run(today, startDay, commands); PerEventExact(b.records, b.earnings, k)
  {
    var b := Run(today, startDay, commands);
    RunEarnings(today, startDay, commands);
    EventIsBounded(b.records, b.payments, BilledValues(b.statements), b.earnings, k);
  }
}
