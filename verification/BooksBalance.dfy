/** The simple meaning of the figures: what was generated is the active charges, what was
    collected is the live payments, and what is outstanding is their difference. The ledger's
    sums equal them in every reachable state, for every customer and for the tenant. */
module BooksBalance {
  import opened Outcomes
  import opened Calendar
  import opened Money
  import opened Records
  import opened Payments
  import opened Commission
  import opened Ledger
  import opened Books
  import opened BooksInvariants

  function ActiveCharges(rs: seq<Record>, customer: Option<nat>): int {
    if rs == [] then 0
    else
      var last := rs[|rs| - 1];
      ActiveCharges(rs[..|rs| - 1], customer)
      + if customer.None? || last.customer == customer.value then AcceptedValue(last) else 0
  }

  function LiveAmount(p: Payment): int {
    if p.status == Recorded then p.amount else 0
  }

  function LivePayments(ps: seq<Payment>, customer: Option<nat>): int {
    if ps == [] then 0
    else
      var last := ps[|ps| - 1];
      LivePayments(ps[..|ps| - 1], customer)
      + if customer.None? || last.customer == customer.value then LiveAmount(last) else 0
  }

  ghost predicate Balanced(b: Books, customer: Option<nat>) {
    Generated(b.ledger, customer, None) == ActiveCharges(b.records, customer)
    && Collected(b.ledger, customer, None) == LivePayments(b.payments, customer)
    && Outstanding(b.ledger, customer, None) == ActiveCharges(b.records, customer) - LivePayments(b.payments, customer)
  }

  // ---- how the two sums move ---------------------------------------------------

  lemma {:induction false} ChargesAppend(rs: seq<Record>, r: Record, customer: Option<nat>)
    ensures ActiveCharges(rs + [r], customer)
            == ActiveCharges(rs, customer)
               + if customer.None? || r.customer == customer.value then AcceptedValue(r) else 0
  {
    assert (rs + [r])[..|rs|] == rs;
  }

  lemma {:induction false} ChargesUpdate(rs: seq<Record>, i: nat, r: Record, customer: Option<nat>)
    requires i < |rs| && r.customer == rs[i].customer
    ensures ActiveCharges(rs[i := r], customer)
            == ActiveCharges(rs, customer)
               + if customer.None? || r.customer == customer.value then AcceptedValue(r) - AcceptedValue(rs[i]) else 0
  {
    var last := |rs| - 1;
    if i == last {
      assert rs[i := r][..last] == rs[..last];
    } else {
      assert rs[i := r][..last] == rs[..last][i := r];
      ChargesUpdate(rs[..last], i, r, customer);
    }
  }

  lemma {:induction false} PaymentsAppend(ps: seq<Payment>, p: Payment, customer: Option<nat>)
    ensures LivePayments(ps + [p], customer)
            == LivePayments(ps, customer) + if customer.None? || p.customer == customer.value then LiveAmount(p) else 0
  {
    assert (ps + [p])[..|ps|] == ps;
  }

  lemma {:induction false} PaymentsUpdate(ps: seq<Payment>, i: nat, p: Payment, customer: Option<nat>)
    requires i < |ps| && p.customer == ps[i].customer
    ensures LivePayments(ps[i := p], customer)
            == LivePayments(ps, customer)
               + if customer.None? || p.customer == customer.value then LiveAmount(p) - LiveAmount(ps[i]) else 0
  {
    var last := |ps| - 1;
    if i == last {
      assert ps[i := p][..last] == ps[..last];
    } else {
      assert ps[i := p][..last] == ps[..last][i := p];
      PaymentsUpdate(ps[..last], i, p, customer);
    }
  }

  // ---- every command keeps the balance -----------------------------------------

  /** The amount a posting adds to one scope. */
  function PostedAmount(p: Posting, customer: Option<nat>): int {
    if customer.None? || p.customer == customer.value then p.amount else 0
  }

  /** A posting moves what its document moved: charges for a record, payments for a payment. */
  ghost predicate PostsTheMove(b: Books, b1: Books, p: Posting, customer: Option<nat>) {
    var charges := ActiveCharges(b1.records, customer) - ActiveCharges(b.records, customer);
    var payments := LivePayments(b1.payments, customer) - LivePayments(b.payments, customer);
    match p.origin
    case FromRecord => (p.kind == ChargeEntry || p.kind == AdjustmentEntry) && charges == PostedAmount(p, customer)
      && payments == 0
    case FromPayment => (p.kind == PaymentEntry || p.kind == AdjustmentEntry) && payments == -PostedAmount(p, customer)
      && charges == 0
    case FromOpening => false
  }

  lemma {:induction false} FiguresAppend(es: seq<Entry>, e: Entry, customer: Option<nat>, cycles: Option<set<nat>>)
    ensures var amount := if InScope(e, customer, cycles) then e.amount else 0;
            Outstanding(es + [e], customer, cycles) == Outstanding(es, customer, cycles) + amount
            && Generated(es + [e], customer, cycles)
               == Generated(es, customer, cycles)
                  + (if InPart(e, Charges) || InPart(e, ServiceAdjustments) then amount else 0)
            && Collected(es + [e], customer, cycles)
               == Collected(es, customer, cycles)
                  - (if InPart(e, PaymentsMade) || InPart(e, PaymentReversals) then amount else 0)
  {
    SumAppend(es, e, customer, cycles, Whole);
    SumAppend(es, e, customer, cycles, Charges);
    SumAppend(es, e, customer, cycles, ServiceAdjustments);
    SumAppend(es, e, customer, cycles, PaymentsMade);
    SumAppend(es, e, customer, cycles, PaymentReversals);
  }

  /** A posting command keeps the balance when it posts what its documents moved by. */
  lemma {:induction false} SettleBalances(
      b: Books, b1: Books, p: Posting, earnings: Earnings, drawn: nat, customer: Option<nat>)
    requires Balanced(b, customer) && b1.ledger == b.ledger
    requires PostsTheMove(b, b1, p, customer)
    ensures Balanced(Settle(b, PostEntry(b1, p), earnings, drawn).books, customer)
  {
    if p.amount != 0 && PostEntry(b1, p).Ok? {
      var e := p.AsEntry(EnsureOpenCycle(b1).value.1, b1.nextVersion);
      assert PostEntry(b1, p).value.ledger == b1.ledger + [e];
      FiguresAppend(b1.ledger, e, customer, None);
    }
  }

  lemma {:induction false} InsertRecordBalances(b: Books, record: Record, customer: Option<nat>)
    requires Balanced(b, customer) && record.status == Active && (record.kind == Skip ==> record.charge == 0)
    ensures Balanced(InsertRecord(b, record).books, customer)
  {
    var b1 := WithRecord(b, record);
    ChargesAppend(b.records, record, customer);
    SettleBalances(b, b1, ChargePosting(record, |b.records|), OnServiceRecorded(b.earnings, b1.records, |b.records|), 1,
                   customer);
  }

  lemma {:induction false} ReplaceRecordBalances(b: Books, i: nat, replacement: Record, customer: Option<nat>)
    requires Balanced(b, customer) && i < |b.records| && b.records[i].status == Active
    requires replacement.status == Active && replacement.customer == b.records[i].customer
    ensures Balanced(ReplaceRecord(b, i, replacement).books, customer)
  {
    var b1 := WithReplacement(b, i, replacement);
    var ended := b.records[i].(status := Superseded, version := b.nextVersion, supersededBy := Some(|b.records|));
    ChargesUpdate(b.records, i, ended, customer);
    ChargesAppend(b.records[i := ended], replacement, customer);
    SettleBalances(b, b1, AdjustmentPosting(b.records[i], i, replacement.charge),
                   OnServiceCorrected(b.earnings, b1.records, i, |b.records|), 2, customer);
  }

  lemma {:induction false} EndRecordBalances(b: Books, i: nat, customer: Option<nat>)
    requires Balanced(b, customer) && i < |b.records| && b.records[i].status == Active
    ensures Balanced(EndRecord(b, i).books, customer)
  {
    var b1 := WithoutRecord(b, i);
    ChargesUpdate(b.records, i, b.records[i].(status := Voided, version := b.nextVersion), customer);
    SettleBalances(b, b1, AdjustmentPosting(b.records[i], i, 0), OnServiceVoided(b.earnings, b1.records, i), 1,
                   customer);
  }

  lemma {:induction false} InsertPaymentBalances(b: Books, payment: Payment, customer: Option<nat>)
    requires Balanced(b, customer) && payment.status == Recorded
    ensures Balanced(InsertPayment(b, payment).books, customer)
  {
    var b1 := WithPayment(b, payment);
    PaymentsAppend(b.payments, payment, customer);
    SettleBalances(b, b1, PaymentPosting(payment, |b.payments|),
                   OnPaymentRecorded(b.earnings, b1.payments, |b.payments|), 1, customer);
  }

  lemma {:induction false} ReversePaymentBalances(b: Books, p: nat, customer: Option<nat>)
    requires Balanced(b, customer) && p < |b.payments| && b.payments[p].status == Recorded
    ensures Balanced(ReversePayment(b, p).books, customer)
  {
    var b1 := WithReversal(b, p);
    PaymentsUpdate(b.payments, p, b.payments[p].(status := Reversed, version := b.nextVersion), customer);
    SettleBalances(b, b1, ReversalPosting(b.payments[p], p), OnPaymentVoided(b.earnings, b1.payments, p), 1, customer);
  }

  lemma {:induction false} RecordServiceBalances(
      b: Books, c: nat, kind: Kind, quantity: Option<Decimal>, date: Option<Date>, customer: Option<nat>)
    requires Balanced(b, customer)
    ensures Balanced(RecordService(b, c, kind, quantity, date).books, customer)
  {
    if c < |b.customers| && ResolveCharge(kind, quantity, b.customers[c].unitPrice).Some? {
      var price := b.customers[c].unitPrice;
      var (milli, charge) := ResolveCharge(kind, quantity, price).value;
      var on := if date.Some? then date.value else b.today;
      ChargeIsNonNegative(kind, quantity, price);
      InsertRecordBalances(b, Record(c, on, milli, price, charge, kind, Active, None, None, None, b.nextVersion),
                           customer);
    }
  }

  lemma {:induction false} ApplyBalances(b: Books, cmd: Command, customer: Option<nat>)
    requires Balanced(b, customer)
    ensures Balanced(Apply(b, cmd).books, customer)
  {
    match cmd
    case RecordServiceCmd(_, _, _, _) => ServiceBalances(b, cmd, customer);
    case CorrectServiceCmd(_, _, _, _) => ServiceBalances(b, cmd, customer);
    case VoidServiceCmd(_, _) => ServiceBalances(b, cmd, customer);
    case RecordPaymentCmd(_, amount, date) =>
      var on := if date.Some? then date.value else b.today;
      InsertPaymentBalances(b, Payment(cmd.customer, amount, on, Recorded, b.nextVersion), customer);
    case VoidPaymentCmd(p, _) =>
      if p < |b.payments| && b.payments[p].status == Recorded {
        ReversePaymentBalances(b, p, customer);
      }
    case _ =>
  }

  lemma {:induction false} ServiceBalances(b: Books, cmd: Command, customer: Option<nat>)
    requires Balanced(b, customer) && (cmd.RecordServiceCmd? || cmd.CorrectServiceCmd? || cmd.VoidServiceCmd?)
    ensures Balanced(Apply(b, cmd).books, customer)
  {
    match cmd
    case RecordServiceCmd(c, kind, quantity, date) => RecordServiceBalances(b, c, kind, quantity, date, customer);
    case CorrectServiceCmd(i, kind, quantity, _) =>
      if i < |b.records| && b.records[i].status == Active
         && ResolveCharge(kind, quantity, b.records[i].unitPrice).Some? {
        var (milli, charge) := ResolveCharge(kind, quantity, b.records[i].unitPrice).value;
        ReplaceRecordBalances(b, i, Replacement(b, i, kind, milli, charge), customer);
      }
    case VoidServiceCmd(i, _) =>
      if i < |b.records| && b.records[i].status == Active {
        EndRecordBalances(b, i, customer);
      }
  }

  /** In every reachable state the ledger says exactly what the documents say. */
  lemma {:induction false} RunBalances(today: Date, startDay: StartDay, commands: seq<Command>, customer: Option<nat>)
    ensures var b := Run(today, startDay, commands);
            Generated(b.ledger, customer, None) == ActiveCharges(b.records, customer)
            && Collected(b.ledger, customer, None) == LivePayments(b.payments, customer)
            && Outstanding(b.ledger, customer, None)
               == ActiveCharges(b.records, customer) - LivePayments(b.payments, customer)
  {
    if commands != [] {
      var last := |commands| - 1;
      RunBalances(today, startDay, commands[..last], customer);
      ApplyBalances(Run(today, startDay, commands[..last]), commands[last], customer);
    }
  }
}
