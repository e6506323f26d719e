/** Every command in every reachable state: why it is refused or, if it is accepted,
    everything that it leaves behind. */
module BooksCommands {
  import opened Outcomes
  import opened Calendar
  import opened Money
  import opened Ranges
  import opened Records
  import opened Commission
  import opened Books
  import opened BooksInvariants
  import opened BooksRuns
  import opened BooksEffects
  import opened BooksCloseEffects
  import opened BooksRefusals

  /** A customer's row is written at a fresh version, as a new one under the next id; the
      other rows and tables stand. */
  ghost predicate WritesCustomer(b: Books, customer: nat, row: Customer, x: Outcome) {
    if |b.customers| < customer then IsRefusal(b, x, NotFound, 0)
    else
      x.error.None? && x.books == b.(customers := x.books.customers, nextVersion := b.nextVersion + 1)
      && |x.books.customers| == (if customer == |b.customers| then |b.customers| + 1 else |b.customers|)
      && (forall i :: 0 <= i < |b.customers| && i != customer ==> x.books.customers[i] == b.customers[i])
      && x.books.customers[customer] == row.(version := b.nextVersion)
  }

  /** The business date moves on, never back. */
  ghost predicate Advances(b: Books, today: Date, x: Outcome) {
    x.error.None? && x.books == b.(today := if today.Key() < b.today.Key() then b.today else today)
  }

  ghost predicate Does(b: Books, cmd: Command, x: Outcome) {
    match cmd
    case RecordServiceCmd(c, kind, quantity, date) =>
      RecordingRefusal(b, c, kind, quantity, On(b, date), x)
      && (x.error.None? ==> RecordsADay(b, x.books, c, kind, quantity, On(b, date)))
    case CorrectServiceCmd(i, kind, quantity, blank) =>
      CorrectionRefusal(b, i, kind, quantity, blank, x)
      && (x.error.None? ==> Corrects(b, x.books, i, kind, quantity))
    case VoidServiceCmd(i, blank) => VoidRefusal(b, i, blank, x) && (x.error.None? ==> Voids(b, x.books, i))
    case RecordPaymentCmd(c, amount, date) =>
      PaymentRefusal(b, c, amount, On(b, date), x)
      && (x.error.None? ==> TakesPayment(b, x.books, c, amount, On(b, date)))
    case VoidPaymentCmd(p, blank) =>
      ReversalRefusal(b, p, blank, x) && (x.error.None? ==> ReversesPayment(b, x.books, p))
    case CloseCycleCmd(k) => CloseRefusal(b, k, x) && (x.error.None? ==> Closes(b, x.books, k))
    case CreatePlanCmd(plan) => PlanCreation(b, plan, x)
    case SetCustomer(c, row) => WritesCustomer(b, c, row, x)
    case AdvanceTo(today) => Advances(b, today, x)
    case BurnVersions(count) => x == Outcome(b.(nextVersion := b.nextVersion + count), None)
  }

  lemma {:induction false} RecordingDoes(
      b: Books, c: nat, kind: Kind, quantity: Option<Decimal>, date: Option<Date>, x: Outcome)
    requires Inv(b) && x == RecordService(b, c, kind, quantity, date)
    ensures RecordingRefusal(b, c, kind, quantity, On(b, date), x)
    ensures x.error.None? ==> RecordsADay(b, x.books, c, kind, quantity, On(b, date))
  {
    RecordingRefused(b, c, kind, quantity, date);
    if x.error.None? {
      RecordingLeaves(b, c, kind, quantity, date, x.books);
    }
  }

  lemma {:induction false} CorrectionDoes(
      b: Books, i: nat, kind: Kind, quantity: Option<Decimal>, blank: bool, x: Outcome)
    requires Inv(b) && x == CorrectService(b, i, kind, quantity, blank)
    ensures CorrectionRefusal(b, i, kind, quantity, blank, x)
    ensures x.error.None? ==> Corrects(b, x.books, i, kind, quantity)
  {
    CorrectionRefused(b, i, kind, quantity, blank);
    if x.error.None? {
      CorrectionLeaves(b, i, kind, quantity, blank, x.books);
    }
  }

  lemma {:induction false} VoidDoes(b: Books, i: nat, blank: bool, x: Outcome)
    requires Inv(b) && x == VoidService(b, i, blank)
    ensures VoidRefusal(b, i, blank, x) && (x.error.None? ==> Voids(b, x.books, i))
  {
    VoidRefused(b, i, blank);
    if x.error.None? {
      VoidLeaves(b, i, blank, x.books);
    }
  }

  lemma {:induction false} PaymentDoes(b: Books, c: nat, amount: int, date: Option<Date>, x: Outcome)
    requires Inv(b) && x == RecordPayment(b, c, amount, date)
    ensures PaymentRefusal(b, c, amount, On(b, date), x)
    ensures x.error.None? ==> TakesPayment(b, x.books, c, amount, On(b, date))
  {
    PaymentRefused(b, c, amount, date);
    if x.error.None? {
      PaymentLeaves(b, c, amount, date, x.books);
    }
  }

  lemma {:induction false} ReversalDoes(b: Books, p: nat, blank: bool, x: Outcome)
    requires Inv(b) && x == VoidPayment(b, p, blank)
    ensures ReversalRefusal(b, p, blank, x) && (x.error.None? ==> ReversesPayment(b, x.books, p))
  {
    ReversalRefused(b, p, blank);
    if x.error.None? {
      ReversalLeaves(b, p, blank, x.books);
    }
  }

  lemma {:induction false} CloseDoes(b: Books, k: nat, x: Outcome)
    requires Inv(b) && x == CloseCycle(b, k)
    ensures CloseRefusal(b, k, x) && (x.error.None? ==> Closes(b, x.books, k))
  {
    CloseRefused(b, k);
    if x.error.None? {
      CloseLeaves(b, k, x.books);
    }
  }

  lemma PuttingWrites(b: Books, customer: nat, row: Customer)
    ensures WritesCustomer(b, customer, row, PutCustomer(b, customer, row))
  {
  }

  lemma {:induction false} AdvanceDoes(b: Books, today: Date)
    ensures Advances(b, today, Outcome(Advanced(b, today), None))
  {
  }

  lemma {:induction false} ServiceCommandDoes(b: Books, cmd: Command, x: Outcome)
    requires Inv(b) && x == Apply(b, cmd) && (cmd.RecordServiceCmd? || cmd.CorrectServiceCmd? || cmd.VoidServiceCmd?)
    ensures Does(b, cmd, x)
  {
    match cmd
    case RecordServiceCmd(c, kind, quantity, date) => RecordingDoes(b, c, kind, quantity, date, x);
    case CorrectServiceCmd(i, kind, quantity, blank) => CorrectionDoes(b, i, kind, quantity, blank, x);
    case VoidServiceCmd(i, blank) => VoidDoes(b, i, blank, x);
  }

  lemma {:induction false} PaymentCommandDoes(b: Books, cmd: Command, x: Outcome)
    requires Inv(b) && x == Apply(b, cmd) && (cmd.RecordPaymentCmd? || cmd.VoidPaymentCmd?)
    ensures Does(b, cmd, x)
  {
    match cmd
    case RecordPaymentCmd(c, amount, date) => PaymentDoes(b, c, amount, date, x);
    case VoidPaymentCmd(p, blank) => ReversalDoes(b, p, blank, x);
  }

  lemma {:induction false} OtherCommandDoes(b: Books, cmd: Command, x: Outcome)
    requires Inv(b) && x == Apply(b, cmd) && !IsPosting(cmd)
    ensures Does(b, cmd, x)
  {
    match cmd
    case CloseCycleCmd(k) => CloseDoes(b, k, x);
    case CreatePlanCmd(plan) => PlanCreated(b, plan);
    case SetCustomer(c, row) => PuttingWrites(b, c, row);
    case AdvanceTo(today) => AdvanceDoes(b, today);
    case BurnVersions(_) =>
  }

  /** Whatever the command and its arguments. */
  lemma {:induction false} EveryCommandDoes(b: Books, cmd: Command, x: Outcome)
    requires Inv(b) && x == Apply(b, cmd)
    ensures Does(b, cmd, x)
  {
    if cmd.RecordServiceCmd? || cmd.CorrectServiceCmd? || cmd.VoidServiceCmd? {
      ServiceCommandDoes(b, cmd, x);
    } else if cmd.RecordPaymentCmd? || cmd.VoidPaymentCmd? {
      PaymentCommandDoes(b, cmd, x);
    } else {
      OtherCommandDoes(b, cmd, x);
    }
  }

  /** In particular after every run. */
  lemma {:induction false} EveryRunDoes(today: Date, startDay: StartDay, commands: seq<Command>, cmd: Command)
    ensures var b := Run(today, startDay, commands); Does(b, cmd, Apply(b, cmd))
  {
    RunKeeps(today, startDay, commands);
    EveryCommandDoes(Run(today, startDay, commands), cmd, Apply(Run(today, startDay, commands), cmd));
  }
}
