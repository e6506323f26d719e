/** Which operations reach the ledger, the cycles and the feed tables, and that each of them
    takes the tenant's feed lock. */
module BooksLocking {
  import opened Outcomes
  import opened Calendar
  import opened Money
  import opened Records
  import opened Payments
  import opened Commission
  import opened Ledger
  import opened Books
  import opened BooksInvariants
  import opened BooksRuns
  import Ops = OpTypes

  /** The operation type a command registers under; a new day and the draws of other tenants
      are not operations. */
  function OpOf(cmd: Command): Option<Ops.OpType> {
    match cmd
    case RecordServiceCmd(_, kind, _, _) => Some(if kind == Skip then Ops.ServiceSkip else Ops.ServiceRecord)
    case CorrectServiceCmd(_, _, _, _) => Some(Ops.ServiceCorrect)
    case VoidServiceCmd(_, _) => Some(Ops.ServiceVoid)
    case RecordPaymentCmd(_, _, _) => Some(Ops.PaymentRecord)
    case VoidPaymentCmd(_, _) => Some(Ops.PaymentVoid)
    case CloseCycleCmd(_) => Some(Ops.CycleClose)
    case CreatePlanCmd(_) => Some(Ops.PlanCreate)
    case SetCustomer(_, _) => Some(Ops.CustomerUpdate)
    case AdvanceTo(_) => None
    case BurnVersions(_) => None
  }

  /** The command posted an entry, opened a cycle, or was refused because the open cycle has
      ended: it reached the posting site. */
  ghost predicate ReachesLedger(b: Books, x: Outcome) {
    x.books.ledger != b.ledger || |b.cycles| < |x.books.cycles| || x.error == Some(RolloverRequired)
  }

  /** The command changed something the feed carries. */
  ghost predicate WritesFeed(b: Books, x: Outcome) {
    x.books.records != b.records || x.books.payments != b.payments || x.books.statements != b.statements
    || x.books.customers != b.customers
  }

  /** A SKIP posts nothing, so it never looks for the open cycle. */
  lemma {:induction false} SkipsDoNotPost(b: Books, customer: nat, quantity: Option<Decimal>, date: Option<Date>)
    ensures !ReachesLedger(b, Apply(b, RecordServiceCmd(customer, Skip, quantity, date)))
  {
  }

  lemma {:induction false} ClosingDoesNotPost(b: Books, k: nat)
    ensures !ReachesLedger(b, CloseCycle(b, k))
  {
    if k < |b.cycles| {
      var closed := WithClosed(b, k);
      IssuingRefusals(closed, k, Billable(closed, k));
    }
  }

  lemma {:induction false} IssuingRefusals(b: Books, k: nat, cs: seq<nat>)
    requires k < |b.cycles|
    ensures IssueStatements(b, k, cs).Err? ==> IssueStatements(b, k, cs).error.Integrity?
  {
    if cs != [] {
      IssuingRefusals(b, k, cs[..|cs| - 1]);
    }
  }

  /** Every command that reaches the posting site belongs to an operation that posts, and every
      such operation takes the feed lock; and so does every command that changes a table the
      feed carries, or the state of a cycle. */
  lemma {:induction false} PostingTakesTheLock(b: Books, cmd: Command)
    ensures ReachesLedger(b, Apply(b, cmd)) ==>
              OpOf(cmd).Some? && Ops.Posts(OpOf(cmd).value) && Ops.FeedWriting(OpOf(cmd).value)
    ensures WritesFeed(b, Apply(b, cmd)) || Apply(b, cmd).books.cycles != b.cycles ==>
              OpOf(cmd).Some? && Ops.FeedWriting(OpOf(cmd).value)
  {
    match cmd
    case RecordServiceCmd(customer, kind, quantity, date) =>
      if kind == Skip {
        SkipsDoNotPost(b, customer, quantity, date);
      }
    case CloseCycleCmd(k) => ClosingDoesNotPost(b, k);
    case _ =>
  }
}
