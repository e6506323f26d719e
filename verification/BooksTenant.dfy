/** A tenant's store together with the commands it has executed: whatever is executed, the
    tables are the state of that run, so everything proved over runs holds of them. */
module BooksTenant {
  import opened Outcomes
  import opened Calendar
  import opened Ranges
  import opened Records
  import opened Commission
  import opened Books
  import opened BooksInvariants
  import opened BooksRuns
  import opened BooksCommands
  import opened BooksStore

  class Tenant {
    const store: Store
    const since: Date
    ghost var history: seq<Command>

    ghost predicate Valid()
      reads this, store
    {
      store.View() == Run(since, store.startDay, history)
    }

    constructor (today: Date, startDay: StartDay)
      ensures Valid() && history == [] && fresh(store)
    {
      since, history := today, [];
      store := new Store(today, startDay);
    }

    /** Execute one command as a transaction: it is refused for the reason it should be, or
        leaves what it should. No unique index or CHECK constraint ever refuses it. */
    method Execute(cmd: Command) returns (error: Option<Error>)
      requires Valid()
      modifies this, store
      ensures Valid() && history == old(history) + [cmd]
      ensures Apply(old(store.View()), cmd) == Outcome(store.View(), error)
      ensures !(error.Some? && error.value.Integrity?)
      ensures Does(old(store.View()), cmd, Outcome(store.View(), error))
    {
      EveryRunDoes(since, store.startDay, history, cmd);
      NextCommand(since, store.startDay, history, cmd);
      error := Dispatch(cmd);
      history := history + [cmd];
    }

    method Dispatch(cmd: Command) returns (error: Option<Error>)
      requires Chained(store.records)
      modifies store
      ensures Apply(old(store.View()), cmd) == Outcome(store.View(), error)
    {
      match cmd
      case RecordServiceCmd(customer, kind, quantity, date) => error := store.Record(customer, kind, quantity, date);
      case CorrectServiceCmd(record, kind, quantity, blank) => error := store.Correct(record, kind, quantity, blank);
      case VoidServiceCmd(record, blank) => error := store.Void(record, blank);
      case RecordPaymentCmd(customer, amount, date) => error := store.Pay(customer, amount, date);
      case VoidPaymentCmd(payment, blank) => error := store.VoidPaid(payment, blank);
      case CloseCycleCmd(cycle) => error := store.Close(cycle);
      case CreatePlanCmd(plan) => error := AddPlan(plan);
      case SetCustomer(customer, row) => error := store.Put(customer, row);
      case AdvanceTo(today) => if store.today.Key() <= today.Key() { store.today := today; } error := None;
      case BurnVersions(count) => store.nextVersion := store.nextVersion + count; error := None;
    }

    method AddPlan(plan: Plan) returns (error: Option<Error>)
      modifies store`plans
      ensures CreatePlan(old(store.View()), plan) == Outcome(store.View(), error)
    {
      if !ValidTerms(plan.terms) {
        return Some(BadTerms);
      }
      var created := Create(store.plans, plan);
      if created.Err? {
        return Some(PlanRefused(created.error));
      }
      store.plans := created.value;
      return None;
    }
  }

  /** What one more command finds, and where it leads. */
  lemma {:induction false} NextCommand(today: Date, startDay: StartDay, history: seq<Command>, cmd: Command)
    ensures var b := Run(today, startDay, history);
            Chained(b.records)
            && Apply(b, cmd).books == Run(today, startDay, history + [cmd])
            && !(Apply(b, cmd).error.Some? && Apply(b, cmd).error.value.Integrity?)
  {
    var b := Run(today, startDay, history);
    assert (history + [cmd])[..|history|] == history;
    RunKeeps(today, startDay, history);
    assert Chained(b.records) by { ReachableChains(b); }
    assert Keeps(Apply(b, cmd));
  }

  lemma {:induction false} ReachableChains(b: Books)
    requires Inv(b)
    ensures Chained(b.records)
  {
  }
}
