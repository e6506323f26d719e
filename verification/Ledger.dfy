/** The append-only ledger and the sums read from it. Every balance and every reported
    figure is one conditional sum over the entries. */
module Ledger {
  import opened Outcomes
  import opened Calendar

  datatype EntryKind = OpeningEntry | ChargeEntry | PaymentEntry | AdjustmentEntry

  datatype Origin = FromRecord | FromPayment | FromOpening

  datatype Entry = Entry(
    customer: nat,
    kind: EntryKind,
    amount: int,
    occurredOn: Date,
    cycle: nat,
    origin: Origin,
    sourceId: nat,
    version: nat)

  /** Which entries a figure sums, by kind and origin. */
  datatype Part = Whole | Charges | ServiceAdjustments | PaymentsMade | PaymentReversals

  predicate InPart(e: Entry, part: Part) {
    match part
    case Whole => true
    case Charges => e.kind == ChargeEntry
    case ServiceAdjustments => e.kind == AdjustmentEntry && e.origin == FromRecord
    case PaymentsMade => e.kind == PaymentEntry
    case PaymentReversals => e.kind == AdjustmentEntry && e.origin == FromPayment
  }

  /** `customer_id = ?` and `posting_cycle_id IN (...)`, each only when given. */
  predicate InScope(e: Entry, customer: Option<nat>, cycles: Option<set<nat>>) {
    (customer.Some? ==> e.customer == customer.value) && (cycles.Some? ==> e.cycle in cycles.value)
  }

  function Sum(es: seq<Entry>, customer: Option<nat>, cycles: Option<set<nat>>, part: Part): int {
    if es == [] then 0
    else
      var last := es[|es| - 1];
      Sum(es[..|es| - 1], customer, cycles, part)
      + if InScope(last, customer, cycles) && InPart(last, part) then last.amount else 0
  }

  lemma {:induction false} SumAppend(
      es: seq<Entry>, e: Entry, customer: Option<nat>, cycles: Option<set<nat>>, part: Part)
    ensures Sum(es + [e], customer, cycles, part)
            == Sum(es, customer, cycles, part) + if InScope(e, customer, cycles) && InPart(e, part) then e.amount else 0
  {
    assert (es + [e])[..|es|] == es;
  }

  // ---- the four derivations ----------------------------------------------------

  function Generated(es: seq<Entry>, customer: Option<nat>, cycles: Option<set<nat>>): int {
    Sum(es, customer, cycles, Charges) + Sum(es, customer, cycles, ServiceAdjustments)
  }

  function Collected(es: seq<Entry>, customer: Option<nat>, cycles: Option<set<nat>>): int {
    -(Sum(es, customer, cycles, PaymentsMade) + Sum(es, customer, cycles, PaymentReversals))
  }

  function Outstanding(es: seq<Entry>, customer: Option<nat>, cycles: Option<set<nat>>): int {
    Sum(es, customer, cycles, Whole)
  }

  /** An entry of one of the shapes the commands post: never an OPENING, a CHARGE only
      for a record, a PAYMENT only for a payment. */
  predicate WellFormed(e: Entry) {
    match e.kind
    case OpeningEntry => false
    case ChargeEntry => e.origin == FromRecord && 0 < e.amount
    case PaymentEntry => e.origin == FromPayment && e.amount < 0
    case AdjustmentEntry =>
      (e.origin == FromRecord && e.amount != 0) || (e.origin == FromPayment && 0 < e.amount)
  }

  ghost predicate AllWellFormed(es: seq<Entry>) {
    forall i :: 0 <= i < |es| ==> WellFormed(es[i])
  }

  /** In every scope, outstanding is what was generated minus what was collected. */
  lemma {:induction false} OutstandingIsGeneratedMinusCollected(
      es: seq<Entry>, customer: Option<nat>, cycles: Option<set<nat>>)
    requires AllWellFormed(es)
    ensures Outstanding(es, customer, cycles) == Generated(es, customer, cycles) - Collected(es, customer, cycles)
  {
    if es != [] {
      OutstandingIsGeneratedMinusCollected(es[..|es| - 1], customer, cycles);
      assert WellFormed(es[|es| - 1]);
    }
  }

  lemma {:induction false} SignsOfParts(es: seq<Entry>, customer: Option<nat>, cycles: Option<set<nat>>)
    requires AllWellFormed(es)
    ensures 0 <= Sum(es, customer, cycles, Charges)
    ensures Sum(es, customer, cycles, PaymentsMade) <= 0 <= Sum(es, customer, cycles, PaymentReversals)
  {
    if es != [] {
      SignsOfParts(es[..|es| - 1], customer, cycles);
      assert WellFormed(es[|es| - 1]);
    }
  }

  /** The ids below `k`. */
  function Below(k: nat): (r: set<nat>)
    ensures forall i :: i in r <==> 0 <= i < k
  {
    if k == 0 then {} else Below(k - 1) + {k - 1}
  }

  // ---- splitting and ignoring cycles -------------------------------------------

  lemma {:induction false} SumSplitsCycles(es: seq<Entry>, customer: Option<nat>, a: set<nat>, b: set<nat>, part: Part)
    requires a !! b
    ensures Sum(es, customer, Some(a + b), part) == Sum(es, customer, Some(a), part) + Sum(es, customer, Some(b), part)
  {
    if es != [] {
      SumSplitsCycles(es[..|es| - 1], customer, a, b, part);
    }
  }

  /** A cycle restriction that every entry meets is none at all. */
  lemma {:induction false} SumOfAllCycles(es: seq<Entry>, customer: Option<nat>, a: set<nat>, part: Part)
    requires forall i :: 0 <= i < |es| ==> es[i].cycle in a
    ensures Sum(es, customer, Some(a), part) == Sum(es, customer, None, part)
  {
    if es != [] {
      SumOfAllCycles(es[..|es| - 1], customer, a, part);
    }
  }

  /** Two cycle restrictions that agree on the entries' cycles give the same sum. */
  lemma {:induction false} SumDependsOnEntries(
      es: seq<Entry>, customer: Option<nat>, a: set<nat>, b: set<nat>, part: Part)
    requires forall i :: 0 <= i < |es| && (customer.Some? ==> es[i].customer == customer.value) ==>
               (es[i].cycle in a <==> es[i].cycle in b)
    ensures Sum(es, customer, Some(a), part) == Sum(es, customer, Some(b), part)
  {
    if es != [] {
      SumDependsOnEntries(es[..|es| - 1], customer, a, b, part);
    }
  }

  lemma {:induction false} SumOfNothing(es: seq<Entry>, customer: Option<nat>, a: set<nat>, part: Part)
    requires forall i :: 0 <= i < |es| && (customer.Some? ==> es[i].customer == customer.value) ==> es[i].cycle !in a
    ensures Sum(es, customer, Some(a), part) == 0
  {
    if es != [] {
      SumOfNothing(es[..|es| - 1], customer, a, part);
    }
  }

  // ---- summing customer by customer --------------------------------------------

  function SumOver(es: seq<Entry>, customers: seq<nat>, cycles: set<nat>, part: Part): int {
    if customers == [] then 0
    else
      var last := |customers| - 1;
      SumOver(es, customers[..last], cycles, part) + Sum(es, Some(customers[last]), Some(cycles), part)
  }

  ghost predicate Distinct(customers: seq<nat>) {
    forall i, j :: 0 <= i < j < |customers| ==> customers[i] != customers[j]
  }

  lemma {:induction false} SumOverAppend(es: seq<Entry>, e: Entry, customers: seq<nat>, cycles: set<nat>, part: Part)
    requires Distinct(customers)
    ensures SumOver(es + [e], customers, cycles, part)
            == SumOver(es, customers, cycles, part)
               + if e.customer in customers && e.cycle in cycles && InPart(e, part) then e.amount else 0
  {
    if customers != [] {
      var last := |customers| - 1;
      SumOverAppend(es, e, customers[..last], cycles, part);
      SumAppend(es, e, Some(customers[last]), Some(cycles), part);
      assert e.customer in customers <==> e.customer in customers[..last] || e.customer == customers[last];
    }
  }

  /** Summing over distinct customers that include everybody with an entry in these
      cycles is the tenant-wide sum. */
  lemma {:induction false} SumOverEverybody(es: seq<Entry>, customers: seq<nat>, cycles: set<nat>, part: Part)
    requires Distinct(customers)
    requires forall i :: 0 <= i < |es| && es[i].cycle in cycles ==> es[i].customer in customers
    ensures SumOver(es, customers, cycles, part) == Sum(es, None, Some(cycles), part)
  {
    if es == [] {
      SumOverNothing(customers, cycles, part);
    } else {
      var last := |es| - 1;
      assert es == es[..last] + [es[last]];
      SumOverEverybody(es[..last], customers, cycles, part);
      SumOverAppend(es[..last], es[last], customers, cycles, part);
    }
  }

  lemma {:induction false} SumOverNothing(customers: seq<nat>, cycles: set<nat>, part: Part)
    ensures SumOver([], customers, cycles, part) == 0
  {
    if customers != [] {
      SumOverNothing(customers[..|customers| - 1], cycles, part);
    }
  }
}
