/** How the record table evolves over a run, and what a client that follows the feed by
    `version` can therefore hold. */
module BooksHistory {
  import opened Outcomes
  import opened Calendar
  import opened Money
  import opened Records
  import opened Payments
  import opened Commission
  import opened Ledger
  import opened Books
  import opened BooksInvariants
  import opened BooksRuns

  ghost predicate SameSlot(r: Record, s: Record) {
    r.customer == s.customer && r.date == s.date
  }

  /** An earlier record of a slot has ended, at a version below every later one's. */
  ghost predicate SlotOrder(rs: seq<Record>) {
    forall i, j :: 0 <= i < j < |rs| && SameSlot(rs[i], rs[j]) ==>
      rs[i].status != Active && rs[i].version < rs[j].version
  }

  /** A correction stays on its original's customer and date. */
  ghost predicate ReplacementsInSlot(rs: seq<Record>) {
    forall j :: 0 <= j < |rs| && rs[j].corrects.Some? ==>
      rs[j].corrects.value < j && SameSlot(rs[rs[j].corrects.value], rs[j])
  }

  /** A live replacement stands right after the supersession that made it. */
  ghost predicate SuccessorsFollow(rs: seq<Record>) {
    forall j :: 0 <= j < |rs| && rs[j].corrects.Some? && rs[j].corrects.value < j && rs[j].status == Active ==>
      rs[j].version == rs[rs[j].corrects.value].version + 1
  }

  ghost predicate TableOrder(rs: seq<Record>) {
    SlotOrder(rs) && ReplacementsInSlot(rs) && SuccessorsFollow(rs)
  }

  /** A record changes only when it ends, at a higher version; ended, it never changes
      again. Its slot and what it corrects never change. */
  ghost predicate Final(rs: seq<Record>, rs': seq<Record>) {
    |rs| <= |rs'|
    && forall i :: 0 <= i < |rs| ==>
         SameSlot(rs[i], rs'[i]) && rs'[i].corrects == rs[i].corrects
         && (rs'[i] == rs[i] || (rs[i].status == Active && rs'[i].status != Active && rs[i].version < rs'[i].version))
  }

  // ---- one command -------------------------------------------------------------

  /** The three ways a command may change the record table, or none. */
  ghost predicate RecordStep(b: Books, rs': seq<Record>) {
    rs' == b.records
    || (exists r :: rs' == b.records + [r] && r.version == b.nextVersion && r.status == Active && r.corrects.None?
                    && !SlotTaken(b.records, r.customer, r.date))
    || (exists i, r :: 0 <= i < |b.records| && b.records[i].status == Active
                       && rs' == Supersede(b.records, i, b.nextVersion, r)
                       && r.version == b.nextVersion + 1 && r.status == Active && r.corrects == Some(i)
                       && SameSlot(b.records[i], r))
    || (exists i :: 0 <= i < |b.records| && b.records[i].status == Active
                    && rs' == VoidRecord(b.records, i, b.nextVersion))
  }

  lemma {:induction false} SettleKeepsDocuments(b: Books, b1: Books, p: Posting, earnings: Earnings, drawn: nat)
    ensures var x := Settle(b, PostEntry(b1, p), earnings, drawn).books;
            (x.records == b.records && x.payments == b.payments)
              || (x.records == b1.records && x.payments == b1.payments)
  {
  }

  lemma {:induction false} InsertStep(b: Books, record: Record)
    requires record.version == b.nextVersion && record.status == Active && record.corrects.None?
    ensures RecordStep(b, InsertRecord(b, record).books.records)
  {
    var b1 := WithRecord(b, record);
    SettleKeepsDocuments(b, b1, ChargePosting(record, |b.records|),
                         OnServiceRecorded(b.earnings, b1.records, |b.records|), 1);
  }

  lemma {:induction false} ReplaceStep(b: Books, i: nat, replacement: Record)
    requires i < |b.records| && b.records[i].status == Active && SameSlot(b.records[i], replacement)
    requires replacement.version == b.nextVersion + 1 && replacement.status == Active && replacement.corrects == Some(i)
    ensures RecordStep(b, ReplaceRecord(b, i, replacement).books.records)
  {
    var b1 := WithReplacement(b, i, replacement);
    SettleKeepsDocuments(b, b1, AdjustmentPosting(b.records[i], i, replacement.charge),
                         OnServiceCorrected(b.earnings, b1.records, i, |b.records|), 2);
  }

  lemma {:induction false} EndStep(b: Books, i: nat)
    requires i < |b.records| && b.records[i].status == Active
    ensures RecordStep(b, EndRecord(b, i).books.records)
  {
    var b1 := WithoutRecord(b, i);
    SettleKeepsDocuments(b, b1, AdjustmentPosting(b.records[i], i, 0), OnServiceVoided(b.earnings, b1.records, i), 1);
  }

  lemma {:induction false} ApplyStep(b: Books, cmd: Command)
    ensures RecordStep(b, Apply(b, cmd).books.records)
  {
    match cmd
    case RecordServiceCmd(_, kind, quantity, date) =>
      if Apply(b, cmd).books.records != b.records {
        var price := b.customers[cmd.customer].unitPrice;
        var (milli, charge) := ResolveCharge(kind, quantity, price).value;
        var on := if date.Some? then date.value else b.today;
        InsertStep(b, Record(cmd.customer, on, milli, price, charge, kind, Active, None, None, None, b.nextVersion));
      }
    case CorrectServiceCmd(i, kind, quantity, _) =>
      if i < |b.records| && b.records[i].status == Active
         && ResolveCharge(kind, quantity, b.records[i].unitPrice).Some? {
        var (milli, charge) := ResolveCharge(kind, quantity, b.records[i].unitPrice).value;
        ReplaceStep(b, i, Replacement(b, i, kind, milli, charge));
      }
    case VoidServiceCmd(i, _) =>
      if i < |b.records| && b.records[i].status == Active {
        EndStep(b, i);
      }
    case _ =>
  }

  ghost predicate AllBelow(rs: seq<Record>, version: nat) {
    forall i :: 0 <= i < |rs| ==> rs[i].version < version
  }

  lemma {:induction false} AppendKeepsOrder(rs: seq<Record>, r: Record)
    requires TableOrder(rs) && AllBelow(rs, r.version) && !SlotTaken(rs, r.customer, r.date) && r.corrects.None?
    ensures TableOrder(rs + [r]) && Final(rs, rs + [r])
  {
  }

  lemma {:induction false} EndingKeepsOrder(rs: seq<Record>, i: nat, ended: Record)
    requires TableOrder(rs) && i < |rs| && rs[i].status == Active && rs[i].version < ended.version
    requires SameSlot(rs[i], ended) && ended.corrects == rs[i].corrects && ended.status != Active
    ensures TableOrder(rs[i := ended]) && Final(rs, rs[i := ended])
  {
  }

  /** The slot of an ACTIVE record holds no other ACTIVE record. */
  lemma {:induction false} EndedSlotIsFree(rs: seq<Record>, i: nat, ended: Record)
    requires SlotOrder(rs) && i < |rs| && rs[i].status == Active && SameSlot(rs[i], ended) && ended.status != Active
    ensures !SlotTaken(rs[i := ended], ended.customer, ended.date)
  {
    forall x | 0 <= x < |rs| && x != i && rs[x].status == Active ensures !SameSlot(rs[x], ended) {
      if x < i {
        assert !SameSlot(rs[x], rs[i]);
      } else {
        assert !SameSlot(rs[i], rs[x]);
      }
    }
  }

  lemma {:induction false} SupersedeKeepsOrder(rs: seq<Record>, i: nat, version: nat, r: Record)
    requires TableOrder(rs) && i < |rs| && rs[i].status == Active && AllBelow(rs, version)
    requires SameSlot(rs[i], r) && r.version == version + 1 && r.corrects == Some(i)
    ensures TableOrder(Supersede(rs, i, version, r)) && Final(rs, Supersede(rs, i, version, r))
  {
    var ended := rs[i].(status := Superseded, version := version, supersededBy := Some(|rs|));
    EndingKeepsOrder(rs, i, ended);
    EndedSlotIsFree(rs, i, ended);
    assert Supersede(rs, i, version, r) == rs[i := ended] + [r];
  }

  /** Whatever a command does, ended records stay and slots stay ordered. */
  lemma {:induction false} StepKeepsOrder(b: Books, rs': seq<Record>)
    requires VersionsOk(b) && TableOrder(b.records) && RecordStep(b, rs')
    ensures TableOrder(rs') && Final(b.records, rs')
  {
    var rs, v := b.records, b.nextVersion;
    assert AllBelow(rs, v);
    if r :| rs' == rs + [r] && r.version == v && r.corrects.None? && !SlotTaken(rs, r.customer, r.date) {
      AppendKeepsOrder(rs, r);
    } else if i, r :| 0 <= i < |rs| && rs[i].status == Active && rs' == Supersede(rs, i, v, r)
                      && r.version == v + 1 && r.corrects == Some(i) && SameSlot(rs[i], r) {
      SupersedeKeepsOrder(rs, i, v, r);
    } else if i :| 0 <= i < |rs| && rs[i].status == Active && rs' == VoidRecord(rs, i, v) {
      EndingKeepsOrder(rs, i, rs[i].(status := Voided, version := v));
    }
  }

  lemma {:induction false} ApplyKeepsOrder(b: Books, cmd: Command, rs': seq<Record>)
    requires VersionsOk(b) && TableOrder(b.records) && rs' == Apply(b, cmd).books.records
    ensures TableOrder(rs') && Final(b.records, rs')
  {
    ApplyStep(b, cmd);
    StepKeepsOrder(b, rs');
  }

  // ---- runs --------------------------------------------------------------------

  lemma {:induction false} RunKeepsOrder(today: Date, startDay: StartDay, commands: seq<Command>)
    ensures TableOrder(Run(today, startDay, commands).records)
  {
    if commands != [] {
      var last := |commands| - 1;
      var b := Run(today, startDay, commands[..last]);
      RunKeepsOrder(today, startDay, commands[..last]);
      RunKeeps(today, startDay, commands[..last]);
      ApplyKeepsOrder(b, commands[last], Apply(b, commands[last]).books.records);
    }
  }

  /** The record table after the first `n` commands of a run. */
  function RecordsAt(today: Date, startDay: StartDay, commands: seq<Command>, n: nat): seq<Record>
    requires n <= |commands|
  {
    Run(today, startDay, commands[..n]).records
  }

  lemma {:induction false} OneMoreCommand(today: Date, startDay: StartDay, commands: seq<Command>, n: nat, m: nat)
    requires n < |commands| && m == n + 1
    ensures Final(RecordsAt(today, startDay, commands, n), RecordsAt(today, startDay, commands, m))
  {
    var b, cmd := Run(today, startDay, commands[..n]), commands[n];
    assert commands[..m][..n] == commands[..n];
    RunKeepsOrder(today, startDay, commands[..n]);
    assert VersionsOk(b) by { RunKeeps(today, startDay, commands[..n]); }
    ApplyKeepsOrder(b, cmd, RecordsAt(today, startDay, commands, m));
  }

  lemma {:induction false} FinalChains(a: seq<Record>, b: seq<Record>, c: seq<Record>)
    requires Final(a, b) && Final(b, c)
    ensures Final(a, c)
  {
  }

  lemma {:induction false} HistoryIsFinal(today: Date, startDay: StartDay, commands: seq<Command>, n: nat, m: nat)
    requires n <= m <= |commands|
    ensures Final(RecordsAt(today, startDay, commands, n), RecordsAt(today, startDay, commands, m))
    decreases m
  {
    if n < m {
      var k: nat := m - 1;
      HistoryIsFinal(today, startDay, commands, n, k);
      OneMoreCommand(today, startDay, commands, k, m);
      FinalChains(RecordsAt(today, startDay, commands, n), RecordsAt(today, startDay, commands, k),
                  RecordsAt(today, startDay, commands, m));
    }
  }

  // ---- the history of the table ------------------------------------------------

  /** The record table after each command of a run, oldest first. */
  function Tables(today: Date, startDay: StartDay, commands: seq<Command>): (tables: seq<seq<Record>>)
    ensures |tables| == |commands| + 1
    ensures tables[|commands|] == Run(today, startDay, commands).records
  {
    var records := Run(today, startDay, commands).records;
    if commands == [] then [records] else Tables(today, startDay, commands[..|commands| - 1]) + [records]
  }

  /** Ended records stay, slots are ordered, and chains are walkable, all along. */
  ghost predicate IsHistory(tables: seq<seq<Record>>) {
    tables != []
    && (forall n :: 0 <= n < |tables| ==> TableOrder(tables[n]) && Chained(tables[n]))
    && (forall n, m :: 0 <= n <= m < |tables| ==> Final(tables[n], tables[m]))
  }

  lemma {:induction false} TableAt(today: Date, startDay: StartDay, commands: seq<Command>, n: nat)
    requires n <= |commands|
    ensures Tables(today, startDay, commands)[n] == RecordsAt(today, startDay, commands, n)
  {
    if n == |commands| {
      assert commands[..n] == commands;
    } else {
      var before := commands[..|commands| - 1];
      TableAt(today, startDay, before, n);
      assert before[..n] == commands[..n];
    }
  }

  /** Every run of commands makes such a history. */
  lemma {:induction false} RunsMakeHistories(today: Date, startDay: StartDay, commands: seq<Command>)
    ensures IsHistory(Tables(today, startDay, commands))
  {
    var tables := Tables(today, startDay, commands);
    forall n | 0 <= n < |tables| ensures TableOrder(tables[n]) && Chained(tables[n]) {
      TableAt(today, startDay, commands, n);
      TableIsOrdered(today, startDay, commands[..n]);
    }
    forall n, m | 0 <= n <= m < |tables| ensures Final(tables[n], tables[m]) {
      TableAt(today, startDay, commands, n);
      TableAt(today, startDay, commands, m);
      HistoryIsFinal(today, startDay, commands, n, m);
    }
  }

  lemma {:induction false} TableIsOrdered(today: Date, startDay: StartDay, commands: seq<Command>)
    ensures var rs := Run(today, startDay, commands).records; TableOrder(rs) && Chained(rs)
  {
    RunKeepsOrder(today, startDay, commands);
    RunKeeps(today, startDay, commands);
  }

  // ---- a client that follows the feed ------------------------------------------

  /** What a gap-free feed gives a client at a cursor: each row it holds is some past
      committed copy at or below the cursor, and it holds the current copy of every row
      whose version is at or below the cursor. */
  ghost predicate FollowsFeed(tables: seq<seq<Record>>, store: map<nat, Record>, cursor: nat)
    requires tables != []
  {
    (forall i :: i in store ==> store[i].version <= cursor && IsPastCopy(tables, i, store[i]))
    && HoldsCurrent(tables[|tables| - 1], store, cursor)
  }

  ghost predicate HoldsCurrent(rs: seq<Record>, store: map<nat, Record>, cursor: nat) {
    forall i :: 0 <= i < |rs| && rs[i].version <= cursor ==> i in store && store[i] == rs[i]
  }

  ghost predicate IsPastCopy(tables: seq<seq<Record>>, i: nat, copy: Record) {
    exists n :: CopiedAt(tables, i, copy, n)
  }

  ghost predicate CopiedAt(tables: seq<seq<Record>>, i: nat, copy: Record, n: nat) {
    n < |tables| && i < |tables[n]| && copy == tables[n][i]
  }

  /** A row that had ended in some past table, at or below the cursor, is held as ended. */
  lemma {:induction false} EndedCopyIsHeld(
      tables: seq<seq<Record>>, store: map<nat, Record>, cursor: nat, n: nat, i: nat)
    requires IsHistory(tables) && HoldsCurrent(tables[|tables| - 1], store, cursor)
    requires n < |tables| && i < |tables[n]| && tables[n][i].status != Active && tables[n][i].version <= cursor
    ensures i in store && store[i] == tables[n][i]
  {
    assert Final(tables[n], tables[|tables| - 1]);
  }

  /** Two ACTIVE copies held by a client that follows the feed are of different slots. */
  lemma {:induction false} ActiveCopiesAreApart(
      tables: seq<seq<Record>>, store: map<nat, Record>, cursor: nat, i: nat, j: nat)
    requires IsHistory(tables) && FollowsFeed(tables, store, cursor) && i in store && j in store && i != j
    requires store[i].status == Active && store[j].status == Active
    ensures !SameSlot(store[i], store[j])
  {
    assert IsPastCopy(tables, i, store[i]) && IsPastCopy(tables, j, store[j]);
    var n: nat :| CopiedAt(tables, i, store[i], n);
    var m: nat :| CopiedAt(tables, j, store[j], m);
    if i < j {
      LaterCopyIsElsewhere(tables, store, cursor, i, j, n, m);
    } else {
      LaterCopyIsElsewhere(tables, store, cursor, j, i, m, n);
    }
  }

  lemma {:induction false} LaterCopyIsElsewhere(
      tables: seq<seq<Record>>, store: map<nat, Record>, cursor: nat, i: nat, j: nat, n: nat, m: nat)
    requires IsHistory(tables) && HoldsCurrent(tables[|tables| - 1], store, cursor)
    requires i in store && j in store && i < j && store[i].status == Active && store[j].version <= cursor
    requires CopiedAt(tables, i, store[i], n) && CopiedAt(tables, j, store[j], m)
    ensures !SameSlot(store[i], store[j])
  {
    SlotsAgree(tables, n, m, i);
    if SameSlot(tables[m][i], tables[m][j]) {
      EndedCopyIsHeld(tables, store, cursor, m, i);
      assert false;
    }
  }

  lemma {:induction false} SlotsAgree(tables: seq<seq<Record>>, n: nat, m: nat, i: nat)
    requires IsHistory(tables) && n < |tables| && m < |tables| && i < |tables[n]| && i < |tables[m]|
    ensures SameSlot(tables[n][i], tables[m][i])
  {
    var last := |tables| - 1;
    assert Final(tables[n], tables[last]) && Final(tables[m], tables[last]);
  }

  /** A client that follows the feed and holds a replacement holds its supersession. */
  lemma {:induction false} ReplacementCopyExplains(
      tables: seq<seq<Record>>, store: map<nat, Record>, cursor: nat, j: nat)
    requires IsHistory(tables) && FollowsFeed(tables, store, cursor) && j in store && store[j].corrects.Some?
    ensures var i := store[j].corrects.value;
            i in store && store[i].status == Superseded && store[i].supersededBy == Some(j)
            && store[i].version < store[j].version
  {
    assert IsPastCopy(tables, j, store[j]);
    var n: nat :| CopiedAt(tables, j, store[j], n);
    CorrectionsAreOrdered(tables[n], j);
    EndedCopyIsHeld(tables, store, cursor, n, store[j].corrects.value);
  }

  lemma {:induction false} CorrectionsAreOrdered(rs: seq<Record>, j: nat)
    requires TableOrder(rs) && Chained(rs) && j < |rs| && rs[j].corrects.Some?
    ensures var i := rs[j].corrects.value;
            i < j && rs[i].status == Superseded && rs[i].supersededBy == Some(j) && rs[i].version < rs[j].version
  {
  }
}
