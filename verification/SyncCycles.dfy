/** A tenant's billing cycle over every interleaving, told from the actions: what a
    transaction has found, inserted and ended since it began, and which commits opened and
    closed a cycle. */
module SyncCycles {
  import opened Outcomes
  import opened OpTypes
  import opened Registers
  import opened SyncProtocol
  import opened SyncInvariants

  // ---- told from the actions ---------------------------------------------------

  predicate Working(s: Server, t: nat) {
    t in s.txns && s.txns[t].phase == Claimed
  }

  /** The tenant has an OPEN cycle: one more commit has opened one than has closed one. */
  ghost predicate HasOpenCycle(keyOf: nat -> int, actions: seq<Action>, tenant: nat)
    decreases |actions|, 3
  {
    Opened(keyOf, actions, tenant) == Closed(keyOf, actions, tenant) + 1
  }

  /** Since it began, the transaction has looked for the open cycle and found none. */
  ghost predicate FoundNone(keyOf: nat -> int, actions: seq<Action>, t: nat)
    decreases |actions|, 0
  {
    actions != [] && t in Run(keyOf, actions).txns
    && var rest, a := actions[..|actions| - 1], actions[|actions| - 1];
       var s := Run(keyOf, rest);
       FoundNone(keyOf, rest, t)
       || (a == FindCycle(t) && Working(s, t) && Posts(s.txns[t].request.op)
           && !HasOpenCycle(keyOf, rest, s.txns[t].tenant))
  }

  /** Since it began, it has found none and then inserted one while there still was none. */
  ghost predicate Inserted(keyOf: nat -> int, actions: seq<Action>, t: nat)
    decreases |actions|, 0
  {
    actions != [] && t in Run(keyOf, actions).txns
    && var rest, a := actions[..|actions| - 1], actions[|actions| - 1];
       var s := Run(keyOf, rest);
       Inserted(keyOf, rest, t)
       || (a == InsertCycle(t) && Working(s, t) && FoundNone(keyOf, rest, t)
           && !HasOpenCycle(keyOf, rest, s.txns[t].tenant))
  }

  /** Since it began, it has ended the tenant's open cycle, as a close does. */
  ghost predicate Closing(keyOf: nat -> int, actions: seq<Action>, t: nat)
    decreases |actions|, 0
  {
    actions != [] && t in Run(keyOf, actions).txns
    && var rest, a := actions[..|actions| - 1], actions[|actions| - 1];
       var s := Run(keyOf, rest);
       Closing(keyOf, rest, t)
       || (a == EndCycle(t) && Working(s, t) && s.txns[t].request.op == CycleClose
           && HasOpenCycle(keyOf, rest, s.txns[t].tenant))
  }

  /** The last action commits a transaction of the tenant that inserted a cycle. */
  ghost predicate OpensNow(keyOf: nat -> int, actions: seq<Action>, tenant: nat)
    decreases |actions|, 1
  {
    actions != []
    && var rest, a := actions[..|actions| - 1], actions[|actions| - 1];
       var s := Run(keyOf, rest);
       a.Commit? && Working(s, a.txn) && s.txns[a.txn].tenant == tenant && Inserted(keyOf, rest, a.txn)
  }

  /** The last action commits a transaction of the tenant that ended its cycle. */
  ghost predicate ClosesNow(keyOf: nat -> int, actions: seq<Action>, tenant: nat)
    decreases |actions|, 1
  {
    actions != []
    && var rest, a := actions[..|actions| - 1], actions[|actions| - 1];
       var s := Run(keyOf, rest);
       a.Commit? && Working(s, a.txn) && s.txns[a.txn].tenant == tenant && Closing(keyOf, rest, a.txn)
  }

  ghost function Opened(keyOf: nat -> int, actions: seq<Action>, tenant: nat): nat
    decreases |actions|, 2
  {
    if actions == [] then 0
    else Opened(keyOf, actions[..|actions| - 1], tenant) + if OpensNow(keyOf, actions, tenant) then 1 else 0
  }

  ghost function Closed(keyOf: nat -> int, actions: seq<Action>, tenant: nat): nat
    decreases |actions|, 2
  {
    if actions == [] then 0
    else Closed(keyOf, actions[..|actions| - 1], tenant) + if ClosesNow(keyOf, actions, tenant) then 1 else 0
  }

  // ---- what a step does to a transaction's cycle -------------------------------

  /** Only a transaction at a close ends a cycle, and only one that is there. */
  ghost predicate ClosingOk(s: Server) {
    forall t :: t in s.txns && s.txns[t].closes ==>
      s.txns[t].locked && s.txns[t].tenant in s.openCycles && !s.txns[t].opens
  }

  predicate Finds(s: Server, a: Action, t: nat) {
    a == FindCycle(t) && Working(s, t) && Posts(s.txns[t].request.op) && s.txns[t].tenant !in s.openCycles
  }

  predicate Inserts(s: Server, a: Action, t: nat) {
    a == InsertCycle(t) && Working(s, t) && s.txns[t].sawNoCycle && s.txns[t].tenant !in s.openCycles
  }

  predicate Ends(s: Server, a: Action, t: nat) {
    a == EndCycle(t) && Working(s, t) && s.txns[t].request.op == CycleClose && s.txns[t].tenant in s.openCycles
  }

  /** What a transaction has found, inserted and ended is what it had, and what this did. */
  ghost predicate CycleStep(s: Server, a: Action, s': Server, t: nat)
    requires t in s'.txns
  {
    var y := s'.txns[t];
    (y.sawNoCycle <==> (t in s.txns && s.txns[t].sawNoCycle) || Finds(s, a, t))
    && (y.opens <==> (t in s.txns && s.txns[t].opens) || Inserts(s, a, t))
    && (y.closes <==> (t in s.txns && s.txns[t].closes) || Ends(s, a, t))
    && (t in s.txns ==> y.tenant == s.txns[t].tenant)
  }

  lemma BeginIsCycleStep(keyOf: nat -> int, s: Server, a: Action, s': Server, t: nat)
    requires a.Begin? && s' == Next(keyOf, s, a) && t in s'.txns
    ensures CycleStep(s, a, s', t)
  {
  }

  lemma LockIsCycleStep(keyOf: nat -> int, s: Server, u: nat, s': Server, t: nat)
    requires s' == DoLock(keyOf, s, u) && t in s'.txns
    ensures CycleStep(s, Lock(u), s', t)
  {
  }

  /** Nothing found, inserted or ended. */
  ghost predicate SameCycle(txns: map<nat, Txn>, txns': map<nat, Txn>, t: nat)
    requires t in txns'
  {
    t in txns && txns'[t].sawNoCycle == txns[t].sawNoCycle && txns'[t].opens == txns[t].opens
    && txns'[t].closes == txns[t].closes && txns'[t].tenant == txns[t].tenant
  }

  lemma LookKeepsCycle(s: Server, u: nat, s': Server, t: nat)
    requires s' == DoLook(s, u) && t in s'.txns
    ensures SameCycle(s.txns, s'.txns, t)
  {
  }

  lemma ClaimKeepsCycle(s: Server, u: nat, s': Server, t: nat)
    requires s' == DoClaim(s, u) && t in s'.txns
    ensures SameCycle(s.txns, s'.txns, t)
  {
  }

  lemma {:induction false} ClaimingIsCycleStep(keyOf: nat -> int, s: Server, a: Action, s': Server, t: nat)
    requires BeforeTheEffect(a) && s' == Next(keyOf, s, a) && t in s'.txns
    ensures CycleStep(s, a, s', t)
  {
    match a
    case Begin(_, _, _, _) => BeginIsCycleStep(keyOf, s, a, s', t);
    case Lock(u) => LockIsCycleStep(keyOf, s, u, s', t);
    case Look(u) => LookKeepsCycle(s, u, s', t);
    case Claim(u) => ClaimKeepsCycle(s, u, s', t);
  }

  /** Nobody else of the tenant is inserting while the lock is held. */
  lemma {:induction false} InsertNeverWaits(keyOf: nat -> int, s: Server, t: nat)
    requires TxnsOk(keyOf, s) && Working(s, t) && s.txns[t].sawNoCycle
    ensures !InsertWaits(s.txns, t)
  {
    assert TxnOk(keyOf, s, t, s.txns[t]);
    forall u | u in s.txns && u != t && s.txns[u].opens && s.txns[u].tenant == s.txns[t].tenant ensures false {
      assert TxnOk(keyOf, s, u, s.txns[u]);
      OneWriterPerTenant(keyOf, s, t, u);
    }
  }

  lemma {:induction false} InsertIsCycleStep(keyOf: nat -> int, s: Server, u: nat, s': Server, t: nat)
    requires TxnsOk(keyOf, s) && s' == DoInsertCycle(s, u) && t in s'.txns
    ensures CycleStep(s, InsertCycle(u), s', t)
  {
    if Working(s, u) && s.txns[u].sawNoCycle {
      InsertNeverWaits(keyOf, s, u);
      assert TxnOk(keyOf, s, u, s.txns[u]);
    }
  }

  lemma WriteIsCycleStep(s: Server, u: nat, row: nat, data: int, s': Server, t: nat)
    requires s' == DoWrite(s, u, row, data) && t in s'.txns
    ensures CycleStep(s, Write(u, row, data), s', t)
  {
  }

  lemma FindIsCycleStep(s: Server, u: nat, s': Server, t: nat)
    requires s' == DoFindCycle(s, u) && t in s'.txns
    ensures CycleStep(s, FindCycle(u), s', t)
  {
  }

  lemma EndIsCycleStep(s: Server, u: nat, s': Server, t: nat)
    requires s' == DoEndCycle(s, u) && t in s'.txns
    ensures CycleStep(s, EndCycle(u), s', t)
  {
  }

  lemma {:induction false} WorkIsCycleStep(keyOf: nat -> int, s: Server, a: Action, s': Server, t: nat)
    requires TxnsOk(keyOf, s) && s' == Next(keyOf, s, a) && t in s'.txns
    requires a.Write? || a.FindCycle? || a.InsertCycle? || a.EndCycle?
    ensures CycleStep(s, a, s', t)
  {
    match a
    case Write(u, row, data) => WriteIsCycleStep(s, u, row, data, s', t);
    case FindCycle(u) => FindIsCycleStep(s, u, s', t);
    case InsertCycle(u) => InsertIsCycleStep(keyOf, s, u, s', t);
    case EndCycle(u) => EndIsCycleStep(s, u, s', t);
  }

  lemma {:induction false} OtherIsCycleStep(keyOf: nat -> int, s: Server, a: Action, s': Server, t: nat)
    requires s' == Next(keyOf, s, a) && t in s'.txns
    requires a.Commit? || a.Rollback? || a.Burn? || a.Join? || a.Pull?
    ensures CycleStep(s, a, s', t)
  {
  }

  lemma {:induction false} EveryStepIsCycleStep(keyOf: nat -> int, s: Server, a: Action, s': Server, t: nat)
    requires TxnsOk(keyOf, s) && s' == Next(keyOf, s, a) && t in s'.txns
    ensures CycleStep(s, a, s', t)
  {
    if BeforeTheEffect(a) {
      ClaimingIsCycleStep(keyOf, s, a, s', t);
    } else if a.Write? || a.FindCycle? || a.InsertCycle? || a.EndCycle? {
      WorkIsCycleStep(keyOf, s, a, s', t);
    } else {
      OtherIsCycleStep(keyOf, s, a, s', t);
    }
  }

  /** Only a commit changes whether a tenant has an open cycle. */
  lemma {:induction false} OpenCyclesStep(keyOf: nat -> int, s: Server, a: Action, s': Server)
    requires s' == Next(keyOf, s, a)
    ensures if a.Commit? && Working(s, a.txn)
            then s'.openCycles == if s.txns[a.txn].closes then s.openCycles - {s.txns[a.txn].tenant}
                                  else if s.txns[a.txn].opens then s.openCycles + {s.txns[a.txn].tenant}
                                  else s.openCycles
            else s'.openCycles == s.openCycles
  {
  }

  // ---- the invariant -----------------------------------------------------------

  lemma {:induction false} NextKeepsClosing(keyOf: nat -> int, s: Server, a: Action, s': Server)
    requires Inv(keyOf, s) && Inv(keyOf, s') && ClosingOk(s) && s' == Next(keyOf, s, a)
    ensures ClosingOk(s')
  {
    OpenCyclesStep(keyOf, s, a, s');
    forall t | t in s'.txns && s'.txns[t].closes
      ensures s'.txns[t].locked && s'.txns[t].tenant in s'.openCycles && !s'.txns[t].opens
    {
      EveryStepIsCycleStep(keyOf, s, a, s', t);
      assert TxnOk(keyOf, s', t, s'.txns[t]);
      ClosesWhatIsOpen(keyOf, s, a, s', t);
    }
  }

  lemma {:induction false} ClosesWhatIsOpen(keyOf: nat -> int, s: Server, a: Action, s': Server, t: nat)
    requires TxnsOk(keyOf, s) && ClosingOk(s) && t in s'.txns && s'.txns[t].closes && CycleStep(s, a, s', t)
    requires s'.txns[t].opens ==> s'.txns[t].sawNoCycle && s'.txns[t].tenant !in s'.openCycles
    requires if a.Commit? && Working(s, a.txn)
             then a.txn !in s'.txns
                  && s'.openCycles == if s.txns[a.txn].closes then s.openCycles - {s.txns[a.txn].tenant}
                                      else if s.txns[a.txn].opens then s.openCycles + {s.txns[a.txn].tenant}
                                      else s.openCycles
             else s'.openCycles == s.openCycles
    ensures s'.txns[t].tenant in s'.openCycles && !s'.txns[t].opens
  {
    if a.Commit? && Working(s, a.txn) && s.txns[a.txn].closes {
      assert TxnOk(keyOf, s, t, s.txns[t]) && TxnOk(keyOf, s, a.txn, s.txns[a.txn]);
    }
  }

  lemma {:induction false} RunKeepsClosing(keyOf: nat -> int, actions: seq<Action>)
    ensures ClosingOk(Run(keyOf, actions))
  {
    if actions != [] {
      var rest := actions[..|actions| - 1];
      RunKeepsClosing(keyOf, rest);
      RunKeeps(keyOf, rest);
      RunKeeps(keyOf, actions);
      NextKeepsClosing(keyOf, Run(keyOf, rest), actions[|actions| - 1], Run(keyOf, actions));
    }
  }

  // ---- the state keeps what the actions tell -----------------------------------

  /** What a transaction carries is what it has done since it began. */
  ghost predicate Told(keyOf: nat -> int, actions: seq<Action>, s: Server) {
    (forall t :: t in s.txns ==>
       s.txns[t].sawNoCycle == FoundNone(keyOf, actions, t) && s.txns[t].opens == Inserted(keyOf, actions, t)
       && s.txns[t].closes == Closing(keyOf, actions, t))
    && forall tenant :: Opened(keyOf, actions, tenant)
                        == Closed(keyOf, actions, tenant) + if tenant in s.openCycles then 1 else 0
  }

  /** One more action, seen from the run before it. */
  ghost predicate OneMore(
      keyOf: nat -> int, actions: seq<Action>, rest: seq<Action>, a: Action, s: Server, s': Server)
  {
    actions == rest + [a] && s == Run(keyOf, rest) && s' == Run(keyOf, actions)
  }

  lemma {:induction false} ToldOf(
      keyOf: nat -> int, actions: seq<Action>, rest: seq<Action>, a: Action, s: Server, s': Server, t: nat)
    requires OneMore(keyOf, actions, rest, a, s, s') && Told(keyOf, rest, s) && t in s'.txns && CycleStep(s, a, s', t)
    ensures s'.txns[t].sawNoCycle == FoundNone(keyOf, actions, t)
    ensures s'.txns[t].opens == Inserted(keyOf, actions, t)
    ensures s'.txns[t].closes == Closing(keyOf, actions, t)
  {
    assert actions[..|actions| - 1] == rest;
    if t in s.txns {
      assert HasOpenCycle(keyOf, rest, s.txns[t].tenant) <==> s.txns[t].tenant in s.openCycles;
    } else {
      assert !FoundNone(keyOf, rest, t) && !Inserted(keyOf, rest, t) && !Closing(keyOf, rest, t);
    }
  }

  lemma {:induction false} CountsMove(
      keyOf: nat -> int, actions: seq<Action>, rest: seq<Action>, a: Action, s: Server, s': Server, tenant: nat)
    requires OneMore(keyOf, actions, rest, a, s, s') && Told(keyOf, rest, s)
    ensures var commits := a.Commit? && Working(s, a.txn) && s.txns[a.txn].tenant == tenant;
            Opened(keyOf, actions, tenant)
            == Opened(keyOf, rest, tenant) + (if commits && s.txns[a.txn].opens then 1 else 0)
            && Closed(keyOf, actions, tenant)
               == Closed(keyOf, rest, tenant) + (if commits && s.txns[a.txn].closes then 1 else 0)
  {
    assert actions[..|actions| - 1] == rest;
  }

  lemma {:induction false} CountsTell(
      keyOf: nat -> int, actions: seq<Action>, rest: seq<Action>, a: Action, s: Server, s': Server, tenant: nat)
    requires OneMore(keyOf, actions, rest, a, s, s') && Told(keyOf, rest, s) && s' == Next(keyOf, s, a)
    requires Inv(keyOf, s) && ClosingOk(s)
    ensures Opened(keyOf, actions, tenant)
            == Closed(keyOf, actions, tenant) + if tenant in s'.openCycles then 1 else 0
  {
    CountsMove(keyOf, actions, rest, a, s, s', tenant);
    OpenCyclesStep(keyOf, s, a, s');
    if a.Commit? && Working(s, a.txn) {
      assert TxnOk(keyOf, s, a.txn, s.txns[a.txn]);
    }
  }

  lemma {:induction false} RunTells(keyOf: nat -> int, actions: seq<Action>)
    ensures Told(keyOf, actions, Run(keyOf, actions))
  {
    if actions != [] {
      var rest, a := actions[..|actions| - 1], actions[|actions| - 1];
      var s, s' := Run(keyOf, rest), Run(keyOf, actions);
      RunTells(keyOf, rest);
      RunKeeps(keyOf, rest);
      RunKeepsClosing(keyOf, rest);
      assert OneMore(keyOf, actions, rest, a, s, s');
      forall t | t in s'.txns
        ensures s'.txns[t].sawNoCycle == FoundNone(keyOf, actions, t)
        ensures s'.txns[t].opens == Inserted(keyOf, actions, t)
        ensures s'.txns[t].closes == Closing(keyOf, actions, t)
      {
        EveryStepIsCycleStep(keyOf, s, a, s', t);
        ToldOf(keyOf, actions, rest, a, s, s', t);
      }
      forall tenant {
        CountsTell(keyOf, actions, rest, a, s, s', tenant);
      }
    }
  }

  // ---- the theorems ------------------------------------------------------------

  /** A tenant has an OPEN cycle on record exactly when its commits that inserted one
      outnumber by one its commits that closed one; and otherwise they are as many. */
  lemma {:induction false} OpenCyclesAreCounted(keyOf: nat -> int, actions: seq<Action>, tenant: nat)
    ensures Opened(keyOf, actions, tenant)
            == Closed(keyOf, actions, tenant) + if tenant in Run(keyOf, actions).openCycles then 1 else 0
  {
    RunTells(keyOf, actions);
  }

  /** No cycle is inserted while there is one, nor ended while there is none, by the time of
      the commit. */
  lemma {:induction false} CommitsFindItSo(keyOf: nat -> int, actions: seq<Action>, tenant: nat)
    ensures OpensNow(keyOf, actions, tenant) ==>
              actions != [] && !HasOpenCycle(keyOf, actions[..|actions| - 1], tenant)
              && HasOpenCycle(keyOf, actions, tenant)
    ensures ClosesNow(keyOf, actions, tenant) ==>
              actions != [] && HasOpenCycle(keyOf, actions[..|actions| - 1], tenant)
              && !HasOpenCycle(keyOf, actions, tenant)
  {
    if actions != [] {
      var rest, a := actions[..|actions| - 1], actions[|actions| - 1];
      var s := Run(keyOf, rest);
      RunTells(keyOf, rest);
      RunTells(keyOf, actions);
      RunKeeps(keyOf, rest);
      RunKeepsClosing(keyOf, rest);
      if a.Commit? && Working(s, a.txn) {
        assert TxnOk(keyOf, s, a.txn, s.txns[a.txn]);
      }
    }
  }

  lemma {:induction false} SomeCloseBetween(keyOf: nat -> int, actions: seq<Action>, n: nat, m: nat, tenant: nat)
    returns (k: nat)
    requires n <= m <= |actions| && Closed(keyOf, actions[..n], tenant) < Closed(keyOf, actions[..m], tenant)
    ensures n < k <= m && ClosesNow(keyOf, actions[..k], tenant)
  {
    assert n != m;
    var before: nat := m - 1;
    assert actions[..m][..before] == actions[..before];
    if ClosesNow(keyOf, actions[..m], tenant) {
      k := m;
    } else {
      k := SomeCloseBetween(keyOf, actions, n, before, tenant);
    }
  }

  lemma {:induction false} OpenedOnlyGrows(keyOf: nat -> int, actions: seq<Action>, n: nat, m: nat, tenant: nat)
    requires n <= m <= |actions|
    ensures Opened(keyOf, actions[..n], tenant) <= Opened(keyOf, actions[..m], tenant)
  {
    if n < m {
      var before: nat := m - 1;
      assert actions[..m][..before] == actions[..before];
      OpenedOnlyGrows(keyOf, actions, n, before, tenant);
    }
  }

  /** Between two commits of one tenant that inserted a cycle lies one that closed one. */
  lemma {:induction false} ClosedBetweenOpenings(
      keyOf: nat -> int, actions: seq<Action>, n: nat, m: nat, tenant: nat) returns (k: nat)
    requires n < m <= |actions|
    requires OpensNow(keyOf, actions[..n], tenant) && OpensNow(keyOf, actions[..m], tenant)
    ensures n < k < m && ClosesNow(keyOf, actions[..k], tenant)
  {
    var before: nat := m - 1;
    assert actions[..m][..before] == actions[..before];
    CommitsFindItSo(keyOf, actions[..n], tenant);
    CommitsFindItSo(keyOf, actions[..m], tenant);
    OpenCyclesAreCounted(keyOf, actions[..before], tenant);
    OpenedOnlyGrows(keyOf, actions, n, before, tenant);
    k := SomeCloseBetween(keyOf, actions, n, before, tenant);
  }

  /** Whoever posts for the tenant finds the cycle while there is one: it notes that there is
      none exactly when the commits so far left none. */
  lemma {:induction false} CyclesAreFound(keyOf: nat -> int, actions: seq<Action>, t: nat)
    requires Working(Run(keyOf, actions), t) && Posts(Run(keyOf, actions).txns[t].request.op)
    requires !FoundNone(keyOf, actions, t)
    ensures var tenant := Run(keyOf, actions).txns[t].tenant;
            FoundNone(keyOf, actions + [FindCycle(t)], t) <==> !HasOpenCycle(keyOf, actions, tenant)
    ensures var tenant := Run(keyOf, actions).txns[t].tenant;
            t in Run(keyOf, actions + [FindCycle(t)]).txns
            && (Run(keyOf, actions + [FindCycle(t)]).txns[t].sawNoCycle <==> !HasOpenCycle(keyOf, actions, tenant))
  {
    var longer := actions + [FindCycle(t)];
    assert longer[..|longer| - 1] == actions;
    assert Run(keyOf, longer) == Next(keyOf, Run(keyOf, actions), FindCycle(t));
    RunTells(keyOf, longer);
  }

  // ---- and it does happen ------------------------------------------------------

  lemma {:induction false} FindNotes(
      keyOf: nat -> int, actions: seq<Action>, longer: seq<Action>, t: nat, s: Server, s': Server)
    requires OneMore(keyOf, longer, actions, FindCycle(t), s, s') && Working(s, t) && Posts(s.txns[t].request.op)
    requires s.txns[t].tenant !in s.openCycles
    ensures Working(s', t) && s'.txns[t] == s.txns[t].(sawNoCycle := true) && s'.openCycles == s.openCycles
  {
    assert longer[..|longer| - 1] == actions;
  }

  lemma {:induction false} InsertNotes(
      keyOf: nat -> int, actions: seq<Action>, longer: seq<Action>, t: nat, s: Server, s': Server)
    requires OneMore(keyOf, longer, actions, InsertCycle(t), s, s') && TxnsOk(keyOf, s)
    requires Working(s, t) && s.txns[t].sawNoCycle && s.txns[t].tenant !in s.openCycles
    ensures Working(s', t) && s'.txns[t] == s.txns[t].(opens := true)
  {
    assert longer[..|longer| - 1] == actions;
    InsertNeverWaits(keyOf, s, t);
  }

  /** A transaction at work on a posting opens the tenant's cycle when there is none, whatever
      else is in flight. */
  lemma {:induction false} CycleGetsOpened(keyOf: nat -> int, actions: seq<Action>, t: nat, result: int)
    requires Working(Run(keyOf, actions), t) && Posts(Run(keyOf, actions).txns[t].request.op)
    requires !HasOpenCycle(keyOf, actions, Run(keyOf, actions).txns[t].tenant)
    ensures var tenant := Run(keyOf, actions).txns[t].tenant;
            var done := ((actions + [FindCycle(t)]) + [InsertCycle(t)]) + [Commit(t, result)];
            OpensNow(keyOf, done, tenant) && HasOpenCycle(keyOf, done, tenant)
  {
    var found := actions + [FindCycle(t)];
    var inserted := found + [InsertCycle(t)];
    var done := inserted + [Commit(t, result)];
    var tenant := Run(keyOf, actions).txns[t].tenant;
    OpenCyclesAreCounted(keyOf, actions, tenant);
    FindNotes(keyOf, actions, found, t, Run(keyOf, actions), Run(keyOf, found));
    RunKeeps(keyOf, found);
    InsertNotes(keyOf, found, inserted, t, Run(keyOf, found), Run(keyOf, inserted));
    RunTells(keyOf, inserted);
    assert done[..|done| - 1] == inserted;
    CommitsFindItSo(keyOf, done, tenant);
  }

  lemma {:induction false} EndNotes(
      keyOf: nat -> int, actions: seq<Action>, longer: seq<Action>, t: nat, s: Server, s': Server)
    requires OneMore(keyOf, longer, actions, EndCycle(t), s, s') && Working(s, t)
    requires s.txns[t].request.op == CycleClose && s.txns[t].tenant in s.openCycles
    ensures Working(s', t) && s'.txns[t] == s.txns[t].(closes := true)
  {
    assert longer[..|longer| - 1] == actions;
  }

  /** And one at work on a close closes it when there is one. */
  lemma {:induction false} CycleGetsClosed(keyOf: nat -> int, actions: seq<Action>, t: nat, result: int)
    requires Working(Run(keyOf, actions), t) && Run(keyOf, actions).txns[t].request.op == CycleClose
    requires HasOpenCycle(keyOf, actions, Run(keyOf, actions).txns[t].tenant)
    ensures var tenant := Run(keyOf, actions).txns[t].tenant;
            var done := (actions + [EndCycle(t)]) + [Commit(t, result)];
            ClosesNow(keyOf, done, tenant) && !HasOpenCycle(keyOf, done, tenant)
  {
    var ended := actions + [EndCycle(t)];
    var done := ended + [Commit(t, result)];
    var tenant := Run(keyOf, actions).txns[t].tenant;
    OpenCyclesAreCounted(keyOf, actions, tenant);
    EndNotes(keyOf, actions, ended, t, Run(keyOf, actions), Run(keyOf, ended));
    RunTells(keyOf, ended);
    assert done[..|done| - 1] == ended;
    CommitsFindItSo(keyOf, done, tenant);
  }

  /** The rollback-and-continue branch of the insert is never taken: whoever has found no
      cycle still has its claim and there still is none, and nobody else of the tenant has
      inserted one. */
  lemma {:induction false} InsertMeetsNoConflict(keyOf: nat -> int, actions: seq<Action>, t: nat, u: nat)
    requires FoundNone(keyOf, actions, t)
    ensures var s := Run(keyOf, actions);
            Working(s, t) && !HasOpenCycle(keyOf, actions, s.txns[t].tenant)
            && (Inserted(keyOf, actions, u) && s.txns[u].tenant == s.txns[t].tenant ==> u == t)
  {
    var s := Run(keyOf, actions);
    RunTells(keyOf, actions);
    RunKeeps(keyOf, actions);
    assert TxnOk(keyOf, s, t, s.txns[t]);
    if u in s.txns && s.txns[u].opens && s.txns[u].tenant == s.txns[t].tenant {
      assert TxnOk(keyOf, s, u, s.txns[u]);
      OneWriterPerTenant(keyOf, s, t, u);
    }
  }
}
