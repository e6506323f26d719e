/** What a commit publishes, told from the actions: each row as its transaction last wrote
    it, at the version drawn for that write, and no other. */
module SyncWrites {
  import opened Outcomes
  import opened OpTypes
  import opened Registers
  import Feed
  import opened SyncProtocol
  import opened SyncInvariants
  import opened SyncCycles

  /** The row as the transaction has last written it since it began. */
  ghost function Written(keyOf: nat -> int, actions: seq<Action>, t: nat, row: nat): Option<Row> {
    if actions == [] || t !in Run(keyOf, actions).txns then None
    else
      var rest, a := actions[..|actions| - 1], actions[|actions| - 1];
      var s := Run(keyOf, rest);
      if a.Write? && a.txn == t && a.row == row && Working(s, t) && FeedWriting(s.txns[t].request.op)
      then Some(Feed.Row(s.nextVersion, row, a.data))
      else Written(keyOf, rest, t, row)
  }

  /** What a transaction has staged is what it has written. */
  ghost predicate StagedAsWritten(keyOf: nat -> int, actions: seq<Action>, s: Server) {
    forall t, row :: t in s.txns ==> Staged(s.txns[t], row) == Written(keyOf, actions, t, row)
  }

  function Staged(x: Txn, row: nat): Option<Row> {
    if row in x.writes then Some(x.writes[row]) else None
  }

  /** One action stages at most the row it writes. */
  ghost predicate WriteStep(s: Server, a: Action, s': Server, t: nat, row: nat)
    requires t in s'.txns
  {
    if a.Write? && a.txn == t && a.row == row && Working(s, t) && FeedWriting(s.txns[t].request.op)
    then Staged(s'.txns[t], row) == Some(Feed.Row(s.nextVersion, row, a.data))
    else Staged(s'.txns[t], row) == if t in s.txns then Staged(s.txns[t], row) else None
  }

  lemma {:induction false} WriteIsWriteStep(s: Server, u: nat, r: nat, data: int, s': Server, t: nat, row: nat)
    requires s' == DoWrite(s, u, r, data) && t in s'.txns
    ensures WriteStep(s, Write(u, r, data), s', t, row)
  {
  }

  lemma BeginStagesNothing(keyOf: nat -> int, s: Server, a: Action, s': Server, t: nat)
    requires a.Begin? && s' == Next(keyOf, s, a) && t in s'.txns
    ensures if t in s.txns then s'.txns[t].writes == s.txns[t].writes else s'.txns[t].writes == map[]
  {
  }

  lemma LockStagesNothing(keyOf: nat -> int, s: Server, u: nat, s': Server, t: nat)
    requires s' == DoLock(keyOf, s, u) && t in s'.txns
    ensures t in s.txns && s'.txns[t].writes == s.txns[t].writes
  {
  }

  lemma LookStagesNothing(s: Server, u: nat, s': Server, t: nat)
    requires s' == DoLook(s, u) && t in s'.txns
    ensures t in s.txns && s'.txns[t].writes == s.txns[t].writes
  {
  }

  lemma ClaimStagesNothing(s: Server, u: nat, s': Server, t: nat)
    requires s' == DoClaim(s, u) && t in s'.txns
    ensures t in s.txns && s'.txns[t].writes == s.txns[t].writes
  {
  }

  lemma {:induction false} ClaimingIsWriteStep(keyOf: nat -> int, s: Server, a: Action, s': Server, t: nat, row: nat)
    requires BeforeTheEffect(a) && s' == Next(keyOf, s, a) && t in s'.txns
    ensures WriteStep(s, a, s', t, row)
  {
    match a
    case Begin(_, _, _, _) => BeginStagesNothing(keyOf, s, a, s', t);
    case Lock(u) => LockStagesNothing(keyOf, s, u, s', t);
    case Look(u) => LookStagesNothing(s, u, s', t);
    case Claim(u) => ClaimStagesNothing(s, u, s', t);
  }

  /** The branch that would discard what was staged is never taken. */
  lemma {:induction false} CyclesAreWriteSteps(keyOf: nat -> int, s: Server, a: Action, s': Server, t: nat, row: nat)
    requires TxnsOk(keyOf, s) && s' == Next(keyOf, s, a) && t in s'.txns
    requires a.FindCycle? || a.InsertCycle? || a.EndCycle?
    ensures WriteStep(s, a, s', t, row)
  {
    if a.InsertCycle? && a.txn in s.txns {
      assert TxnOk(keyOf, s, a.txn, s.txns[a.txn]);
    }
  }

  lemma {:induction false} OtherIsWriteStep(keyOf: nat -> int, s: Server, a: Action, s': Server, t: nat, row: nat)
    requires s' == Next(keyOf, s, a) && t in s'.txns
    requires a.Commit? || a.Rollback? || a.Burn? || a.Join? || a.Pull?
    ensures WriteStep(s, a, s', t, row)
  {
  }

  lemma {:induction false} EveryStepIsWriteStep(keyOf: nat -> int, s: Server, a: Action, s': Server, t: nat, row: nat)
    requires TxnsOk(keyOf, s) && s' == Next(keyOf, s, a) && t in s'.txns
    ensures WriteStep(s, a, s', t, row)
  {
    if BeforeTheEffect(a) {
      ClaimingIsWriteStep(keyOf, s, a, s', t, row);
    } else if a.Write? {
      WriteIsWriteStep(s, a.txn, a.row, a.data, s', t, row);
    } else if a.FindCycle? || a.InsertCycle? || a.EndCycle? {
      CyclesAreWriteSteps(keyOf, s, a, s', t, row);
    } else {
      OtherIsWriteStep(keyOf, s, a, s', t, row);
    }
  }

  lemma {:induction false} WrittenOneMore(
      keyOf: nat -> int, actions: seq<Action>, rest: seq<Action>, a: Action, s: Server, s': Server, t: nat, row: nat)
    requires OneMore(keyOf, actions, rest, a, s, s') && StagedAsWritten(keyOf, rest, s)
    requires t in s'.txns && WriteStep(s, a, s', t, row)
    ensures Staged(s'.txns[t], row) == Written(keyOf, actions, t, row)
  {
    assert actions[..|actions| - 1] == rest;
    if t !in s.txns {
      assert Written(keyOf, rest, t, row) == None;
    }
  }

  lemma {:induction false} OneMoreStaged(
      keyOf: nat -> int, actions: seq<Action>, rest: seq<Action>, a: Action, s: Server, s': Server)
    requires OneMore(keyOf, actions, rest, a, s, s') && StagedAsWritten(keyOf, rest, s)
    requires TxnsOk(keyOf, s) && s' == Next(keyOf, s, a)
    ensures StagedAsWritten(keyOf, actions, s')
  {
    forall t, row | t in s'.txns ensures Staged(s'.txns[t], row) == Written(keyOf, actions, t, row) {
      EveryStepIsWriteStep(keyOf, s, a, s', t, row);
      WrittenOneMore(keyOf, actions, rest, a, s, s', t, row);
    }
  }

  lemma {:induction false} RunStagesWhatIsWritten(keyOf: nat -> int, actions: seq<Action>)
    ensures StagedAsWritten(keyOf, actions, Run(keyOf, actions))
  {
    if actions != [] {
      var rest := actions[..|actions| - 1];
      RunStagesWhatIsWritten(keyOf, rest);
      RunKeeps(keyOf, rest);
      OneMoreStaged(keyOf, actions, rest, actions[|actions| - 1], Run(keyOf, rest), Run(keyOf, actions));
    }
  }

  /** Over every run, a commit leaves each row of its tenant as its transaction last wrote it,
      at the version drawn then, every other row as it was, and the operation bound to its
      request and result. */
  lemma {:induction false} CommitsPublishWhatIsWritten(
      keyOf: nat -> int, actions: seq<Action>, t: nat, result: int, tenant: nat, row: nat)
    requires Working(Run(keyOf, actions), t)
    ensures var s := Run(keyOf, actions);
            var s', k, x := Next(keyOf, s, Commit(t, result)), Key(tenant, row), s.txns[t];
            var written := if tenant == x.tenant then Written(keyOf, actions, t, row) else None;
            (if written.Some? then k in s'.rows && s'.rows[k] == written.value
             else (k in s'.rows <==> k in s.rows) && (k in s.rows ==> s'.rows[k] == s.rows[k]))
            && s'.register == s.register[Key(x.tenant, x.opId) := Registered(x.request, result)]
            && t !in s'.txns
  {
    var s := Run(keyOf, actions);
    RunStagesWhatIsWritten(keyOf, actions);
    assert Staged(s.txns[t], row) == Written(keyOf, actions, t, row);
  }

  /** A transaction that comes to claim an id which has been bound meanwhile is answered from
      the register, and changes nothing. */
  lemma {:induction false} LateClaimsAreAnswered(keyOf: nat -> int, actions: seq<Action>, t: nat)
    requires var s := Run(keyOf, actions);
             t in s.txns && s.txns[t].phase == Looked && Key(s.txns[t].tenant, s.txns[t].opId) in s.register
    ensures var s := Run(keyOf, actions);
            var s', k, request := Next(keyOf, s, Claim(t)), Key(s.txns[t].tenant, s.txns[t].opId), s.txns[t].request;
            t !in s'.txns && s'.rows == s.rows && s'.register == s.register
            && s'.answers == s.answers + [Answer(k, request, if s.register[k].request == request
                                                             then Duplicate(s.register[k].result) else KeyReuse)]
  {
    var s := Run(keyOf, actions);
    RunKeeps(keyOf, actions);
    forall u | u in s.txns && s.txns[u].phase == Claimed ensures s.txns[u].Register() !in s.register {
      assert TxnOk(keyOf, s, u, s.txns[u]);
    }
    assert !ClaimWaits(s.txns, t);
  }
}
