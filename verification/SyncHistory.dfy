/** What becomes of a staged row, over every continuation of a run; and what a page is worth
    that reads each table in a snapshot of its own. */
module SyncHistory {
  import opened Outcomes
  import opened OpTypes
  import opened Registers
  import Feed
  import opened SyncProtocol
  import opened SyncInvariants
  import opened SyncTheorems

  // ---- every copy ever committed -----------------------------------------------

  /** No copy is newer than the current row, and one version is one copy. */
  ghost predicate HistoryOk(rows: map<Key, Row>, history: set<(nat, Row)>) {
    (forall tenant, row :: (tenant, row) in history ==>
       Key(tenant, row.id) in rows && row.version <= rows[Key(tenant, row.id)].version)
    && (forall tenant, row, other :: (tenant, row) in history && (tenant, other) in history ==>
          row.version == other.version ==> row == other)
  }

  /** A staged version is above every copy ever committed for its tenant. */
  lemma {:induction false} StagedIsNew(keyOf: nat -> int, s: Server, t: nat, id: nat, row: Row)
    requires Inv(keyOf, s) && HistoryOk(s.rows, s.history) && t in s.txns && id in s.txns[t].writes
    requires (s.txns[t].tenant, row) in s.history
    ensures row.version < s.txns[t].writes[id].version
  {
    assert TxnOk(keyOf, s, t, s.txns[t]);
  }

  function Published(history: set<(nat, Row)>, x: Txn): set<(nat, Row)> {
    history + (set id | id in x.writes :: (x.tenant, x.writes[id]))
  }

  /** What commits is above every copy so far, and its versions differ. */
  ghost predicate AboveHistory(history: set<(nat, Row)>, x: Txn) {
    (forall id, row :: id in x.writes && (x.tenant, row) in history ==> row.version < x.writes[id].version)
    && (forall id :: id in x.writes ==> x.writes[id].id == id)
    && (forall i, j :: i in x.writes && j in x.writes && i != j ==> x.writes[i].version != x.writes[j].version)
  }

  lemma {:induction false} StagedAboveHistory(keyOf: nat -> int, s: Server, t: nat)
    requires Inv(keyOf, s) && HistoryOk(s.rows, s.history) && t in s.txns
    ensures AboveHistory(s.history, s.txns[t])
  {
    var x := s.txns[t];
    assert TxnOk(keyOf, s, t, x);
    forall id, row | id in x.writes && (x.tenant, row) in s.history ensures row.version < x.writes[id].version {
      StagedIsNew(keyOf, s, t, id, row);
    }
  }

  lemma {:induction false} PublishedBelowRows(
      rows: map<Key, Row>, history: set<(nat, Row)>, x: Txn, tenant: nat, row: Row)
    requires HistoryOk(rows, history) && AboveHistory(history, x) && (tenant, row) in Published(history, x)
    ensures var rows' := RowsAfter(rows, x.tenant, x.writes);
            Key(tenant, row.id) in rows' && row.version <= rows'[Key(tenant, row.id)].version
  {
  }

  lemma {:induction false} PublishedVersionsAreApart(
      rows: map<Key, Row>, history: set<(nat, Row)>, x: Txn, tenant: nat, row: Row, other: Row)
    requires HistoryOk(rows, history) && AboveHistory(history, x)
    requires (tenant, row) in Published(history, x) && (tenant, other) in Published(history, x)
             && row.version == other.version
    ensures row == other
  {
  }

  lemma {:induction false} PublishingKeepsHistory(rows: map<Key, Row>, history: set<(nat, Row)>, x: Txn)
    requires HistoryOk(rows, history) && AboveHistory(history, x)
    ensures HistoryOk(RowsAfter(rows, x.tenant, x.writes), Published(history, x))
  {
    var rows', history' := RowsAfter(rows, x.tenant, x.writes), Published(history, x);
    forall tenant: nat, row: Row | (tenant, row) in history'
      ensures Key(tenant, row.id) in rows' && row.version <= rows'[Key(tenant, row.id)].version
    {
      PublishedBelowRows(rows, history, x, tenant, row);
    }
    forall tenant: nat, row: Row, other: Row | (tenant, row) in history' && (tenant, other) in history'
      && row.version == other.version
      ensures row == other
    {
      PublishedVersionsAreApart(rows, history, x, tenant, row, other);
    }
  }

  lemma {:induction false} CommitKeepsHistory(keyOf: nat -> int, s: Server, t: nat, result: int)
    requires Inv(keyOf, s) && HistoryOk(s.rows, s.history)
    ensures HistoryOk(DoCommit(s, t, result).rows, DoCommit(s, t, result).history)
  {
    if t in s.txns && s.txns[t].phase == Claimed {
      StagedAboveHistory(keyOf, s, t);
      PublishingKeepsHistory(s.rows, s.history, s.txns[t]);
    }
  }

  lemma {:induction false} NextKeepsHistory(keyOf: nat -> int, s: Server, a: Action)
    requires Inv(keyOf, s) && HistoryOk(s.rows, s.history)
    ensures HistoryOk(Next(keyOf, s, a).rows, Next(keyOf, s, a).history)
  {
    if a.Commit? {
      CommitKeepsHistory(keyOf, s, a.txn, a.result);
    } else {
      OthersCommitNothing(keyOf, s, a);
    }
  }

  lemma {:induction false} RunKeepsHistory(keyOf: nat -> int, actions: seq<Action>)
    ensures HistoryOk(Run(keyOf, actions).rows, Run(keyOf, actions).history)
  {
    if actions != [] {
      var rest := actions[..|actions| - 1];
      RunKeepsHistory(keyOf, rest);
      RunKeeps(keyOf, rest);
      NextKeepsHistory(keyOf, Run(keyOf, rest), actions[|actions| - 1]);
    }
  }

  /** What was committed stays committed. */
  lemma {:induction false} HistoryGrows(keyOf: nat -> int, actions: seq<Action>, n: nat)
    requires n <= |actions|
    ensures Run(keyOf, actions[..n]).history <= Run(keyOf, actions).history
  {
    if n == |actions| {
      assert actions[..n] == actions;
    } else {
      var last: nat := |actions| - 1;
      assert actions[..last][..n] == actions[..n];
      HistoryGrows(keyOf, actions[..last], n);
      StepGrowsHistory(keyOf, Run(keyOf, actions[..last]), actions[last]);
    }
  }

  lemma {:induction false} StepGrowsHistory(keyOf: nat -> int, s: Server, a: Action)
    ensures s.history <= Next(keyOf, s, a).history
  {
  }

  // ---- all or nothing ----------------------------------------------------------

  /** A version that was drawn, is not staged and was never committed. */
  ghost predicate Dead(s: Server, tenant: nat, version: nat) {
    version < s.nextVersion
    && (forall row :: (tenant, row) in s.history ==> row.version != version)
    && (forall t, id :: t in s.txns && s.txns[t].tenant == tenant && id in s.txns[t].writes ==>
          s.txns[t].writes[id].version != version)
  }

  /** Nothing is staged but by a write. */
  ghost predicate StagesNoMore(s: Server, s': Server) {
    s.nextVersion <= s'.nextVersion
    && forall t, id :: t in s'.txns && id in s'.txns[t].writes ==>
         t in s.txns && s.txns[t].tenant == s'.txns[t].tenant && id in s.txns[t].writes
         && s.txns[t].writes[id] == s'.txns[t].writes[id]
  }

  /** All but one transaction stay as they are, and that one stages what it had, or nothing. */
  lemma {:induction false} OneTxnStagesNoMore(s: Server, s': Server, t: nat)
    requires s.nextVersion <= s'.nextVersion && s'.txns.Keys <= s.txns.Keys + {t}
    requires forall u :: u in s'.txns && u != t ==> s'.txns[u] == s.txns[u]
    requires t in s'.txns && s'.txns[t].writes != map[] ==>
               t in s.txns && s.txns[t].tenant == s'.txns[t].tenant && s.txns[t].writes == s'.txns[t].writes
    ensures StagesNoMore(s, s')
  {
  }

  lemma {:induction false} ClaimingStagesNothing(keyOf: nat -> int, s: Server, a: Action)
    requires a.Begin? || a.Lock? || a.Look?
    ensures StagesNoMore(s, Next(keyOf, s, a))
  {
    OneTxnStagesNoMore(s, Next(keyOf, s, a), a.txn);
  }

  lemma {:induction false} ClaimStagesNothing(s: Server, t: nat)
    ensures StagesNoMore(s, DoClaim(s, t))
  {
    OneTxnStagesNoMore(s, DoClaim(s, t), t);
  }

  lemma {:induction false} CyclesStageNothing(keyOf: nat -> int, s: Server, a: Action)
    requires a.FindCycle? || a.EndCycle?
    ensures StagesNoMore(s, Next(keyOf, s, a))
  {
    OneTxnStagesNoMore(s, Next(keyOf, s, a), a.txn);
  }

  lemma {:induction false} InsertStagesNothing(s: Server, t: nat)
    ensures StagesNoMore(s, DoInsertCycle(s, t))
  {
    OneTxnStagesNoMore(s, DoInsertCycle(s, t), t);
  }

  lemma {:induction false} EndingStagesNothing(keyOf: nat -> int, s: Server, a: Action)
    requires a.Commit? || a.Rollback?
    ensures StagesNoMore(s, Next(keyOf, s, a))
  {
    OneTxnStagesNoMore(s, Next(keyOf, s, a), a.txn);
  }

  lemma {:induction false} OthersStageNothing(keyOf: nat -> int, s: Server, a: Action)
    requires !a.Write?
    ensures StagesNoMore(s, Next(keyOf, s, a))
  {
    if a.Begin? || a.Lock? || a.Look? {
      ClaimingStagesNothing(keyOf, s, a);
    } else if a.Claim? {
      ClaimStagesNothing(s, a.txn);
    } else if a.InsertCycle? {
      InsertStagesNothing(s, a.txn);
    } else if a.FindCycle? || a.EndCycle? {
      CyclesStageNothing(keyOf, s, a);
    } else if a.Commit? || a.Rollback? {
      EndingStagesNothing(keyOf, s, a);
    }
  }

  lemma {:induction false} CommitPublishesStaged(s: Server, t: nat, result: int, tenant: nat, row: Row)
    requires (tenant, row) in DoCommit(s, t, result).history && (tenant, row) !in s.history
    ensures t in s.txns && s.txns[t].tenant == tenant
    ensures exists id :: id in s.txns[t].writes && s.txns[t].writes[id] == row
  {
  }

  lemma {:induction false} DeadStaysDead(keyOf: nat -> int, s: Server, a: Action, tenant: nat, version: nat)
    requires Dead(s, tenant, version)
    ensures Dead(Next(keyOf, s, a), tenant, version)
  {
    if a.Write? {
      OthersCommitNothing(keyOf, s, a);
      WriteStagesNew(s, a.txn, a.row, a.data, tenant, version);
    } else {
      OthersStageNothing(keyOf, s, a);
      if a.Commit? {
        forall row | (tenant, row) in DoCommit(s, a.txn, a.result).history ensures row.version != version {
          if (tenant, row) !in s.history {
            CommitPublishesStaged(s, a.txn, a.result, tenant, row);
          }
        }
      } else {
        OthersCommitNothing(keyOf, s, a);
      }
    }
  }

  lemma {:induction false} WriteStagesNew(s: Server, t: nat, row: nat, data: int, tenant: nat, version: nat)
    requires Dead(s, tenant, version)
    ensures Dead(DoWrite(s, t, row, data), tenant, version)
  {
  }

  lemma {:induction false} RunKeepsDead(keyOf: nat -> int, actions: seq<Action>, n: nat, tenant: nat, version: nat)
    requires n <= |actions| && Dead(Run(keyOf, actions[..n]), tenant, version)
    ensures Dead(Run(keyOf, actions), tenant, version)
  {
    if n == |actions| {
      assert actions[..n] == actions;
    } else {
      var last: nat := |actions| - 1;
      assert actions[..last][..n] == actions[..n];
      RunKeepsDead(keyOf, actions[..last], n, tenant, version);
      DeadStaysDead(keyOf, Run(keyOf, actions[..last]), actions[last], tenant, version);
    }
  }

  /** Rolling back kills every version the transaction had drawn for its rows. */
  lemma {:induction false} RollbackKills(keyOf: nat -> int, s: Server, t: nat, id: nat)
    requires Inv(keyOf, s) && HistoryOk(s.rows, s.history) && t in s.txns && id in s.txns[t].writes
    ensures Dead(Next(keyOf, s, Rollback(t)), s.txns[t].tenant, s.txns[t].writes[id].version)
  {
    var x, s' := s.txns[t], Next(keyOf, s, Rollback(t));
    assert TxnOk(keyOf, s, t, x);
    forall row | (x.tenant, row) in s'.history ensures row.version != x.writes[id].version {
      StagedIsNew(keyOf, s, t, id, row);
    }
    forall u | u in s'.txns && s'.txns[u].tenant == x.tenant ensures s'.txns[u].writes == map[] {
      NobodyElseWrites(keyOf, s, t, u);
    }
  }

  /** All or nothing, over every continuation. While a row is staged nobody has seen a copy at
      its version. When its transaction commits, every row it staged is current at that moment
      and its copy is committed for ever; when it rolls back, none of them ever is, in any
      state of any continuation. */
  lemma {:induction false} AllOrNothing(keyOf: nat -> int, actions: seq<Action>, n: nat, t: nat, id: nat)
    requires n < |actions| && var s := Run(keyOf, actions[..n]); t in s.txns && id in s.txns[t].writes
    ensures var s, now := Run(keyOf, actions[..n]), Run(keyOf, actions);
            var x := s.txns[t];
            (forall row :: (x.tenant, row) in s.history ==> row.version < x.writes[id].version)
            && (actions[n].Commit? && actions[n].txn == t ==> (x.tenant, x.writes[id]) in now.history)
            && (actions[n] == Rollback(t) ==>
                  forall row :: (x.tenant, row) in now.history ==> row.version != x.writes[id].version)
  {
    var s, x := Run(keyOf, actions[..n]), Run(keyOf, actions[..n]).txns[t];
    RunKeeps(keyOf, actions[..n]);
    RunKeepsHistory(keyOf, actions[..n]);
    forall row | (x.tenant, row) in s.history ensures row.version < x.writes[id].version {
      StagedIsNew(keyOf, s, t, id, row);
    }
    var m := n + 1;
    assert actions[..m][..n] == actions[..n];
    if actions[n].Commit? && actions[n].txn == t {
      StagedIsCommitted(keyOf, s, t, actions[n].result, id);
      HistoryGrows(keyOf, actions, m);
    }
    if actions[n] == Rollback(t) {
      RollbackKills(keyOf, s, t, id);
      RunKeepsDead(keyOf, actions, m, x.tenant, x.writes[id].version);
    }
  }

  lemma {:induction false} StagedIsCommitted(keyOf: nat -> int, s: Server, t: nat, result: int, id: nat)
    requires Inv(keyOf, s) && t in s.txns && id in s.txns[t].writes
    ensures var s' := DoCommit(s, t, result);
            (s.txns[t].tenant, s.txns[t].writes[id]) in s'.history
            && Key(s.txns[t].tenant, id) in s'.rows && s'.rows[Key(s.txns[t].tenant, id)] == s.txns[t].writes[id]
  {
    assert TxnOk(keyOf, s, t, s.txns[t]);
  }

  // ---- the answers are those of a register used by one caller at a time --------

  /** What an answer's operation came to. */
  function OutcomeOf(a: Answer): Result<int, ()> {
    if a.verdict.Applied? then Ok(a.verdict.result) else Err(())
  }

  /** The register after serving the answered operations one by one, in answer order. */
  function Served(answers: seq<Answer>): map<Key, Registered<int, int>> {
    if answers == [] then map[]
    else
      var a := answers[|answers| - 1];
      Ask(Served(answers[..|answers| - 1]), a.register, a.request, OutcomeOf(a)).0
  }

  /** Every answer is the one the register gives when it is asked in that order. */
  ghost predicate Serial(answers: seq<Answer>, register: map<Key, Registered<int, int>>) {
    Served(answers) == register
    && forall i :: 0 <= i < |answers| ==>
         Ask(Served(answers[..i]), answers[i].register, answers[i].request, OutcomeOf(answers[i])).1
           == answers[i].verdict
  }

  lemma {:induction false} OneMoreServed(
      answers: seq<Answer>, register: map<Key, Registered<int, int>>, a: Answer,
      register': map<Key, Registered<int, int>>)
    requires Serial(answers, register) && Ask(register, a.register, a.request, OutcomeOf(a)) == (register', a.verdict)
    ensures Serial(answers + [a], register')
  {
    var answers' := answers + [a];
    assert answers'[..|answers|] == answers;
    forall i | 0 <= i < |answers'|
      ensures Ask(Served(answers'[..i]), answers'[i].register, answers'[i].request, OutcomeOf(answers'[i])).1
              == answers'[i].verdict
    {
      if i < |answers| {
        assert answers'[..i] == answers[..i];
      }
    }
  }

  /** A step other than a commit answers nothing, or from the register. */
  lemma {:induction false} OthersAnswerFromRegister(keyOf: nat -> int, s: Server, a: Action)
    requires !a.Commit?
    ensures var s' := Next(keyOf, s, a);
            s'.answers == s.answers
            || (|s'.answers| == |s.answers| + 1 && s'.answers == s.answers + [s'.answers[|s.answers|]]
                && var answer := s'.answers[|s.answers|];
                   answer.register in s.register
                     && answer.verdict == Replay(s.register[answer.register], answer.request))
  {
  }

  lemma {:induction false} NextStaysSerial(keyOf: nat -> int, s: Server, a: Action)
    requires Inv(keyOf, s) && Serial(s.answers, s.register)
    ensures Serial(Next(keyOf, s, a).answers, Next(keyOf, s, a).register)
  {
    var s' := Next(keyOf, s, a);
    StepCommitsWithRegister(keyOf, s, a);
    if a.Commit? {
      if s' != s {
        OneMoreServed(s.answers, s.register, s'.answers[|s.answers|], s'.register);
      }
    } else {
      OthersCommitNothing(keyOf, s, a);
      OthersAnswerFromRegister(keyOf, s, a);
      if s'.answers != s.answers {
        OneMoreServed(s.answers, s.register, s'.answers[|s.answers|], s'.register);
      }
    }
  }

  /** However transactions interleave, the answers given and the register they leave are
      those of a register that serves the operations one at a time. */
  lemma {:induction false} AnswersAreSerial(keyOf: nat -> int, actions: seq<Action>)
    ensures Serial(Run(keyOf, actions).answers, Run(keyOf, actions).register)
  {
    if actions != [] {
      var rest := actions[..|actions| - 1];
      AnswersAreSerial(keyOf, rest);
      RunKeeps(keyOf, rest);
      NextStaysSerial(keyOf, Run(keyOf, rest), actions[|actions| - 1]);
    }
  }
}
