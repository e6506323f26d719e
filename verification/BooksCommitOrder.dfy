/** In what order the interleaved transactions of the books take effect: each committed
    transaction's work together, in the order of the commits, and no other work at all. */
module BooksCommitOrder {
  import opened Outcomes
  import opened Calendar
  import opened Books
  import opened BooksFeed
  import opened BooksTransactions

  /** What a transaction has done and not yet committed. */
  ghost function WorkOf(
      keyOf: nat -> int, me: nat, today: Date, startDay: StartDay, moves: seq<Move>, t: nat): seq<FeedEvent>
  {
    if moves == [] || t !in RunMoves(keyOf, me, today, startDay, moves).staged then []
    else
      var rest, m := moves[..|moves| - 1], moves[|moves| - 1];
      var s := RunMoves(keyOf, me, today, startDay, rest);
      WorkOf(keyOf, me, today, startDay, rest, t)
      + if m.Perform? && m.txn == t && AtWork(s.server, me, t) && IsWork(m.event) then [m.event] else []
  }

  /** The work of the transactions that have committed, in the order of their commits. */
  ghost function CommitOrder(
      keyOf: nat -> int, me: nat, today: Date, startDay: StartDay, moves: seq<Move>): seq<FeedEvent>
  {
    if moves == [] then []
    else
      var rest, m := moves[..|moves| - 1], moves[|moves| - 1];
      CommitOrder(keyOf, me, today, startDay, rest)
      + if Publishes(RunMoves(keyOf, me, today, startDay, rest), m)
        then WorkOf(keyOf, me, today, startDay, rest, m.action.txn) else []
  }

  function WorkIn(events: seq<FeedEvent>): seq<FeedEvent> {
    if events == [] then []
    else
      var last := events[|events| - 1];
      WorkIn(events[..|events| - 1]) + if IsWork(last) then [last] else []
  }

  function OwnIn(log: seq<Entry>): seq<FeedEvent> {
    if log == [] then []
    else
      var last := log[|log| - 1];
      OwnIn(log[..|log| - 1]) + if last.Own? then [last.event] else []
  }

  lemma {:induction false} WorkJoins(xs: seq<FeedEvent>, ys: seq<FeedEvent>, all: seq<FeedEvent>)
    requires all == xs + ys
    ensures WorkIn(all) == WorkIn(xs) + WorkIn(ys)
    decreases |ys|
  {
    if ys == [] {
      assert all == xs;
    } else {
      var rest := ys[..|ys| - 1];
      WorkJoins(xs, rest, xs + rest);
      assert all[..|all| - 1] == xs + rest;
    }
  }

  lemma {:induction false} OwnGrows(log: seq<Entry>, x: Entry)
    ensures OwnIn(log + [x]) == OwnIn(log) + if x.Own? then [x.event] else []
  {
    assert (log + [x])[..|log|] == log;
  }

  lemma {:induction false} WorkGrows(events: seq<FeedEvent>, e: FeedEvent)
    ensures WorkIn(events + [e]) == WorkIn(events) + if IsWork(e) then [e] else []
  {
    assert (events + [e])[..|events|] == events;
  }

  lemma {:induction false} UnlockedIsNoWork(cmd: Command)
    requires IsUnlocked(cmd)
    ensures !IsWork(Do(cmd))
  {
  }

  /** A log committed has its transaction's work; abandoned, it has none. */
  lemma {:induction false} WorkOfLog(log: seq<Entry>)
    requires LogOk(log)
    ensures WorkIn(Committed(log)) == OwnIn(log) && WorkIn(Abandoned(log)) == []
  {
    if log != [] {
      var rest, x := log[..|log| - 1], log[|log| - 1];
      WorkOfLog(rest);
      WorkOfOneMore(rest, x);
      assert log == rest + [x];
    }
  }

  lemma {:induction false} WorkOfOneMore(rest: seq<Entry>, x: Entry)
    requires WorkIn(Committed(rest)) == OwnIn(rest) && WorkIn(Abandoned(rest)) == []
    requires if x.Own? then IsWork(x.event) else IsUnlocked(x.cmd)
    ensures WorkIn(Committed(rest + [x])) == OwnIn(rest + [x]) && WorkIn(Abandoned(rest + [x])) == []
  {
    var cmd := if x.Own? then BurnVersions(x.drawn) else x.cmd;
    LogGrows(rest, x);
    OwnGrows(rest, x);
    WorkGrows(Committed(rest), if x.Own? then x.event else Do(cmd));
    WorkGrows(Abandoned(rest), Do(cmd));
    UnlockedIsNoWork(cmd);
  }

  /** The script has the committed work, and the log the work of whoever is at it. */
  ghost predicate InOrder(
      keyOf: nat -> int, me: nat, today: Date, startDay: StartDay, moves: seq<Move>, script: Script)
  {
    WorkIn(script.done) == CommitOrder(keyOf, me, today, startDay, moves)
    && forall t :: t in RunMoves(keyOf, me, today, startDay, moves).staged ==>
         OwnIn(script.log) == WorkOf(keyOf, me, today, startDay, moves, t)
  }

  /** One more move, seen from the run before it. */
  ghost predicate OneMore(
      keyOf: nat -> int, me: nat, today: Date, startDay: StartDay, moves: seq<Move>, rest: seq<Move>, m: Move,
      s: Floor, s': Floor)
  {
    moves == rest + [m] && s == RunMoves(keyOf, me, today, startDay, rest)
    && s' == RunMoves(keyOf, me, today, startDay, moves)
  }

  lemma {:induction false} OrderOneMore(
      keyOf: nat -> int, me: nat, today: Date, startDay: StartDay, moves: seq<Move>, rest: seq<Move>, m: Move,
      s: Floor, s': Floor)
    requires OneMore(keyOf, me, today, startDay, moves, rest, m, s, s')
    ensures CommitOrder(keyOf, me, today, startDay, moves)
            == CommitOrder(keyOf, me, today, startDay, rest)
               + if Publishes(s, m) then WorkOf(keyOf, me, today, startDay, rest, m.action.txn) else []
  {
    assert moves[..|moves| - 1] == rest;
  }

  lemma {:induction false} WorkOneMore(
      keyOf: nat -> int, me: nat, today: Date, startDay: StartDay, moves: seq<Move>, rest: seq<Move>, m: Move,
      s: Floor, s': Floor, t: nat)
    requires OneMore(keyOf, me, today, startDay, moves, rest, m, s, s') && t in s'.staged
    ensures WorkOf(keyOf, me, today, startDay, moves, t)
            == WorkOf(keyOf, me, today, startDay, rest, t)
               + if m.Perform? && m.txn == t && AtWork(s.server, me, t) && IsWork(m.event) then [m.event] else []
  {
    assert moves[..|moves| - 1] == rest;
  }

  lemma {:induction false} NothingStagedYet(
      keyOf: nat -> int, me: nat, today: Date, startDay: StartDay, rest: seq<Move>, s: Floor, t: nat)
    requires s == RunMoves(keyOf, me, today, startDay, rest) && t !in s.staged
    ensures WorkOf(keyOf, me, today, startDay, rest, t) == []
  {
  }

  /** Only work puts a transaction at work on the floor. */
  lemma {:induction false} OnlyWorkStages(keyOf: nat -> int, me: nat, s: Floor, m: Move, s': Floor, t: nat)
    requires s' == Next(keyOf, me, s, m) && t in s'.staged && t !in s.staged
    ensures m.Perform? && m.txn == t && AtWork(s.server, me, t) && IsWork(m.event)
  {
  }

  lemma {:induction false} StagedIsAtWork(keyOf: nat -> int, me: nat, s: Floor, s': Floor, m: Move, t: nat)
    requires FloorOk(keyOf, me, s) && s' == Next(keyOf, me, s, m) && t in s'.staged
    requires m.Perform? && AtWork(s.server, me, m.txn) && IsWork(m.event)
    ensures t == m.txn
  {
    if t in s.staged {
      OneAtWork(keyOf, s.server, me, t, m.txn);
    }
  }

  /** The log has the work of whoever is at it. */
  lemma {:induction false} LogInOrder(
      keyOf: nat -> int, me: nat, today: Date, startDay: StartDay, moves: seq<Move>, rest: seq<Move>, m: Move,
      s: Floor, s': Floor, log: seq<Entry>, x: Entry, t: nat)
    requires OneMore(keyOf, me, today, startDay, moves, rest, m, s, s') && s' == Next(keyOf, me, s, m)
    requires FloorOk(keyOf, me, s) && (s.staged == map[] ==> log == []) && x == NewEntry(me, s, m, s')
    requires forall u :: u in s.staged ==> OwnIn(log) == WorkOf(keyOf, me, today, startDay, rest, u)
    requires t in s'.staged
    ensures OwnIn(log + [x]) == WorkOf(keyOf, me, today, startDay, moves, t)
  {
    OwnGrows(log, x);
    WorkOneMore(keyOf, me, today, startDay, moves, rest, m, s, s', t);
    if x.Own? {
      StagedIsAtWork(keyOf, me, s, s', m, t);
    }
    if t !in s.staged {
      OnlyWorkStages(keyOf, me, s, m, s', t);
      NothingStagedYet(keyOf, me, today, startDay, rest, s, t);
      NobodyElse(keyOf, me, s, t);
    }
  }

  lemma {:induction false} NobodyElse(keyOf: nat -> int, me: nat, s: Floor, t: nat)
    requires FloorOk(keyOf, me, s) && AtWork(s.server, me, t) && t !in s.staged
    ensures s.staged == map[]
  {
    forall u | u in s.staged ensures false {
      OneAtWork(keyOf, s.server, me, t, u);
    }
  }

  lemma {:induction false} FetchInOrder(
      keyOf: nat -> int, me: nat, today: Date, startDay: StartDay, moves: seq<Move>, rest: seq<Move>, m: Move,
      s: Floor, s': Floor, script: Script)
    requires OneMore(keyOf, me, today, startDay, moves, rest, m, s, s') && m.Fetch? && s'.staged == s.staged
    requires InOrder(keyOf, me, today, startDay, rest, script)
    ensures InOrder(keyOf, me, today, startDay, moves, script.(done := script.done + [Pull(m.limit)]))
  {
    WorkGrows(script.done, Pull(m.limit));
    OrderOneMore(keyOf, me, today, startDay, moves, rest, m, s, s');
    forall t | t in s'.staged ensures OwnIn(script.log) == WorkOf(keyOf, me, today, startDay, moves, t) {
      WorkOneMore(keyOf, me, today, startDay, moves, rest, m, s, s', t);
    }
  }

  lemma {:induction false} WorkPublished(done: seq<FeedEvent>, log: seq<Entry>, x: Entry)
    requires LogOk(log + [x]) && x.Meanwhile?
    ensures WorkIn(done + Committed(log + [x])) == WorkIn(done) + OwnIn(log)
  {
    WorkOfLog(log + [x]);
    OwnGrows(log, x);
    WorkJoins(done, Committed(log + [x]), done + Committed(log + [x]));
  }

  lemma {:induction false} PublishedInOrder(
      keyOf: nat -> int, me: nat, today: Date, startDay: StartDay, moves: seq<Move>, rest: seq<Move>, m: Move,
      s: Floor, s': Floor, script: Script, x: Entry)
    requires OneMore(keyOf, me, today, startDay, moves, rest, m, s, s') && Publishes(s, m) && s'.staged == map[]
    requires InOrder(keyOf, me, today, startDay, rest, script) && LogOk(script.log + [x]) && x.Meanwhile?
    ensures InOrder(keyOf, me, today, startDay, moves, Script(script.done + Committed(script.log + [x]), []))
  {
    WorkPublished(script.done, script.log, x);
    OrderOneMore(keyOf, me, today, startDay, moves, rest, m, s, s');
  }

  lemma {:induction false} LoggedInOrder(
      keyOf: nat -> int, me: nat, today: Date, startDay: StartDay, moves: seq<Move>, rest: seq<Move>, m: Move,
      s: Floor, s': Floor, script: Script, x: Entry)
    requires OneMore(keyOf, me, today, startDay, moves, rest, m, s, s') && s' == Next(keyOf, me, s, m)
    requires FloorOk(keyOf, me, s) && (s.staged == map[] ==> script.log == []) && LogOk(script.log + [x])
    requires x == NewEntry(me, s, m, s') && !Publishes(s, m) && InOrder(keyOf, me, today, startDay, rest, script)
    ensures InOrder(keyOf, me, today, startDay, moves,
                    if s'.staged == map[] then Script(script.done + Abandoned(script.log + [x]), [])
                    else Script(script.done, script.log + [x]))
  {
    var lost := Abandoned(script.log + [x]);
    WorkOfLog(script.log + [x]);
    WorkJoins(script.done, lost, script.done + lost);
    OrderOneMore(keyOf, me, today, startDay, moves, rest, m, s, s');
    forall t | t in s'.staged ensures OwnIn(script.log + [x]) == WorkOf(keyOf, me, today, startDay, moves, t) {
      LogInOrder(keyOf, me, today, startDay, moves, rest, m, s, s', script.log, x, t);
    }
  }

  lemma {:induction false} PublishingEndsWork(keyOf: nat -> int, me: nat, s: Floor, m: Move, s': Floor)
    requires FloorOk(keyOf, me, s) && Publishes(s, m) && s' == Next(keyOf, me, s, m)
    ensures s'.staged == map[]
  {
    CommitEndsWork(keyOf, me, s, m.action.txn, m.action.result);
  }

  lemma {:induction false} MoveInOrder(
      keyOf: nat -> int, me: nat, today: Date, startDay: StartDay, moves: seq<Move>, rest: seq<Move>, m: Move,
      s: Floor, s': Floor, script: Script)
    requires OneMore(keyOf, me, today, startDay, moves, rest, m, s, s') && s' == Next(keyOf, me, s, m)
    requires FloorOk(keyOf, me, s) && (s.staged == map[] ==> script.log == []) && LogOk(script.log)
    requires InOrder(keyOf, me, today, startDay, rest, script)
    ensures InOrder(keyOf, me, today, startDay, moves, NextScript(me, s, m, s', script))
  {
    var x := NewEntry(me, s, m, s');
    NewEntryOk(me, s, m, s', script.log);
    if m.Fetch? {
      FetchInOrder(keyOf, me, today, startDay, moves, rest, m, s, s', script);
    } else if Publishes(s, m) {
      PublishingEndsWork(keyOf, me, s, m, s');
      PublishedInOrder(keyOf, me, today, startDay, moves, rest, m, s, s', script, x);
    } else {
      LoggedInOrder(keyOf, me, today, startDay, moves, rest, m, s, s', script, x);
    }
  }

  lemma {:induction false} OrderGoesOn(
      keyOf: nat -> int, me: nat, today: Date, startDay: StartDay, moves: seq<Move>, rest: seq<Move>, m: Move,
      s: Floor, script: Script)
    requires moves != [] && rest == moves[..|moves| - 1] && m == moves[|moves| - 1]
    requires s == RunMoves(keyOf, me, today, startDay, rest)
    requires script == ScriptOf(keyOf, me, today, startDay, rest)
    requires FloorOk(keyOf, me, s) && (s.staged == map[] ==> script.log == []) && LogOk(script.log)
    requires InOrder(keyOf, me, today, startDay, rest, script)
    ensures InOrder(keyOf, me, today, startDay, moves, ScriptOf(keyOf, me, today, startDay, moves))
  {
    assert moves == rest + [m];
    MoveInOrder(keyOf, me, today, startDay, moves, rest, m, s, RunMoves(keyOf, me, today, startDay, moves), script);
  }

  lemma {:induction false} RunInOrder(
      keyOf: nat -> int, me: nat, today: Date, startDay: StartDay, moves: seq<Move>)
    ensures InOrder(keyOf, me, today, startDay, moves, ScriptOf(keyOf, me, today, startDay, moves))
  {
    if moves != [] {
      var rest := moves[..|moves| - 1];
      RunInOrder(keyOf, me, today, startDay, rest);
      RunIsPlayed(keyOf, me, today, startDay, rest);
      OrderGoesOn(keyOf, me, today, startDay, moves, rest, moves[|moves| - 1],
                  RunMoves(keyOf, me, today, startDay, rest), ScriptOf(keyOf, me, today, startDay, rest));
    }
  }

  /** The serial sequence does the work of the committed transactions and no other, each
      transaction's together, in the order of their commits. */
  lemma {:induction false} SerialInCommitOrder(
      keyOf: nat -> int, me: nat, today: Date, startDay: StartDay, moves: seq<Move>)
    ensures WorkIn(SerialPlay(keyOf, me, today, startDay, moves)) == CommitOrder(keyOf, me, today, startDay, moves)
  {
    var script := ScriptOf(keyOf, me, today, startDay, moves);
    RunInOrder(keyOf, me, today, startDay, moves);
    RunIsPlayed(keyOf, me, today, startDay, moves);
    WorkOfLog(script.log);
    WorkJoins(script.done, Abandoned(script.log), script.done + Abandoned(script.log));
  }
}
