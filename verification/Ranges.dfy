/** Versioned terms with effective ranges: commission plans and operating-cost rates.
    A range is closed on both ends; an absent end means open-ended. */
module Ranges {
  import opened Outcomes
  import opened Calendar

  datatype Ranged<+T> = Ranged(from: Date, to: Option<Date>, terms: T) {
    predicate Covers(x: Date) {
      from.Key() <= x.Key() && (to.None? || x.Key() <= to.value.Key())
    }

    predicate ReachesTo(d: Date) {
      to.None? || d.Key() <= to.value.Key()
    }
  }

  datatype RangeError = BadRange | Overlap | ExcludeViolation

  /** The row in force on `x`: the only one whose range covers it. */
  function Effective<T>(rows: seq<Ranged<T>>, x: Date): (r: Option<nat>)
    ensures r.Some? ==> r.value < |rows| && rows[r.value].Covers(x)
    ensures r.None? ==> forall i :: 0 <= i < |rows| ==> !rows[i].Covers(x)
  {
    if rows == [] then None
    else
      var last := |rows| - 1;
      if rows[last].Covers(x) then Some(last) else Effective(rows[..last], x)
  }

  /** The rows a new range starting on `d` would meet, in table order. */
  function Clashing<T>(rows: seq<Ranged<T>>, d: Date): (r: seq<nat>)
    ensures forall i :: i in r <==> 0 <= i < |rows| && rows[i].ReachesTo(d)
    ensures forall i, j :: 0 <= i < j < |r| ==> r[i] < r[j]
  {
    if rows == [] then []
    else
      var last := |rows| - 1;
      var earlier := Clashing(rows[..last], d);
      assert forall i :: 0 <= i < |earlier| ==> earlier[i] in earlier;
      earlier + if rows[last].ReachesTo(d) then [last] else []
  }

  function ClosePredecessor<T>(rows: seq<Ranged<T>>, d: Date): (r: Result<seq<Ranged<T>>, RangeError>)
    ensures r.Ok? ==> |r.value| == |rows|
  {
    var clashing := Clashing(rows, d);
    if clashing == [] then Ok(rows)
    else
      assert clashing[0] in clashing;
      if |clashing| > 1 || d.Key() <= rows[clashing[0]].from.Key() then Err(Overlap)
    else if rows[clashing[0]].to.Some? then Err(Overlap)
    else Ok(rows[clashing[0] := rows[clashing[0]].(to := Some(PrevDay(d)))])
  }

  predicate Overlapping<T>(a: Ranged<T>, b: Ranged<T>) {
    a.ReachesTo(b.from) && b.ReachesTo(a.from)
  }

  /** The table's exclusion constraint, tested when the row is inserted. */
  predicate Excluded<T>(rows: seq<Ranged<T>>, row: Ranged<T>) {
    exists i :: 0 <= i < |rows| && Overlapping(rows[i], row)
  }

  function Create<T>(rows: seq<Ranged<T>>, row: Ranged<T>): Result<seq<Ranged<T>>, RangeError> {
    if !row.ReachesTo(row.from) then Err(BadRange)
    else
      var closed := ClosePredecessor(rows, row.from);
      if closed.Err? then closed
      else if Excluded(closed.value, row) then Err(ExcludeViolation)
      else Ok(closed.value + [row])
  }

  // ---- what every accepted range keeps -----------------------------------------

  /** Ranges are disjoint and stand in date order: each ends before any later one begins. */
  ghost predicate Ordered<T>(rows: seq<Ranged<T>>) {
    (forall i :: 0 <= i < |rows| ==> rows[i].ReachesTo(rows[i].from))
    && (forall i, j :: 0 <= i < j < |rows| ==> !rows[i].ReachesTo(rows[j].from))
  }

  lemma EffectiveIsUnique<T>(rows: seq<Ranged<T>>, x: Date, i: nat)
    requires Ordered(rows) && i < |rows|
    ensures rows[i].Covers(x) <==> Effective(rows, x) == Some(i)
  {
    var e := Effective(rows, x);
    if e.Some? && rows[i].Covers(x) {
      assert e.value < i ==> !rows[e.value].ReachesTo(rows[i].from);
      assert i < e.value ==> !rows[i].ReachesTo(rows[e.value].from);
    }
  }

  /** In an ordered table only the newest row can be in the way of a new one. */
  predicate Admits<T>(rows: seq<Ranged<T>>, d: Date) {
    rows == []
    || var last := rows[|rows| - 1];
       if last.to.None? then last.from.Key() < d.Key() else last.to.value.Key() < d.Key()
  }

  lemma ClashesOfOrdered<T>(rows: seq<Ranged<T>>, d: Date)
    requires Ordered(rows)
    ensures forall i :: 0 <= i < |rows| - 1 && rows[i].ReachesTo(d) ==> !Admits(rows, d)
    ensures Admits(rows, d) <==> ClosePredecessor(rows, d).Ok?
    ensures Admits(rows, d) ==>
              ClosePredecessor(rows, d).value
              == if rows != [] && rows[|rows| - 1].to.None?
                 then rows[|rows| - 1 := rows[|rows| - 1].(to := Some(PrevDay(d)))]
                 else rows
  {
    var clashing := Clashing(rows, d);
    assert |clashing| > 1 ==> clashing[0] < clashing[1];
    if rows != [] {
      var last := |rows| - 1;
      assert forall i :: 0 <= i < last ==> rows[i].to.Some? && rows[i].to.value.Key() < rows[last].from.Key();
      if clashing != [] {
        assert clashing[0] in clashing;
        if Admits(rows, d) {
          assert forall k :: 0 <= k < |clashing| ==> clashing[k] in clashing;
          assert forall k :: 0 <= k < |clashing| ==> clashing[k] == last;
        } else if |clashing| == 1 {
          assert last in clashing ==> clashing[0] == last;
        }
      } else {
        assert last !in clashing;
      }
    }
  }

  /** A range is accepted exactly when it is well-formed and starts after the newest row
      ends, or strictly after an open-ended newest row begins; the exclusion constraint
      never has to decide. The result is again ordered. */
  lemma CreateKeepsOrder<T>(rows: seq<Ranged<T>>, row: Ranged<T>)
    requires Ordered(rows)
    ensures Create(rows, row).Ok? <==> row.ReachesTo(row.from) && Admits(rows, row.from)
    ensures Create(rows, row) != Err(ExcludeViolation)
    ensures Create(rows, row).Ok? ==> Ordered(Create(rows, row).value)
  {
    ClashesOfOrdered(rows, row.from);
    if Admits(rows, row.from) {
      ClosedRowsEndBefore(rows, row.from);
      AppendKeepsOrder(ClosePredecessor(rows, row.from).value, row);
    }
  }

  /** What a request does to an ordered table, said of the rows. It must not end before it
      begins, and must begin after the newest row ends or, while that one is open-ended,
      begins. An accepted one ends an open-ended newest row the day before. */
  ghost predicate IsCreation<T>(rows: seq<Ranged<T>>, row: Ranged<T>, r: Result<seq<Ranged<T>>, RangeError>) {
    var n := |rows|;
    if row.to.Some? && row.to.value.Key() < row.from.Key() then r == Err(BadRange)
    else if n != 0 && (if rows[n - 1].to.Some? then row.from.Key() <= rows[n - 1].to.value.Key()
                       else row.from.Key() <= rows[n - 1].from.Key())
    then r == Err(Overlap)
    else
      r.Ok? && |r.value| == n + 1 && r.value[n] == row
      && (forall i :: 0 <= i < n - 1 ==> r.value[i] == rows[i])
      && (n != 0 ==> r.value[n - 1] == if rows[n - 1].to.Some? then rows[n - 1]
                                       else rows[n - 1].(to := Some(PrevDay(row.from))))
  }

  lemma CreatesExactly<T>(rows: seq<Ranged<T>>, row: Ranged<T>)
    requires Ordered(rows)
    ensures IsCreation(rows, row, Create(rows, row))
  {
    CreateKeepsOrder(rows, row);
    ClashesOfOrdered(rows, row.from);
  }

  /** A row that starts after every other has ended. */
  lemma AppendKeepsOrder<T>(rows: seq<Ranged<T>>, row: Ranged<T>)
    requires Ordered(rows) && forall i :: 0 <= i < |rows| ==> !rows[i].ReachesTo(row.from)
    ensures !Excluded(rows, row)
    ensures row.ReachesTo(row.from) ==> Ordered(rows + [row])
  {
    assert forall i :: 0 <= i < |rows| ==> !Overlapping(rows[i], row);
  }

  lemma ClosedRowsEndBefore<T>(rows: seq<Ranged<T>>, d: Date)
    requires Ordered(rows) && Admits(rows, d)
    ensures ClosePredecessor(rows, d).Ok?
    ensures var closed := ClosePredecessor(rows, d).value;
            Ordered(closed) && |closed| == |rows|
            && forall i :: 0 <= i < |closed| ==>
                 !closed[i].ReachesTo(d) && closed[i].from == rows[i].from && closed[i].terms == rows[i].terms
                 && forall x: Date :: x.Key() < d.Key() ==> (closed[i].Covers(x) <==> rows[i].Covers(x))
  {
    ClashesOfOrdered(rows, d);
    var closed := ClosePredecessor(rows, d).value;
    if rows != [] {
      var last := |rows| - 1;
      NoDateBetween(d, d);
      NoDateBetween(d, rows[last].from);
      forall i | 0 <= i < |closed|
        ensures !closed[i].ReachesTo(d)
        ensures forall x: Date :: x.Key() < d.Key() ==> (closed[i].Covers(x) <==> rows[i].Covers(x))
      {
        forall x: Date | x.Key() < d.Key() ensures closed[i].Covers(x) <==> rows[i].Covers(x) {
          NoDateBetween(d, x);
        }
      }
    }
  }

  /** An accepted start `d` changes the lookup only from `d` on. Earlier dates keep their
      row and its terms; from `d` on the new row answers where it covers, and nothing
      else does. */
  lemma CreateChangesOnlyTheFuture<T>(rows: seq<Ranged<T>>, row: Ranged<T>, x: Date)
    requires Ordered(rows) && Create(rows, row).Ok?
    ensures var after := Create(rows, row).value;
            if x.Key() < row.from.Key() then
              Effective(after, x) == Effective(rows, x)
              && (Effective(rows, x).Some? ==>
                    after[Effective(rows, x).value].terms == rows[Effective(rows, x).value].terms)
            else
              Effective(after, x) == if row.Covers(x) then Some(|rows|) else None
    ensures var after := Create(rows, row).value; after[|rows|] == row
  {
    CreateKeepsOrder(rows, row);
    ClosedRowsEndBefore(rows, row.from);
    var after := Create(rows, row).value;
    var closed := ClosePredecessor(rows, row.from).value;
    assert after == closed + [row];
    if x.Key() < row.from.Key() {
      LookupBefore(rows, closed, row, after, x);
    } else {
      LookupFrom(closed, row, after, x);
    }
  }

  lemma LookupBefore<T>(
      rows: seq<Ranged<T>>, closed: seq<Ranged<T>>, row: Ranged<T>, after: seq<Ranged<T>>, x: Date)
    requires Ordered(rows) && Ordered(after) && after == closed + [row] && |closed| == |rows|
    requires x.Key() < row.from.Key()
    requires forall i :: 0 <= i < |rows| ==> closed[i].terms == rows[i].terms
    requires forall i :: 0 <= i < |rows| ==> (closed[i].Covers(x) <==> rows[i].Covers(x))
    ensures Effective(after, x) == Effective(rows, x)
    ensures Effective(rows, x).Some? ==>
              after[Effective(rows, x).value].terms == rows[Effective(rows, x).value].terms
  {
    assert forall i :: 0 <= i < |rows| ==> after[i] == closed[i];
    if Effective(rows, x).Some? {
      EffectiveIsUnique(after, x, Effective(rows, x).value);
    }
  }

  lemma LookupFrom<T>(closed: seq<Ranged<T>>, row: Ranged<T>, after: seq<Ranged<T>>, x: Date)
    requires Ordered(after) && after == closed + [row] && row.from.Key() <= x.Key()
    requires forall i :: 0 <= i < |closed| ==> !closed[i].Covers(x)
    ensures Effective(after, x) == if row.Covers(x) then Some(|closed|) else None
  {
    assert after[|closed|] == row && forall i :: 0 <= i < |closed| ==> after[i] == closed[i];
    EffectiveIsUnique(after, x, |closed|);
  }

  /** Every table reachable from an empty one by accepted and refused requests. */
  function Replay<T>(requests: seq<Ranged<T>>): seq<Ranged<T>> {
    if requests == [] then []
    else
      var before := Replay(requests[..|requests| - 1]);
      var r := Create(before, requests[|requests| - 1]);
      if r.Ok? then r.value else before
  }

  lemma {:induction false} ReplayIsOrdered<T>(requests: seq<Ranged<T>>)
    ensures Ordered(Replay(requests))
  {
    if requests != [] {
      ReplayIsOrdered(requests[..|requests| - 1]);
      CreateKeepsOrder(Replay(requests[..|requests| - 1]), requests[|requests| - 1]);
    }
  }

  // ---- rates: always created open-ended ----------------------------------------

  ghost predicate Tiled<T>(rows: seq<Ranged<T>>) {
    Ordered(rows)
    && (forall i :: 0 <= i < |rows| - 1 ==> rows[i].to == Some(PrevDay(rows[i + 1].from)))
    && (rows != [] ==> rows[|rows| - 1].to.None?)
  }

  /** When every request is open-ended the ranges tile: they cover every date from the
      first start, with no gap. */
  lemma {:induction false} OpenEndedReplayTiles<T>(requests: seq<Ranged<T>>)
    requires forall i :: 0 <= i < |requests| ==> requests[i].to.None?
    ensures Tiled(Replay(requests))
  {
    if requests != [] {
      var before, row := Replay(requests[..|requests| - 1]), requests[|requests| - 1];
      OpenEndedReplayTiles(requests[..|requests| - 1]);
      CreateKeepsOrder(before, row);
      ClashesOfOrdered(before, row.from);
    }
  }

  lemma {:induction false} TiledCovers<T>(rows: seq<Ranged<T>>, x: Date)
    requires Tiled(rows)
    ensures Effective(rows, x).Some? <==> rows != [] && rows[0].from.Key() <= x.Key()
  {
    if rows != [] {
      forall e | 0 <= e < |rows| ensures rows[0].from.Key() <= rows[e].from.Key() {
        assert rows[0].ReachesTo(rows[0].from) && (0 < e ==> !rows[0].ReachesTo(rows[e].from));
      }
      if rows[0].from.Key() <= x.Key() {
        var i := TileOf(rows, x, |rows| - 1);
      }
    }
  }

  lemma {:induction false} TileOf<T>(rows: seq<Ranged<T>>, x: Date, hi: nat) returns (i: nat)
    requires Tiled(rows) && hi < |rows| && rows[0].from.Key() <= x.Key() && rows[hi].ReachesTo(x)
    ensures i < |rows| && rows[i].Covers(x)
  {
    if rows[hi].from.Key() <= x.Key() {
      i := hi;
    } else {
      NoDateBetween(rows[hi].from, x);
      i := TileOf(rows, x, hi - 1);
    }
  }

  // ---- the table, updated in place ---------------------------------------------

  class RangeTable<T(0)> {
    var rows: seq<Ranged<T>>

    constructor ()
      ensures rows == []
    {
      rows := [];
    }

    /** Close the open-ended row the new one succeeds, or refuse. */
    method CloseOpenPredecessor(d: Date) returns (error: Option<RangeError>)
      modifies this
      ensures ClosePredecessor(old(rows), d) == if error.None? then Ok(rows) else Err(error.value)
      ensures error.Some? ==> rows == old(rows)
    {
      var clashing: seq<nat> := [];
      var i := 0;
      while i < |rows|
        invariant 0 <= i <= |rows|
        invariant clashing == Clashing(rows[..i], d)
      {
        assert rows[..i + 1][..i] == rows[..i];
        if rows[i].ReachesTo(d) {
          clashing := clashing + [i];
        }
        i := i + 1;
      }
      assert rows[..i] == rows;
      if clashing == [] {
        return None;
      }
      assert clashing[0] in clashing;
      var k := clashing[0];
      if |clashing| > 1 || d.Key() <= rows[k].from.Key() || rows[k].to.Some? {
        return Some(Overlap);
      }
      rows := rows[k := rows[k].(to := Some(PrevDay(d)))];
      return None;
    }

    /** Insert a row; on any refusal the transaction rolls back and nothing changes. */
    method CreateRow(row: Ranged<T>) returns (error: Option<RangeError>)
      modifies this
      ensures Create(old(rows), row) == if error.None? then Ok(rows) else Err(error.value)
      ensures error.Some? ==> rows == old(rows)
    {
      if !row.ReachesTo(row.from) {
        return Some(BadRange);
      }
      var before := rows;
      error := CloseOpenPredecessor(row.from);
      if error.None? {
        if Excluded(rows, row) {
          rows := before;
          return Some(ExcludeViolation);
        }
        rows := rows + [row];
      }
    }
  }
}
