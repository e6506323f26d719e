/** A tenant's reminder schedule: validation, and which stage is due on a day. */
module Schedule {
  import opened Outcomes

  datatype StageKind = StatementStage | ReminderStage | FinalStage

  datatype Stage = Stage(day: int, kind: StageKind)

  /** One entry of the stored column; a part of the wrong type is `None`. */
  datatype RawEntry = NotAnObject | RawEntry(day: Option<int>, kind: Option<StageKind>)

  datatype ScheduleError =
    | EmptySchedule | EntryNotAnObject | DayNotAnInteger | DayOutOfRange
    | UnknownKind | DayTwice | FinalTwice | FinalNotLast

  const LAST_STAGE_DAY: int := 28

  // ---- what a valid schedule is ------------------------------------------------

  predicate ValidEntry(e: RawEntry) {
    e.RawEntry? && e.day.Some? && 1 <= e.day.value <= 28 && e.kind.Some?
  }

  function ToStage(e: RawEntry): Stage
    requires ValidEntry(e)
  {
    Stage(e.day.value, e.kind.value)
  }

  ghost predicate DistinctDays(stages: seq<Stage>) {
    forall i, j :: 0 <= i < j < |stages| ==> stages[i].day != stages[j].day
  }

  ghost predicate InDayOrder(stages: seq<Stage>) {
    forall i, j :: 0 <= i < j < |stages| ==> stages[i].day < stages[j].day
  }

  ghost predicate IsSchedule(stages: seq<Stage>) {
    stages != [] && InDayOrder(stages)
    && (forall i :: 0 <= i < |stages| ==> 1 <= stages[i].day <= 28)
    && (forall i :: 0 <= i < |stages| - 1 ==> stages[i].kind != FinalStage)
  }

  /** Every entry is well-formed and no day occurs twice. */
  ghost predicate Readable(raw: seq<RawEntry>) {
    (forall i :: 0 <= i < |raw| ==> ValidEntry(raw[i]))
    && (forall i, j :: 0 <= i < j < |raw| ==> raw[i].day != raw[j].day)
  }

  /** What a tenant may store: readable entries, and nothing after a FINAL stage. */
  ghost predicate Acceptable(raw: seq<RawEntry>) {
    raw != [] && Readable(raw)
    && (forall i, j :: 0 <= i < |raw| && 0 <= j < |raw| && i != j && raw[i].kind == Some(FinalStage) ==>
          raw[j].day.value < raw[i].day.value)
  }

  /** The first unreadable entry, and what is wrong with it. */
  ghost predicate Complains(raw: seq<RawEntry>, n: nat, error: ScheduleError) {
    n < |raw| && Readable(raw[..n])
    && match error
       case EntryNotAnObject => raw[n].NotAnObject?
       case DayNotAnInteger => raw[n].RawEntry? && raw[n].day.None?
       case DayOutOfRange => raw[n].RawEntry? && raw[n].day.Some? && !(1 <= raw[n].day.value <= 28)
       case UnknownKind =>
         raw[n].RawEntry? && raw[n].day.Some? && 1 <= raw[n].day.value <= 28 && raw[n].kind.None?
       case DayTwice => ValidEntry(raw[n]) && exists i :: 0 <= i < n && raw[i].day == raw[n].day
       case _ => false
  }

  /** What a column that does not load is told. */
  ghost predicate LoadRefusal(raw: seq<RawEntry>, error: ScheduleError) {
    if raw == [] then error == EmptySchedule
    else if !Readable(raw) then exists n :: Complains(raw, n, error)
    else if exists i, j :: 0 <= i < j < |raw| && raw[i].kind == raw[j].kind == Some(FinalStage) then error == FinalTwice
    else
      error == FinalNotLast
      && exists i, j :: 0 <= i < |raw| && 0 <= j < |raw| && raw[i].kind == Some(FinalStage)
                        && raw[i].day.Some? && raw[j].day.Some? && raw[i].day.value < raw[j].day.value
  }

  /** The stages are exactly the stored entries. */
  ghost predicate FromRaw(raw: seq<RawEntry>, stages: seq<Stage>) {
    |stages| == |raw|
    && forall s :: s in stages <==> exists i :: 0 <= i < |raw| && raw[i] == RawEntry(Some(s.day), Some(s.kind))
  }

  // ---- sorting -----------------------------------------------------------------

  function InsertStage(s: Stage, stages: seq<Stage>): (r: seq<Stage>)
    ensures multiset(r) == multiset(stages) + multiset{s}
  {
    if stages == [] then [s]
    else
      assert stages == [stages[0]] + stages[1..];
      if s.day <= stages[0].day then [s] + stages else [stages[0]] + InsertStage(s, stages[1..])
  }

  function SortStages(stages: seq<Stage>): (r: seq<Stage>)
    ensures multiset(r) == multiset(stages)
  {
    if stages == [] then []
    else
      assert stages == stages[..|stages| - 1] + [stages[|stages| - 1]];
      InsertStage(stages[|stages| - 1], SortStages(stages[..|stages| - 1]))
  }

  lemma {:induction false} InsertKeepsOrder(s: Stage, stages: seq<Stage>)
    requires InDayOrder(stages) && forall i :: 0 <= i < |stages| ==> stages[i].day != s.day
    ensures InDayOrder(InsertStage(s, stages))
  {
    if stages != [] && stages[0].day < s.day {
      InsertKeepsOrder(s, stages[1..]);
      var rest := InsertStage(s, stages[1..]);
      forall j | 0 <= j < |rest| ensures stages[0].day < rest[j].day {
        assert rest[j] in multiset(rest);
        assert rest[j] == s || rest[j] in stages[1..];
      }
    }
  }

  lemma {:induction false} SortIsInDayOrder(stages: seq<Stage>)
    requires DistinctDays(stages)
    ensures InDayOrder(SortStages(stages))
  {
    if stages != [] {
      var last := |stages| - 1;
      SortIsInDayOrder(stages[..last]);
      var sorted := SortStages(stages[..last]);
      forall i | 0 <= i < |sorted| ensures sorted[i].day != stages[last].day {
        assert sorted[i] in multiset(sorted);
        assert sorted[i] in stages[..last];
      }
      InsertKeepsOrder(stages[last], sorted);
    }
  }

  // ---- loading -----------------------------------------------------------------

  /** The validation loop: either the entries as stages in their stored order, with
      distinct days, or the first entry's complaint. */
  method ReadEntries(raw: seq<RawEntry>) returns (r: Result<seq<Stage>, ScheduleError>)
    ensures r.Ok? <==> Readable(raw)
    ensures r.Ok? ==> |r.value| == |raw| && DistinctDays(r.value)
                      && forall i :: 0 <= i < |raw| ==> ValidEntry(raw[i]) && r.value[i] == ToStage(raw[i])
    ensures r.Err? ==> exists n :: Complains(raw, n, r.error)
  {
    var stages: seq<Stage> := [];
    var seen: set<int> := {};
    for n := 0 to |raw|
      invariant |stages| == n && DistinctDays(stages)
      invariant forall i :: 0 <= i < n ==> ValidEntry(raw[i]) && stages[i] == ToStage(raw[i])
      invariant forall d :: d in seen <==> exists i :: 0 <= i < n && stages[i].day == d
      invariant forall i, j :: 0 <= i < j < n ==> raw[i].day != raw[j].day
    {
      var entry := raw[n];
      assert Readable(raw[..n]);
      if entry.NotAnObject? {
        assert Complains(raw, n, EntryNotAnObject);
        return Err(EntryNotAnObject);
      }
      if entry.day.None? {
        assert Complains(raw, n, DayNotAnInteger);
        return Err(DayNotAnInteger);
      }
      var day := entry.day.value;
      if day < 1 || LAST_STAGE_DAY < day {
        assert Complains(raw, n, DayOutOfRange);
        return Err(DayOutOfRange);
      }
      if entry.kind.None? {
        assert Complains(raw, n, UnknownKind);
        return Err(UnknownKind);
      }
      if day in seen {
        var i :| 0 <= i < n && stages[i].day == day;
        assert raw[i].day == raw[n].day;
        assert Complains(raw, n, DayTwice);
        return Err(DayTwice);
      }
      seen := seen + {day};
      stages := stages + [ToStage(entry)];
    }
    return Ok(stages);
  }

  /** A column loads exactly when it is acceptable, and what it loads to is its entries in
      day order with the FINAL stage, if any, last. */
  method LoadSchedule(raw: seq<RawEntry>) returns (r: Result<seq<Stage>, ScheduleError>)
    ensures r.Ok? <==> Acceptable(raw)
    ensures r.Ok? ==> IsSchedule(r.value) && FromRaw(raw, r.value)
    ensures r.Err? ==> LoadRefusal(raw, r.error)
  {
    if raw == [] {
      return Err(EmptySchedule);
    }
    var read := ReadEntries(raw);
    if read.Err? {
      return read;
    }
    var ordered := SortStages(read.value);
    SortIsInDayOrder(read.value);
    SortedMembers(read.value, raw);
    var finals := FinalsOf(ordered);
    if |finals| > 1 {
      FinalBeforeTheEnd(raw, ordered, finals[0], finals[1]);
      TwoFinals(raw, ordered, finals[0], finals[1]);
      return Err(FinalTwice);
    }
    if |finals| == 1 && ordered[finals[0]].day != ordered[|ordered| - 1].day {
      FinalBeforeTheEnd(raw, ordered, finals[0], |ordered| - 1);
      OneFinalEarly(raw, ordered, finals[0]);
      return Err(FinalNotLast);
    }
    FinalLastIsAcceptable(raw, ordered);
    return Ok(ordered);
  }

  method FinalsOf(stages: seq<Stage>) returns (finals: seq<nat>)
    ensures forall k :: 0 <= k < |finals| ==> finals[k] < |stages| && stages[finals[k]].kind == FinalStage
    ensures forall k, m :: 0 <= k < m < |finals| ==> finals[k] < finals[m]
    ensures forall k :: 0 <= k < |stages| && stages[k].kind == FinalStage ==> k in finals
  {
    finals := [];
    for i := 0 to |stages|
      invariant forall k :: 0 <= k < |finals| ==> finals[k] < i && stages[finals[k]].kind == FinalStage
      invariant forall k, m :: 0 <= k < m < |finals| ==> finals[k] < finals[m]
      invariant forall k :: 0 <= k < i && stages[k].kind == FinalStage ==> k in finals
    {
      if stages[i].kind == FinalStage {
        finals := finals + [i];
      }
    }
  }

  lemma {:induction false} SortedMembers(stages: seq<Stage>, raw: seq<RawEntry>)
    requires |stages| == |raw| && forall i :: 0 <= i < |raw| ==> ValidEntry(raw[i]) && stages[i] == ToStage(raw[i])
    ensures FromRaw(raw, SortStages(stages))
  {
    var sorted := SortStages(stages);
    assert |sorted| == |multiset(sorted)| == |stages|;
    forall s ensures s in sorted <==> exists i :: 0 <= i < |raw| && raw[i] == RawEntry(Some(s.day), Some(s.kind)) {
      assert s in sorted <==> s in multiset(stages);
      if s in stages {
        var i :| 0 <= i < |stages| && stages[i] == s;
        assert raw[i] == RawEntry(Some(s.day), Some(s.kind));
      }
      if i :| 0 <= i < |raw| && raw[i] == RawEntry(Some(s.day), Some(s.kind)) {
        assert stages[i] == s;
      }
    }
  }

  /** A FINAL stage with a later stage after it. */
  lemma {:induction false} FinalBeforeTheEnd(raw: seq<RawEntry>, ordered: seq<Stage>, i: nat, j: nat)
    requires FromRaw(raw, ordered) && InDayOrder(ordered) && i < j < |ordered| && ordered[i].kind == FinalStage
    ensures !Acceptable(raw)
  {
    assert ordered[i] in ordered && ordered[j] in ordered;
    var x :| 0 <= x < |raw| && raw[x] == RawEntry(Some(ordered[i].day), Some(ordered[i].kind));
    var y :| 0 <= y < |raw| && raw[y] == RawEntry(Some(ordered[j].day), Some(ordered[j].kind));
  }

  lemma {:induction false} TwoFinals(raw: seq<RawEntry>, ordered: seq<Stage>, i: nat, j: nat)
    requires Readable(raw) && FromRaw(raw, ordered) && InDayOrder(ordered) && i < j < |ordered|
    requires ordered[i].kind == ordered[j].kind == FinalStage
    ensures exists x, y :: 0 <= x < y < |raw| && raw[x].kind == raw[y].kind == Some(FinalStage)
  {
    assert ordered[i] in ordered && ordered[j] in ordered;
    var x :| 0 <= x < |raw| && raw[x] == RawEntry(Some(ordered[i].day), Some(ordered[i].kind));
    var y :| 0 <= y < |raw| && raw[y] == RawEntry(Some(ordered[j].day), Some(ordered[j].kind));
    assert x < y || y < x;
  }

  /** The one FINAL stage, with a later stage after it. */
  lemma {:induction false} OneFinalEarly(raw: seq<RawEntry>, ordered: seq<Stage>, f: nat)
    requires raw != [] && Readable(raw) && FromRaw(raw, ordered) && InDayOrder(ordered) && f < |ordered| - 1
    requires ordered[f].kind == FinalStage
    requires forall k :: 0 <= k < |ordered| && ordered[k].kind == FinalStage ==> k == f
    ensures LoadRefusal(raw, FinalNotLast)
  {
    var last := |ordered| - 1;
    assert ordered[f] in ordered && ordered[last] in ordered;
    var x :| 0 <= x < |raw| && raw[x] == RawEntry(Some(ordered[f].day), Some(ordered[f].kind));
    var y :| 0 <= y < |raw| && raw[y] == RawEntry(Some(ordered[last].day), Some(ordered[last].kind));
    assert raw[x].day.value < raw[y].day.value;
    forall i | 0 <= i < |raw| && raw[i].kind == Some(FinalStage) ensures raw[i].day == Some(ordered[f].day) {
      var s := ToStage(raw[i]);
      assert raw[i] == RawEntry(Some(s.day), Some(s.kind));
      assert s in ordered;
    }
  }

  lemma {:induction false} FinalLastIsAcceptable(raw: seq<RawEntry>, ordered: seq<Stage>)
    requires raw != [] && FromRaw(raw, ordered) && InDayOrder(ordered)
    requires Readable(raw)
    requires forall i :: 0 <= i < |ordered| - 1 ==> ordered[i].kind != FinalStage
    ensures Acceptable(raw) && IsSchedule(ordered)
  {
    forall i, j | 0 <= i < |raw| && 0 <= j < |raw| && i != j && raw[i].kind == Some(FinalStage)
      ensures raw[j].day.value < raw[i].day.value
    {
      var s, t := ToStage(raw[i]), ToStage(raw[j]);
      assert raw[i] == RawEntry(Some(s.day), Some(s.kind)) && raw[j] == RawEntry(Some(t.day), Some(t.kind));
      assert s in ordered && t in ordered;
    }
    forall k | 0 <= k < |ordered| ensures 1 <= ordered[k].day <= LAST_STAGE_DAY {
      assert ordered[k] in ordered;
    }
  }

  // ---- the due stage -----------------------------------------------------------

  /** The latest stage on or before a day. */
  ghost predicate IsDue(stages: seq<Stage>, day: int, s: Stage) {
    s in stages && s.day <= day && forall t :: t in stages && t.day <= day ==> t.day <= s.day
  }

  function DueStage(stages: seq<Stage>, day: int): (r: Option<Stage>)
    ensures r.Some? ==> IsDue(stages, day, r.value)
    ensures r.None? ==> forall t :: t in stages ==> day < t.day
  {
    if stages == [] then None
    else
      var last := |stages| - 1;
      assert stages == stages[..last] + [stages[last]];
      var before := DueStage(stages[..last], day);
      if stages[last].day <= day && (before.None? || before.value.day < stages[last].day) then Some(stages[last])
      else before
  }

  /** The loop keeps the best stage so far. */
  method FindDueStage(stages: seq<Stage>, day: int) returns (latest: Option<Stage>)
    ensures latest == DueStage(stages, day)
  {
    latest := None;
    for i := 0 to |stages|
      invariant latest == DueStage(stages[..i], day)
    {
      assert stages[..i + 1][..i] == stages[..i];
      if stages[i].day <= day && (latest.None? || latest.value.day < stages[i].day) {
        latest := Some(stages[i]);
      }
    }
    assert stages[..|stages|] == stages;
  }

  /** A later day is never due for an earlier stage. */
  lemma {:induction false} DueStageRises(stages: seq<Stage>, a: int, b: int)
    requires a <= b && DueStage(stages, a).Some?
    ensures DueStage(stages, b).Some? && DueStage(stages, a).value.day <= DueStage(stages, b).value.day
  {
    var s := DueStage(stages, a).value;
    assert s in stages && s.day <= b;
  }

  /** The next stage after a day: the earliest one still to come. */
  method FindNextStage(stages: seq<Stage>, day: int) returns (upcoming: Option<Stage>)
    ensures upcoming.None? <==> forall t :: t in stages ==> t.day <= day
    ensures upcoming.Some? ==> upcoming.value in stages && day < upcoming.value.day
                               && forall t :: t in stages && day < t.day ==> upcoming.value.day <= t.day
  {
    upcoming := None;
    for i := 0 to |stages|
      invariant upcoming.None? ==> forall k :: 0 <= k < i ==> stages[k].day <= day
      invariant upcoming.Some? ==> upcoming.value in stages && day < upcoming.value.day
                                   && forall k :: 0 <= k < i && day < stages[k].day ==>
                                        upcoming.value.day <= stages[k].day
    {
      if day < stages[i].day && (upcoming.None? || stages[i].day < upcoming.value.day) {
        upcoming := Some(stages[i]);
      }
    }
  }
}
