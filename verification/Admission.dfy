/**
 * The hourly limiter of hosted model calls: one locked transaction prunes old rows, counts the recent
 * ones and inserts a row. The database reads its clock row by row while a statement runs; all that is
 * known of a reading is that it lies between the start of the transaction and the time of the insert.
 */
module Admission {
  import opened Wrappers

  type Subject = string

  datatype Row = Row(subject: Subject, createdAt: int)

  /** In microseconds, as the database keeps time. */
  const HOUR: int := 3_600_000_000

  /** Clock readings of one statement, by the position of the row. */
  type Readings = nat -> int

  ghost predicate Within(readings: Readings, begin: int, at: int) {
    forall i: nat :: begin <= readings(i) <= at
  }

  /** Rows that the pruning statement leaves. */
  function Kept(rows: seq<Row>, readings: Readings): seq<Row> {
    if rows == [] then [] else
      var n := |rows| - 1;
      Kept(rows[..n], readings) + if rows[n].createdAt < readings(n) - 2 * HOUR then [] else [rows[n]]
  }

  predicate Counted(row: Row, who: Option<Subject>, since: int) {
    row.createdAt >= since && (who.None? || who.value == row.subject)
  }

  /** What a counting statement answers, for one subject or for all. */
  function Recent(rows: seq<Row>, who: Option<Subject>, readings: Readings): nat {
    if rows == [] then 0 else
      var n := |rows| - 1;
      Recent(rows[..n], who, readings) + if Counted(rows[n], who, readings(n) - HOUR) then 1 else 0
  }

  /** One call: who asks, the clock readings of its three statements, and the time of the insert. */
  datatype Call = Call(
    subject: Subject, begin: int, prune: Readings, countAll: Readings, countOwn: Readings, at: int)

  datatype Limits = Limits(perSubject: int, global: int)

  function Admits(rows: seq<Row>, limits: Limits, call: Call): bool {
    var rest := Kept(rows, call.prune);
    && Recent(rest, None, call.countAll) < limits.global
    && Recent(rest, Some(call.subject), call.countOwn) < limits.perSubject
  }

  /** A refused call is rolled back, so it does not prune either. */
  function Table(rows: seq<Row>, limits: Limits, call: Call): seq<Row> {
    if Admits(rows, limits, call) then Kept(rows, call.prune) + [Row(call.subject, call.at)] else rows
  }

  class AdmissionTable {
    var rows: seq<Row>

    constructor ()
      ensures rows == []
    {
      rows := [];
    }

    method DeleteOld(readings: Readings)
      modifies this
      ensures rows == Kept(old(rows), readings)
    {
      var all, kept := rows, [];
      for i := 0 to |all|
        invariant rows == all && kept == Kept(all[..i], readings)
      {
        assert all[..i + 1][..i] == all[..i];
        if all[i].createdAt >= readings(i) - 2 * HOUR {
          kept := kept + [all[i]];
        }
      }
      assert all[..|all|] == all;
      rows := kept;
    }

    method Count(who: Option<Subject>, readings: Readings) returns (n: nat)
      ensures n == Recent(rows, who, readings)
    {
      n := 0;
      for i := 0 to |rows|
        invariant n == Recent(rows[..i], who, readings)
      {
        assert rows[..i + 1][..i] == rows[..i];
        if Counted(rows[i], who, readings(i) - HOUR) {
          n := n + 1;
        }
      }
      assert rows[..|rows|] == rows;
    }

    method AdmitPlatformAiCall(limits: Limits, call: Call) returns (admitted: bool)
      modifies this
      ensures admitted <==> Admits(old(rows), limits, call)
      ensures rows == Table(old(rows), limits, call)
      ensures !admitted ==> rows == old(rows)
      ensures admitted ==> rows != [] && rows[|rows| - 1] == Row(call.subject, call.at)
    {
      var saved := rows;
      DeleteOld(call.prune);
      var all := Count(None, call.countAll);
      if all >= limits.global {
        rows := saved;
        return false;
      }
      var own := Count(Some(call.subject), call.countOwn);
      if own >= limits.perSubject {
        rows := saved;
        return false;
      }
      rows := rows + [Row(call.subject, call.at)];
      admitted := true;
    }
  }

  // ----- runs -----

  /** The table, every row ever admitted, and the latest time read. */
  datatype State = State(rows: seq<Row>, history: seq<Row>, now: int)

  /** The clock never goes back; transactions follow one another under the global lock. */
  ghost predicate Timely(s: State, call: Call) {
    && s.now <= call.begin <= call.at
    && Within(call.prune, call.begin, call.at) && Within(call.countAll, call.begin, call.at)
    && Within(call.countOwn, call.begin, call.at)
  }

  ghost function Exec(limits: Limits, s: State, call: Call): State {
    if !Timely(s, call) then s else
      State(Table(s.rows, limits, call),
            if Admits(s.rows, limits, call) then s.history + [Row(call.subject, call.at)] else s.history,
            call.at)
  }

  ghost function RunOf(limits: Limits, start: int, calls: seq<Call>): State {
    if calls == [] then State([], [], start)
    else Exec(limits, RunOf(limits, start, calls[..|calls| - 1]), calls[|calls| - 1])
  }

  // ----- counting -----

  /** Rows not older than a time. */
  function Since(rows: seq<Row>, who: Option<Subject>, since: int): nat {
    if rows == [] then 0 else
      var n := |rows| - 1;
      Since(rows[..n], who, since) + if Counted(rows[n], who, since) then 1 else 0
  }

  /** Rows in a window, both ends included. */
  function InWindow(rows: seq<Row>, who: Option<Subject>, from: int, to: int): nat {
    if rows == [] then 0 else
      var n := |rows| - 1;
      InWindow(rows[..n], who, from, to) +
      if from <= rows[n].createdAt <= to && (who.Some? ==> who.value == rows[n].subject) then 1 else 0
  }

  lemma SinceSnoc(rows: seq<Row>, row: Row, who: Option<Subject>, since: int)
    ensures Since(rows + [row], who, since) == Since(rows, who, since) + if Counted(row, who, since) then 1 else 0
  {
    assert (rows + [row])[..|rows|] == rows;
  }

  lemma WindowSnoc(rows: seq<Row>, row: Row, who: Option<Subject>, from: int, to: int)
    ensures InWindow(rows + [row], who, from, to) ==
            InWindow(rows, who, from, to) +
            if from <= row.createdAt <= to && (who.Some? ==> who.value == row.subject) then 1 else 0
  {
    assert (rows + [row])[..|rows|] == rows;
  }

  lemma {:induction false} WindowSince(rows: seq<Row>, who: Option<Subject>, from: int, to: int, since: int)
    requires since <= from
    ensures InWindow(rows, who, from, to) <= Since(rows, who, since)
  {
    if rows != [] {
      WindowSince(rows[..|rows| - 1], who, from, to, since);
    }
  }

  lemma KeptLast(rows: seq<Row>, readings: Readings)
    requires rows != []
    ensures
      var n := |rows| - 1;
      Kept(rows, readings) ==
      if rows[n].createdAt < readings(n) - 2 * HOUR then Kept(rows[..n], readings)
      else Kept(rows[..n], readings) + [rows[n]]
  {
  }

  /** Pruning takes no row that is counted now or later. */
  lemma {:induction false} PruningIsHarmless(rows: seq<Row>, readings: Readings, begin: int, at: int,
                                             who: Option<Subject>, since: int)
    requires Within(readings, begin, at) && at - 2 * HOUR <= since
    ensures Since(Kept(rows, readings), who, since) == Since(rows, who, since)
  {
    if rows != [] {
      var n := |rows| - 1;
      PruningIsHarmless(rows[..n], readings, begin, at, who, since);
      KeptLast(rows, readings);
      if rows[n].createdAt < readings(n) - 2 * HOUR {
        assert readings(n) <= at;
        assert !Counted(rows[n], who, since);
      } else {
        SinceSnoc(Kept(rows[..n], readings), rows[n], who, since);
      }
    }
  }

  /** Pruning leaves no row older than two hours before the transaction began, and nothing it leaves was not there. */
  lemma {:induction false} PruningPrunes(rows: seq<Row>, readings: Readings, begin: int, at: int)
    requires Within(readings, begin, at)
    ensures forall i :: 0 <= i < |Kept(rows, readings)| ==>
              Kept(rows, readings)[i] in rows && Kept(rows, readings)[i].createdAt >= begin - 2 * HOUR
  {
    if rows != [] {
      var n := |rows| - 1;
      PruningPrunes(rows[..n], readings, begin, at);
      assert begin <= readings(n);
      assert forall row :: row in rows[..n] ==> row in rows;
    }
  }

  lemma {:induction false} KeptAreRows(rows: seq<Row>, readings: Readings, who: Option<Subject>, since: int)
    ensures Since(Kept(rows, readings), who, since) <= Since(rows, who, since)
  {
    if rows != [] {
      var n := |rows| - 1;
      KeptAreRows(rows[..n], readings, who, since);
      KeptLast(rows, readings);
      SinceSnoc(Kept(rows[..n], readings), rows[n], who, since);
    }
  }

  /** A counting statement counts every row of the hour before the insert. */
  lemma {:induction false} CountsTheHour(rows: seq<Row>, who: Option<Subject>, readings: Readings, begin: int, at: int)
    requires Within(readings, begin, at)
    ensures Since(rows, who, at - HOUR) <= Recent(rows, who, readings)
  {
    if rows != [] {
      CountsTheHour(rows[..|rows| - 1], who, readings, begin, at);
      assert readings(|rows| - 1) <= at;
    }
  }

  /** A counting statement counts no row older than an hour before the transaction began. */
  lemma {:induction false} CountsNoMore(rows: seq<Row>, who: Option<Subject>, readings: Readings, begin: int, at: int)
    requires Within(readings, begin, at)
    ensures Recent(rows, who, readings) <= Since(rows, who, begin - HOUR)
  {
    if rows != [] {
      CountsNoMore(rows[..|rows| - 1], who, readings, begin, at);
      assert begin <= readings(|rows| - 1);
    }
  }

  // ----- what holds in every run -----

  /** The limit that applies to one subject, or to all. */
  function Limit(limits: Limits, who: Option<Subject>): nat {
    var limit := if who.Some? then limits.perSubject else limits.global;
    if limit < 0 then 0 else limit
  }

  /** The table agrees with the history on everything the last two hours hold. */
  ghost predicate Agrees(s: State, who: Option<Subject>, since: int) {
    Since(s.rows, who, since) == Since(s.history, who, since)
  }

  ghost predicate WindowOk(limits: Limits, s: State, who: Option<Subject>, from: int) {
    InWindow(s.history, who, from, from + HOUR) <= Limit(limits, who)
  }

  ghost predicate Inv(limits: Limits, s: State) {
    && (forall who, since :: s.now - 2 * HOUR <= since ==> Agrees(s, who, since))
    && (forall who, from :: WindowOk(limits, s, who, from))
  }

  lemma StaysAgreed(limits: Limits, s: State, call: Call, who: Option<Subject>, since: int)
    requires Timely(s, call) && Agrees(s, who, since) && call.at - 2 * HOUR <= since
    ensures Agrees(Exec(limits, s, call), who, since)
  {
    if Admits(s.rows, limits, call) {
      PruningIsHarmless(s.rows, call.prune, call.begin, call.at, who, since);
      SinceSnoc(Kept(s.rows, call.prune), Row(call.subject, call.at), who, since);
      SinceSnoc(s.history, Row(call.subject, call.at), who, since);
    }
  }

  /** An admitted call finds room in the hour before its insert, among all rows ever admitted. */
  lemma RoomInTheHour(limits: Limits, s: State, call: Call, who: Option<Subject>)
    requires Timely(s, call) && Agrees(s, who, call.at - HOUR) && Admits(s.rows, limits, call)
    requires who.None? || who.value == call.subject
    ensures Since(s.history, who, call.at - HOUR) < Limit(limits, who)
  {
    var rest := Kept(s.rows, call.prune);
    PruningIsHarmless(s.rows, call.prune, call.begin, call.at, who, call.at - HOUR);
    CountsTheHour(rest, who, if who.None? then call.countAll else call.countOwn, call.begin, call.at);
  }

  lemma WindowStaysOk(limits: Limits, s: State, call: Call, who: Option<Subject>, from: int)
    requires Timely(s, call) && Agrees(s, who, call.at - HOUR) && WindowOk(limits, s, who, from)
    ensures WindowOk(limits, Exec(limits, s, call), who, from)
  {
    if Admits(s.rows, limits, call) {
      var row := Row(call.subject, call.at);
      WindowSnoc(s.history, row, who, from, from + HOUR);
      if Counted(row, who, from) && row.createdAt <= from + HOUR {
        RoomInTheHour(limits, s, call, who);
        WindowSince(s.history, who, from, from + HOUR, call.at - HOUR);
      }
    }
  }

  lemma {:induction false} RunKeeps(limits: Limits, start: int, calls: seq<Call>)
    ensures Inv(limits, RunOf(limits, start, calls))
  {
    if calls != [] {
      var s, call := RunOf(limits, start, calls[..|calls| - 1]), calls[|calls| - 1];
      var t := Exec(limits, s, call);
      RunKeeps(limits, start, calls[..|calls| - 1]);
      if Timely(s, call) {
        forall who, since | t.now - 2 * HOUR <= since ensures Agrees(t, who, since) {
          assert Agrees(s, who, since);
          StaysAgreed(limits, s, call, who, since);
        }
        forall who, from ensures WindowOk(limits, t, who, from) {
          assert WindowOk(limits, s, who, from) && Agrees(s, who, call.at - HOUR);
          WindowStaysOk(limits, s, call, who, from);
        }
      }
    }
  }

  /**
   * In any run, no window of one hour, wherever it starts, holds more admitted calls than the global
   * limit, nor more of one subject than the subject's limit, counting rows already pruned.
   */
  lemma HourlyLimitsHold(limits: Limits, start: int, calls: seq<Call>, subject: Subject, from: int)
    ensures InWindow(RunOf(limits, start, calls).history, None, from, from + HOUR) <= Limit(limits, None)
    ensures InWindow(RunOf(limits, start, calls).history, Some(subject), from, from + HOUR)
            <= Limit(limits, Some(subject))
  {
    RunKeeps(limits, start, calls);
    assert WindowOk(limits, RunOf(limits, start, calls), None, from);
    assert WindowOk(limits, RunOf(limits, start, calls), Some(subject), from);
  }

  /** A call is refused only when a limit is used up in the hour before it began. */
  lemma RefusalIsDue(limits: Limits, start: int, calls: seq<Call>, call: Call)
    requires Timely(RunOf(limits, start, calls), call)
    requires !Admits(RunOf(limits, start, calls).rows, limits, call)
    ensures
      var history := RunOf(limits, start, calls).history;
      || limits.global <= Since(history, None, call.begin - HOUR)
      || limits.perSubject <= Since(history, Some(call.subject), call.begin - HOUR)
  {
    var s := RunOf(limits, start, calls);
    RunKeeps(limits, start, calls);
    var rest, since := Kept(s.rows, call.prune), call.begin - HOUR;
    forall who, readings | Within(readings, call.begin, call.at)
      ensures Recent(rest, who, readings) <= Since(s.history, who, since)
    {
      CountsNoMore(rest, who, readings, call.begin, call.at);
      KeptAreRows(s.rows, call.prune, who, since);
      assert Agrees(s, who, since);
    }
  }
}
