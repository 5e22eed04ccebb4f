/** The three traffic tables and the statements of the retention job, as relational functions
    and as methods that change the tables. */
module RetentionTables {
  import opened Numerals

  type Name = string

  /** One reading of a session's cumulative byte counters. */
  datatype Sample = Sample(session: nat, name: Name, bytesIn: int, bytesOut: int, at: int)

  /** A row of the hourly or the daily table; `start` is the start of the hour or day. */
  datatype Rollup = Rollup(name: Name, start: int, bytesIn: int, bytesOut: int, sessions: nat)

  datatype Field = In | Out | Sessions

  function Bytes(x: Sample, f: Field): int {
    if f == In then x.bytesIn else x.bytesOut
  }

  function Value(r: Rollup, f: Field): int {
    match f
    case In => r.bytesIn
    case Out => r.bytesOut
    case Sessions => r.sessions
  }

  function Hour(at: int): int {
    at / 3600 * 3600
  }

  function Day(at: int): int {
    at / 86400 * 86400
  }

  /** Hours and days start at multiples of 3600 and 86400 seconds, at or before the time. */
  lemma HourAndDay(at: int)
    ensures Hour(at) % 3600 == 0 && Hour(at) <= at < Hour(at) + 3600
    ensures Day(at) % 86400 == 0 && Day(at) <= at < Day(at) + 86400
  {
    WholeHour(Hour(at), at / 3600);
    WholeDay(Day(at), at / 86400);
  }

  lemma WholeHour(at: int, hours: int)
    requires at == hours * 3600
    ensures at % 3600 == 0
  {
  }

  lemma WholeDay(at: int, days: int)
    requires at == days * 86400
    ensures at % 86400 == 0
  {
  }

  /** The sum of one column over the rows of one common name. */
  function Sum(rows: seq<Rollup>, name: Name, f: Field): int {
    if rows == [] then 0
    else Sum(rows[..|rows| - 1], name, f) + if rows[|rows| - 1].name == name then Value(rows[|rows| - 1], f) else 0
  }

  // ---------- WHERE ----------

  function SamplesBefore(rows: seq<Sample>, cutoff: int): seq<Sample> {
    if rows == [] then []
    else if rows[|rows| - 1].at < cutoff then SamplesBefore(rows[..|rows| - 1], cutoff) + [rows[|rows| - 1]]
    else SamplesBefore(rows[..|rows| - 1], cutoff)
  }

  function SamplesFrom(rows: seq<Sample>, cutoff: int): seq<Sample> {
    if rows == [] then []
    else if rows[|rows| - 1].at >= cutoff then SamplesFrom(rows[..|rows| - 1], cutoff) + [rows[|rows| - 1]]
    else SamplesFrom(rows[..|rows| - 1], cutoff)
  }

  function RollupsBefore(rows: seq<Rollup>, cutoff: int): seq<Rollup> {
    if rows == [] then []
    else if rows[|rows| - 1].start < cutoff then RollupsBefore(rows[..|rows| - 1], cutoff) + [rows[|rows| - 1]]
    else RollupsBefore(rows[..|rows| - 1], cutoff)
  }

  function RollupsFrom(rows: seq<Rollup>, cutoff: int): seq<Rollup> {
    if rows == [] then []
    else if rows[|rows| - 1].start >= cutoff then RollupsFrom(rows[..|rows| - 1], cutoff) + [rows[|rows| - 1]]
    else RollupsFrom(rows[..|rows| - 1], cutoff)
  }

  // ---------- GROUP BY session_id, hour ----------

  datatype Group = Group(session: nat, hour: int, name: Name, minIn: int, maxIn: int, minOut: int, maxOut: int)

  function FindGroup(groups: seq<Group>, session: nat, hour: int): (i: int)
    ensures -1 <= i < |groups|
    ensures i >= 0 ==> groups[i].session == session && groups[i].hour == hour
    ensures i < 0 ==> forall j :: 0 <= j < |groups| ==> groups[j].session != session || groups[j].hour != hour
  {
    if groups == [] then -1
    else if groups[|groups| - 1].session == session && groups[|groups| - 1].hour == hour then |groups| - 1
    else FindGroup(groups[..|groups| - 1], session, hour)
  }

  lemma FindGroupSnoc(groups: seq<Group>, g: Group, session: nat, hour: int)
    ensures FindGroup(groups + [g], session, hour)
            == if g.session == session && g.hour == hour then |groups| else FindGroup(groups, session, hour)
  {
    assert (groups + [g])[..|groups|] == groups;
  }

  lemma {:induction false} FindGroupUpdate(groups: seq<Group>, i: nat, g: Group, session: nat, hour: int)
    requires i < |groups| && g.session == groups[i].session && g.hour == groups[i].hour
    ensures FindGroup(groups[i := g], session, hour) == FindGroup(groups, session, hour)
  {
    var last := |groups| - 1;
    if i == last {
      assert groups[i := g][..last] == groups[..last];
    } else {
      assert groups[i := g][..last] == groups[..last][i := g];
      FindGroupUpdate(groups[..last], i, g, session, hour);
    }
  }

  function NewGroup(x: Sample): Group {
    Group(x.session, Hour(x.at), x.name, x.bytesIn, x.bytesIn, x.bytesOut, x.bytesOut)
  }

  function Widened(g: Group, x: Sample): Group {
    g.(minIn := Min(g.minIn, x.bytesIn), maxIn := Max(g.maxIn, x.bytesIn),
       minOut := Min(g.minOut, x.bytesOut), maxOut := Max(g.maxOut, x.bytesOut))
  }

  function AddSample(groups: seq<Group>, x: Sample): seq<Group> {
    var i := FindGroup(groups, x.session, Hour(x.at));
    if i < 0 then groups + [NewGroup(x)] else groups[i := Widened(groups[i], x)]
  }

  function GroupSamples(rows: seq<Sample>): seq<Group> {
    if rows == [] then [] else AddSample(GroupSamples(rows[..|rows| - 1]), rows[|rows| - 1])
  }

  /** MAX - MIN of the counters of a group; it counts as one session of its hour. */
  function Delta(g: Group): Rollup {
    Rollup(g.name, g.hour, g.maxIn - g.minIn, g.maxOut - g.minOut, 1)
  }

  function Deltas(groups: seq<Group>): (rows: seq<Rollup>)
    ensures |rows| == |groups| && forall i :: 0 <= i < |groups| ==> rows[i] == Delta(groups[i])
  {
    seq(|groups|, i requires 0 <= i < |groups| => Delta(groups[i]))
  }

  // ---------- SUM ... GROUP BY common_name, start ----------

  function FindRollup(rows: seq<Rollup>, name: Name, start: int): (i: int)
    ensures -1 <= i < |rows|
    ensures i >= 0 ==> rows[i].name == name && rows[i].start == start
    ensures i < 0 ==> forall j :: 0 <= j < |rows| ==> rows[j].name != name || rows[j].start != start
  {
    if rows == [] then -1
    else if rows[|rows| - 1].name == name && rows[|rows| - 1].start == start then |rows| - 1
    else FindRollup(rows[..|rows| - 1], name, start)
  }

  function Plus(a: Rollup, b: Rollup): Rollup {
    a.(bytesIn := a.bytesIn + b.bytesIn, bytesOut := a.bytesOut + b.bytesOut, sessions := a.sessions + b.sessions)
  }

  function AddRollup(rows: seq<Rollup>, r: Rollup): seq<Rollup> {
    var i := FindRollup(rows, r.name, r.start);
    if i < 0 then rows + [r] else rows[i := Plus(rows[i], r)]
  }

  function Merge(rows: seq<Rollup>): seq<Rollup> {
    if rows == [] then [] else AddRollup(Merge(rows[..|rows| - 1]), rows[|rows| - 1])
  }

  function ByDay(rows: seq<Rollup>): (days: seq<Rollup>)
    ensures |days| == |rows| && forall i :: 0 <= i < |rows| ==> days[i] == rows[i].(start := Day(rows[i].start))
  {
    seq(|rows|, i requires 0 <= i < |rows| => rows[i].(start := Day(rows[i].start)))
  }

  /** The rows that aggregating the samples before `cutoff` inserts. */
  function HourlyOf(samples: seq<Sample>, cutoff: int): seq<Rollup> {
    Merge(Deltas(GroupSamples(SamplesBefore(samples, cutoff))))
  }

  /** The rows that aggregating the hourly rows before `cutoff` inserts. */
  function DailyOf(hourly: seq<Rollup>, cutoff: int): seq<Rollup> {
    Merge(ByDay(RollupsBefore(hourly, cutoff)))
  }

  // ---------- sums ----------

  lemma {:induction false} SumConcat(a: seq<Rollup>, b: seq<Rollup>, name: Name, f: Field)
    ensures Sum(a + b, name, f) == Sum(a, name, f) + Sum(b, name, f)
    decreases |b|
  {
    if b == [] {
      assert a + b == a;
    } else {
      assert (a + b)[..|a + b| - 1] == a + b[..|b| - 1];
      SumConcat(a, b[..|b| - 1], name, f);
    }
  }

  lemma {:induction false} SumUpdate(rows: seq<Rollup>, i: nat, r: Rollup, name: Name, f: Field)
    requires i < |rows| && rows[i].name == r.name
    ensures Sum(rows[i := r], name, f) == Sum(rows, name, f)
            + if r.name == name then Value(r, f) - Value(rows[i], f) else 0
  {
    var last := |rows| - 1;
    if i == last {
      assert rows[i := r][..last] == rows[..last];
    } else {
      assert rows[i := r][..last] == rows[..last][i := r];
      SumUpdate(rows[..last], i, r, name, f);
    }
  }

  lemma AddRollupSum(rows: seq<Rollup>, r: Rollup, name: Name, f: Field)
    ensures Sum(AddRollup(rows, r), name, f) == Sum(rows, name, f) + if r.name == name then Value(r, f) else 0
  {
    var i := FindRollup(rows, r.name, r.start);
    if i < 0 {
      assert (rows + [r])[..|rows|] == rows;
    } else {
      SumUpdate(rows, i, Plus(rows[i], r), name, f);
    }
  }

  /** Grouping by name and start keeps every column's sum per name. */
  lemma {:induction false} MergeKeepsSum(rows: seq<Rollup>, name: Name, f: Field)
    ensures Sum(Merge(rows), name, f) == Sum(rows, name, f)
  {
    if rows != [] {
      hide AddRollup;
      MergeKeepsSum(rows[..|rows| - 1], name, f);
      AddRollupSum(Merge(rows[..|rows| - 1]), rows[|rows| - 1], name, f);
    }
  }

  ghost predicate DistinctKeys(rows: seq<Rollup>) {
    forall i, j :: 0 <= i < j < |rows| ==> rows[i].name != rows[j].name || rows[i].start != rows[j].start
  }

  /** One row per name and start. */
  lemma {:induction false} MergeDistinct(rows: seq<Rollup>)
    ensures DistinctKeys(Merge(rows))
  {
    hide AddRollup;
    if rows != [] {
      MergeDistinct(rows[..|rows| - 1]);
      AddKeepsDistinct(Merge(rows[..|rows| - 1]), rows[|rows| - 1]);
    }
  }

  lemma AddKeepsDistinct(rows: seq<Rollup>, r: Rollup)
    requires DistinctKeys(rows)
    ensures DistinctKeys(AddRollup(rows, r))
  {
  }

  lemma {:induction false} ByDayKeepsSum(rows: seq<Rollup>, name: Name, f: Field)
    ensures Sum(ByDay(rows), name, f) == Sum(rows, name, f)
  {
    if rows != [] {
      assert ByDay(rows)[..|rows| - 1] == ByDay(rows[..|rows| - 1]);
      ByDayKeepsSum(rows[..|rows| - 1], name, f);
    }
  }

  lemma FilterSnoc(rows: seq<Rollup>, r: Rollup, cutoff: int)
    ensures RollupsFrom(rows + [r], cutoff) == if r.start < cutoff then RollupsFrom(rows, cutoff)
            else RollupsFrom(rows, cutoff) + [r]
    ensures RollupsBefore(rows + [r], cutoff) == if r.start < cutoff then RollupsBefore(rows, cutoff) + [r]
            else RollupsBefore(rows, cutoff)
  {
    assert (rows + [r])[..|rows|] == rows;
  }

  lemma SumSnoc(rows: seq<Rollup>, r: Rollup, name: Name, f: Field)
    ensures Sum(rows + [r], name, f) == Sum(rows, name, f) + if r.name == name then Value(r, f) else 0
  {
    assert (rows + [r])[..|rows|] == rows;
  }

  lemma {:induction false} SplitAtCutoff(rows: seq<Rollup>, cutoff: int, name: Name, f: Field)
    ensures Sum(rows, name, f) == Sum(RollupsBefore(rows, cutoff), name, f) + Sum(RollupsFrom(rows, cutoff), name, f)
  {
    if rows != [] {
      var most, last := rows[..|rows| - 1], rows[|rows| - 1];
      SplitAtCutoff(most, cutoff, name, f);
      SumSnoc(RollupsBefore(most, cutoff), last, name, f);
      SumSnoc(RollupsFrom(most, cutoff), last, name, f);
    }
  }

  lemma DailySum(hourly: seq<Rollup>, cutoff: int, name: Name, f: Field)
    ensures Sum(DailyOf(hourly, cutoff), name, f) == Sum(RollupsBefore(hourly, cutoff), name, f)
  {
    MergeKeepsSum(ByDay(RollupsBefore(hourly, cutoff)), name, f);
    ByDayKeepsSum(RollupsBefore(hourly, cutoff), name, f);
  }

  /** The hourly rows from `first` up to `second`. */
  function RollupsBetween(rows: seq<Rollup>, first: int, second: int): seq<Rollup> {
    RollupsBefore(RollupsFrom(rows, first), second)
  }

  lemma {:induction false} LaterCutoff(rows: seq<Rollup>, first: int, second: int)
    requires first <= second
    ensures RollupsFrom(RollupsFrom(rows, first), second) == RollupsFrom(rows, second)
  {
    if rows != [] {
      var most, last := rows[..|rows| - 1], rows[|rows| - 1];
      LaterCutoff(most, first, second);
      FilterSnoc(RollupsFrom(most, first), last, second);
    }
  }

  /** Rolling hourly rows up into days and pruning them keeps every column's sum per name, up to
      exactly the rows between the two cutoffs; with equal cutoffs nothing is lost. */
  lemma DailyRollKeepsTotals(hourly: seq<Rollup>, daily: seq<Rollup>, first: int, second: int, name: Name, f: Field)
    requires first <= second
    ensures Sum(RollupsFrom(hourly, second), name, f) + Sum(daily + DailyOf(hourly, first), name, f)
            == Sum(hourly, name, f) + Sum(daily, name, f) - Sum(RollupsBetween(hourly, first, second), name, f)
    ensures first == second ==> RollupsBetween(hourly, first, second) == []
  {
    SumConcat(daily, DailyOf(hourly, first), name, f);
    DailySum(hourly, first, name, f);
    SplitAtCutoff(hourly, first, name, f);
    SplitAtCutoff(RollupsFrom(hourly, first), second, name, f);
    LaterCutoff(hourly, first, second);
    if first == second { NothingBetween(hourly, first); }
  }

  /** The same when statements may fail: the totals grow by what an aggregation rolled up and shrink
      by what a prune removed, so a failed prune counts the rows before the cutoff twice and a failed
      aggregation loses them. */
  lemma DailyRollOrFail(hourly: seq<Rollup>, daily: seq<Rollup>, first: int, second: int, rolled: bool, pruned: bool,
                        name: Name, f: Field)
    ensures var hourly' := if pruned then RollupsFrom(hourly, second) else hourly;
            var daily' := if rolled then daily + DailyOf(hourly, first) else daily;
            Sum(hourly', name, f) + Sum(daily', name, f) == Sum(hourly, name, f) + Sum(daily, name, f)
            + (if rolled then Sum(RollupsBefore(hourly, first), name, f) else 0)
            - (if pruned then Sum(RollupsBefore(hourly, second), name, f) else 0)
  {
    hide DailyOf;
    SumConcat(daily, DailyOf(hourly, first), name, f);
    DailySum(hourly, first, name, f);
    SplitAtCutoff(hourly, second, name, f);
  }

  lemma {:induction false} NothingBetween(rows: seq<Rollup>, cutoff: int)
    ensures RollupsBetween(rows, cutoff, cutoff) == []
  {
    if rows != [] {
      var most, last := rows[..|rows| - 1], rows[|rows| - 1];
      NothingBetween(most, cutoff);
      FilterSnoc(RollupsFrom(most, cutoff), last, cutoff);
    }
  }
}
