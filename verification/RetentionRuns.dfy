/** Whole runs of sample inserts and retention rounds, with samples arriving between the
    statements of a round. Every byte that a session's counters grew by is found in the rollup
    tables or in a named gap. */
module RetentionRuns {
  import opened Outcomes
  import opened RetentionTables

  /** What became of a sample. `Rolled` and `Archived` name the round and hour in whose
      aggregate it was counted, before and after it was pruned; a `Lost` one was pruned without. */
  datatype Label = Live | Rolled(round: nat, hour: int) | Archived(round: nat, hour: int) | Lost | Twice

  datatype Phase =
    | Between
    | SamplesRolled(cutoff: int)
    | HourlyRolled(cutoff: int, hourlyCutoff: int)
    | SamplesPruned(hourlyCutoff: int)

  /** The tables, all samples ever inserted with what became of them, and the hourly rows that
      were pruned without being rolled up. */
  datatype State = State(
    samples: seq<Sample>, hourly: seq<Rollup>, daily: seq<Rollup>,
    log: seq<Sample>, labels: seq<Label>, gone: seq<Rollup>, round: nat, phase: Phase)

  datatype Event =
    | Insert(sample: Sample)
    | AggregateSamples(cutoff: int)
    | AggregateFails(cutoff: int)
    | AggregateHourly(cutoff: int)
    | PruneSamples(cutoff: int)
    | PruneHourly(cutoff: int)

  const INIT := State([], [], [], [], [], [], 0, Between)

  /** The latest sample of a session before index k, or -1. */
  function Prev(log: seq<Sample>, k: nat, session: nat): (p: int)
    requires k <= |log|
    ensures -1 <= p < k
    ensures p >= 0 ==> log[p].session == session
    ensures forall j :: p < j < k && j >= 0 ==> log[j].session != session
  {
    if k == 0 then -1 else if log[k - 1].session == session then k - 1 else Prev(log, k - 1, session)
  }

  /** Counters and clock of a session do not run backwards, and its name stays. */
  predicate Follows(log: seq<Sample>, x: Sample) {
    var p := Prev(log, |log|, x.session);
    p >= 0 ==>
      && log[p].name == x.name && log[p].at <= x.at
      && log[p].bytesIn <= x.bytesIn && log[p].bytesOut <= x.bytesOut
  }

  predicate InTable(l: Label) {
    l.Live? || l.Rolled?
  }

  function Aggregated(x: Sample, l: Label, cutoff: int, round: nat): Label {
    if x.at >= cutoff || !InTable(l) then l else if l.Live? then Rolled(round, Hour(x.at)) else Twice
  }

  function Pruned(x: Sample, l: Label, cutoff: int): Label {
    if x.at >= cutoff || !InTable(l) then l else if l.Live? then Lost else Archived(l.round, l.hour)
  }

  function AggregateLabels(log: seq<Sample>, labels: seq<Label>, cutoff: int, round: nat): (r: seq<Label>)
    requires |log| == |labels|
    ensures |r| == |log| && forall k :: 0 <= k < |log| ==> r[k] == Aggregated(log[k], labels[k], cutoff, round)
  {
    seq(|log|, k requires 0 <= k < |log| && |log| == |labels| => Aggregated(log[k], labels[k], cutoff, round))
  }

  function PruneLabels(log: seq<Sample>, labels: seq<Label>, cutoff: int): (r: seq<Label>)
    requires |log| == |labels|
    ensures |r| == |log| && forall k :: 0 <= k < |log| ==> r[k] == Pruned(log[k], labels[k], cutoff)
  {
    seq(|log|, k requires 0 <= k < |log| && |log| == |labels| => Pruned(log[k], labels[k], cutoff))
  }

  /** The state after an event. The statements of a round come in the order of the job, and a
      prune uses a cutoff no earlier than the aggregation before it. The round goes on when the
      hourly aggregation fails. */
  function Next(s: State, e: Event): Option<State>
    requires |s.log| == |s.labels|
  {
    match e
    case Insert(x) =>
      if Follows(s.log, x) then Some(s.(samples := s.samples + [x], log := s.log + [x],
                                        labels := s.labels + [Live])) else None
    case AggregateSamples(c) =>
      if s.phase.Between?
      then Some(s.(hourly := s.hourly + HourlyOf(s.samples, c), labels := AggregateLabels(s.log, s.labels, c, s.round),
                   phase := SamplesRolled(c)))
      else None
    case AggregateFails(c) =>
      if s.phase.Between? then Some(s.(phase := SamplesRolled(c))) else None
    case AggregateHourly(c) =>
      if s.phase.SamplesRolled?
      then Some(s.(daily := s.daily + DailyOf(s.hourly, c), phase := HourlyRolled(s.phase.cutoff, c)))
      else None
    case PruneSamples(c) =>
      if s.phase.HourlyRolled? && s.phase.cutoff <= c
      then Some(s.(samples := SamplesFrom(s.samples, c), labels := PruneLabels(s.log, s.labels, c),
                   phase := SamplesPruned(s.phase.hourlyCutoff)))
      else None
    case PruneHourly(c) =>
      if s.phase.SamplesPruned? && s.phase.hourlyCutoff <= c
      then Some(s.(hourly := RollupsFrom(s.hourly, c),
                   gone := s.gone + RollupsBetween(s.hourly, s.phase.hourlyCutoff, c),
                   round := s.round + 1, phase := Between))
      else None
  }

  function Run(s: State, events: seq<Event>): Option<State>
    requires |s.log| == |s.labels|
    decreases |events|
  {
    if events == [] then Some(s)
    else if Next(s, events[0]).None? then None else Run(Next(s, events[0]).value, events[1..])
  }

  lemma RunCons(s: State, e: Event, events: seq<Event>)
    requires |s.log| == |s.labels| && Next(s, e).Some?
    ensures Run(s, [e] + events) == Run(Next(s, e).value, events)
  {
    assert ([e] + events)[1..] == events;
  }

  // ---------- growth, gains and gaps ----------

  predicate SameBucket(a: Label, b: Label) {
    (a.Rolled? || a.Archived?) && (b.Rolled? || b.Archived?) && a.round == b.round && a.hour == b.hour
  }

  /** How much a counter grew from the session's sample before to sample k. */
  function Diff(log: seq<Sample>, k: nat, f: Field): int
    requires k < |log|
  {
    var p := Prev(log, k, log[k].session);
    if p < 0 then 0 else Bytes(log[k], f) - Bytes(log[p], f)
  }

  /** The growth that both samples' common hourly aggregate saw. */
  function Gain(log: seq<Sample>, labels: seq<Label>, k: nat, f: Field): int
    requires k < |log| && |labels| == |log|
  {
    var p := Prev(log, k, log[k].session);
    if p >= 0 && SameBucket(labels[p], labels[k]) then Diff(log, k, f) else 0
  }

  function Growth(log: seq<Sample>, n: nat, name: Name, f: Field): int
    requires n <= |log|
  {
    if n == 0 then 0 else Growth(log, n - 1, name, f) + if log[n - 1].name == name then Diff(log, n - 1, f) else 0
  }

  function Gains(log: seq<Sample>, labels: seq<Label>, n: nat, name: Name, f: Field): int
    requires n <= |log| == |labels|
  {
    if n == 0 then 0
    else
      Gains(log, labels, n - 1, name, f) + if log[n - 1].name == name then Gain(log, labels, n - 1, f) else 0
  }

  /** The growth between samples that share no aggregate: between buckets, or not aggregated. */
  function Gaps(log: seq<Sample>, labels: seq<Label>, n: nat, name: Name, f: Field): int
    requires n <= |log| == |labels|
  {
    if n == 0 then 0
    else Gaps(log, labels, n - 1, name, f)
         + if log[n - 1].name == name then Diff(log, n - 1, f) - Gain(log, labels, n - 1, f) else 0
  }

  lemma {:induction false} GainsAndGaps(log: seq<Sample>, labels: seq<Label>, n: nat, name: Name, f: Field)
    requires n <= |log| == |labels|
    ensures Gains(log, labels, n, name, f) + Gaps(log, labels, n, name, f) == Growth(log, n, name, f)
  {
    if n > 0 { GainsAndGaps(log, labels, n - 1, name, f); }
  }

  // ---------- the invariant ----------

  predicate SortedAt(log: seq<Sample>, k: nat)
    requires k < |log|
  {
    var p := Prev(log, k, log[k].session);
    p >= 0 ==> log[p].name == log[k].name && log[p].at <= log[k].at
               && log[p].bytesIn <= log[k].bytesIn && log[p].bytesOut <= log[k].bytesOut
  }

  ghost predicate Sorted(log: seq<Sample>) {
    forall k :: 0 <= k < |log| ==> SortedAt(log, k)
  }

  function Rank(l: Label): nat {
    if l.Live? then 2 else if l.Rolled? then 1 else 0
  }

  predicate RankedAt(log: seq<Sample>, labels: seq<Label>, k: nat)
    requires k < |log| == |labels|
  {
    var p := Prev(log, k, log[k].session);
    p >= 0 ==> Rank(labels[p]) <= Rank(labels[k])
  }

  /** Along a session, samples leave the state of being live from the oldest on. */
  ghost predicate Ranked(log: seq<Sample>, labels: seq<Label>)
    requires |log| == |labels|
  {
    forall k :: 0 <= k < |log| ==> RankedAt(log, labels, k)
  }

  /** The rows of the sample table, by the labels. */
  function Table(log: seq<Sample>, labels: seq<Label>, n: nat): seq<Sample>
    requires n <= |log| == |labels|
  {
    if n == 0 then [] else if InTable(labels[n - 1]) then Table(log, labels, n - 1) + [log[n - 1]]
        else Table(log, labels, n - 1)
  }

  ghost predicate LabelsFit(s: State)
    requires |s.log| == |s.labels|
  {
    forall k :: 0 <= k < |s.log| ==>
      var l := s.labels[k];
      && l != Twice
      && (l.Rolled? ==> l.round == s.round && l.hour == Hour(s.log[k].at))
      && (l.Rolled? ==> (s.phase.SamplesRolled? || s.phase.HourlyRolled?) && s.log[k].at < s.phase.cutoff)
      && (l.Archived? ==> l.round < s.round || (l.round == s.round && s.phase.SamplesPruned?))
  }

  /** What the rollup tables hold once, for a common name. */
  function Stored(s: State, name: Name, f: Field): int {
    var hourly := if s.phase.HourlyRolled? || s.phase.SamplesPruned? then RollupsFrom(s.hourly, s.phase.hourlyCutoff)
        else s.hourly;
    Sum(hourly, name, f) + Sum(s.daily, name, f) + Sum(s.gone, name, f)
  }

  ghost predicate Shape(s: State) {
    && |s.log| == |s.labels| && Sorted(s.log) && Ranked(s.log, s.labels) && LabelsFit(s)
    && s.samples == Table(s.log, s.labels, |s.log|)
  }

  ghost predicate Balanced(s: State, name: Name, f: Field)
    requires |s.log| == |s.labels|
  {
    f != Sessions ==> Stored(s, name, f) == Gains(s.log, s.labels, |s.log|, name, f)
  }

  ghost predicate Inv(s: State) {
    Shape(s) && forall name, f :: Balanced(s, name, f)
  }

  lemma InitInv()
    ensures Inv(INIT)
  {
  }

  // ---------- sessions in the log ----------

  /** Counters, clock and name along a session, between any two of its samples. */
  lemma {:induction false} SessionMonotone(log: seq<Sample>, j: nat, k: nat)
    requires Sorted(log) && j <= k < |log| && log[j].session == log[k].session
    ensures log[j].name == log[k].name && log[j].at <= log[k].at
    ensures log[j].bytesIn <= log[k].bytesIn && log[j].bytesOut <= log[k].bytesOut
    decreases k
  {
    if j < k {
      assert SortedAt(log, k);
      SessionMonotone(log, j, Prev(log, k, log[k].session));
    }
  }

  lemma {:induction false} RankMonotone(log: seq<Sample>, labels: seq<Label>, j: nat, k: nat)
    requires |log| == |labels| && Ranked(log, labels) && j <= k < |log| && log[j].session == log[k].session
    ensures Rank(labels[j]) <= Rank(labels[k])
    decreases k
  {
    if j < k {
      assert RankedAt(log, labels, k);
      RankMonotone(log, labels, j, Prev(log, k, log[k].session));
    }
  }

  // ---------- the GROUP BY over the chosen rows ----------

  predicate IsChosen(log: seq<Sample>, labels: seq<Label>, c: int, k: nat)
    requires k < |log| == |labels|
  {
    InTable(labels[k]) && log[k].at < c
  }

  function Chosen(log: seq<Sample>, labels: seq<Label>, c: int, n: nat): seq<Sample>
    requires n <= |log| == |labels|
  {
    if n == 0 then []
    else if IsChosen(log, labels, c, n - 1) then Chosen(log, labels, c, n - 1) + [log[n - 1]]
    else Chosen(log, labels, c, n - 1)
  }

  lemma BeforeSnoc(rows: seq<Sample>, x: Sample, c: int)
    ensures SamplesBefore(rows + [x], c) == if x.at < c then SamplesBefore(rows, c) + [x] else SamplesBefore(rows, c)
    ensures SamplesFrom(rows + [x], c) == if x.at < c then SamplesFrom(rows, c) else SamplesFrom(rows, c) + [x]
  {
    assert (rows + [x])[..|rows|] == rows;
  }

  lemma {:induction false} ChosenIsSelected(log: seq<Sample>, labels: seq<Label>, c: int, n: nat)
    requires n <= |log| == |labels|
    ensures SamplesBefore(Table(log, labels, n), c) == Chosen(log, labels, c, n)
  {
    if n > 0 {
      ChosenIsSelected(log, labels, c, n - 1);
      BeforeSnoc(Table(log, labels, n - 1), log[n - 1], c);
    }
  }

  lemma FindAfterAdd(groups: seq<Group>, x: Sample, session: nat, hour: int)
    ensures var i, i', groups' := FindGroup(groups, session, hour), FindGroup(AddSample(groups, x), session, hour),
            AddSample(groups, x);
            if session == x.session && hour == Hour(x.at)
            then i' >= 0 && groups'[i'] == if i < 0 then NewGroup(x) else Widened(groups[i], x)
            else i' == i && (i >= 0 ==> groups'[i'] == groups[i])
  {
    hide Hour;
    var at := FindGroup(groups, x.session, Hour(x.at));
    if at < 0 {
      FindGroupSnoc(groups, NewGroup(x), session, hour);
    } else {
      FindGroupUpdate(groups, at, Widened(groups[at], x), session, hour);
    }
  }

  /** The latest chosen sample of a session and hour before index n, or -1. */
  function LastChosen(log: seq<Sample>, labels: seq<Label>, c: int, n: nat, session: nat, hour: int): (k: int)
    requires n <= |log| == |labels|
    ensures -1 <= k < n
    ensures k >= 0 ==> IsChosen(log, labels, c, k) && log[k].session == session && Hour(log[k].at) == hour
    ensures forall j :: 0 <= j && k < j < n ==>
              !IsChosen(log, labels, c, j) || log[j].session != session || Hour(log[j].at) != hour
  {
    if n == 0 then -1
    else if IsChosen(log, labels, c, n - 1) && log[n - 1].session == session && Hour(log[n - 1].at) == hour then n - 1
    else LastChosen(log, labels, c, n - 1, session, hour)
  }

  /** The group holds the counters of its latest sample as maxima. */
  ghost predicate GroupFits(groups: seq<Group>, log: seq<Sample>, last: int, session: nat, hour: int)
    requires -1 <= last < |log|
  {
    var i := FindGroup(groups, session, hour);
    && (i >= 0 <==> last >= 0)
    && (i >= 0 ==>
          && groups[i].name == log[last].name && groups[i].maxIn == log[last].bytesIn
              && groups[i].maxOut == log[last].bytesOut
          && groups[i].minIn <= groups[i].maxIn && groups[i].minOut <= groups[i].maxOut)
  }

  lemma GroupSamplesSnoc(rows: seq<Sample>, x: Sample)
    ensures GroupSamples(rows + [x]) == AddSample(GroupSamples(rows), x)
  {
    assert (rows + [x])[..|rows|] == rows;
  }

  lemma {:induction false} GroupsFit(log: seq<Sample>, labels: seq<Label>, c: int, n: nat, session: nat, hour: int)
    requires n <= |log| == |labels| && Sorted(log) && log != []
    ensures GroupFits(GroupSamples(Chosen(log, labels, c, n)), log, LastChosen(log, labels, c, n, session, hour),
                      session, hour)
  {
    hide Sorted, Hour, GroupSamples, GroupFits, AddSample, IsChosen;
    if n > 0 {
      var rows, x := Chosen(log, labels, c, n - 1), log[n - 1];
      var last := LastChosen(log, labels, c, n - 1, session, hour);
      GroupsFit(log, labels, c, n - 1, session, hour);
      if IsChosen(log, labels, c, n - 1) {
        GroupSamplesSnoc(rows, x);
        if last >= 0 && x.session == session { SessionMonotone(log, last, n - 1); }
        GroupFitsAdd(GroupSamples(rows), log, last, n - 1, session, hour);
      }
    } else {
      NoGroups(log, session, hour);
    }
  }

  lemma NoGroups(log: seq<Sample>, session: nat, hour: int)
    ensures GroupSamples([]) == [] && Deltas([]) == [] && (log != [] ==> GroupFits([], log, -1, session, hour))
  {
  }

  lemma GroupFitsAdd(groups: seq<Group>, log: seq<Sample>, last: int, k: nat, session: nat, hour: int)
    requires -1 <= last < k < |log| && GroupFits(groups, log, last, session, hour)
    requires last >= 0 && log[k].session == session ==>
               log[last].name == log[k].name && log[last].bytesIn <= log[k].bytesIn
                   && log[last].bytesOut <= log[k].bytesOut
    ensures GroupFits(AddSample(groups, log[k]), log,
                      if log[k].session == session && Hour(log[k].at) == hour then k else last, session, hour)
  {
    hide Hour, AddSample;
    FindAfterAdd(groups, log[k], session, hour);
  }

  // ---------- what an hourly aggregation adds ----------

  /** Before a round starts, no sample of the table was aggregated. */
  ghost predicate Settled(labels: seq<Label>, round: nat) {
    forall k :: 0 <= k < |labels| ==>
          !labels[k].Rolled? && labels[k] != Twice && (labels[k].Archived? ==> labels[k].round < round)
  }

  function FreshGain(log: seq<Sample>, labels: seq<Label>, c: int, k: nat, f: Field): int
    requires k < |log| == |labels|
  {
    var p := Prev(log, k, log[k].session);
    if p >= 0 && IsChosen(log, labels, c, k) && IsChosen(log, labels, c, p) && Hour(log[p].at) == Hour(log[k].at)
    then Diff(log, k, f) else 0
  }

  function FreshGains(log: seq<Sample>, labels: seq<Label>, c: int, n: nat, name: Name, f: Field): int
    requires n <= |log| == |labels|
  {
    if n == 0 then 0
    else
      FreshGains(log, labels, c, n - 1, name, f)
      + if log[n - 1].name == name then FreshGain(log, labels, c, n - 1, f) else 0
  }

  /** The latest chosen sample of the same session and hour is the session's sample before. */
  lemma LastIsPrev(log: seq<Sample>, labels: seq<Label>, c: int, k: nat, round: nat)
    requires k < |log| == |labels| && Sorted(log) && Ranked(log, labels) && Settled(labels, round)
             && IsChosen(log, labels, c, k)
    ensures var p := Prev(log, k, log[k].session);
            LastChosen(log, labels, c, k, log[k].session, Hour(log[k].at))
            == if p >= 0 && IsChosen(log, labels, c, p) && Hour(log[p].at) == Hour(log[k].at) then p else -1
  {
    var p := Prev(log, k, log[k].session);
    var last := LastChosen(log, labels, c, k, log[k].session, Hour(log[k].at));
    hide LastChosen, Prev, Sorted, Ranked;
    if p >= 0 {
      SessionMonotone(log, p, k);
      if last >= 0 {
        assert last <= p;
        SessionMonotone(log, last, p);
        RankMonotone(log, labels, last, p);
        HourMonotone(log[last].at, log[p].at);
        HourMonotone(log[p].at, log[k].at);
      }
      hide Hour;
    }
  }

  lemma HourMonotone(a: int, b: int)
    requires a <= b
    ensures Hour(a) <= Hour(b)
  {
  }

  lemma DeltasAdd(groups: seq<Group>, x: Sample, name: Name, f: Field)
    requires f != Sessions
    ensures var i := FindGroup(groups, x.session, Hour(x.at));
            Sum(Deltas(AddSample(groups, x)), name, f) == Sum(Deltas(groups), name, f)
            + if i >= 0 && groups[i].name == name
                then Value(Delta(Widened(groups[i], x)), f) - Value(Delta(groups[i]), f) else 0
  {
    var i := FindGroup(groups, x.session, Hour(x.at));
    if i < 0 {
      assert Deltas(groups + [NewGroup(x)]) == Deltas(groups) + [Delta(NewGroup(x))];
      SumSnoc(Deltas(groups), Delta(NewGroup(x)), name, f);
    } else {
      var g := Widened(groups[i], x);
      assert Deltas(groups[i := g]) == Deltas(groups)[i := Delta(g)];
      SumUpdate(Deltas(groups), i, Delta(g), name, f);
    }
  }

  lemma ChosenSumStep(groups: seq<Group>, log: seq<Sample>, last: int, k: nat, name: Name, f: Field)
    requires Sorted(log) && -1 <= last < k < |log| && GroupFits(groups, log, last, log[k].session, Hour(log[k].at))
             && f != Sessions
    requires last >= 0 ==> log[last].session == log[k].session
    ensures Sum(Deltas(AddSample(groups, log[k])), name, f) == Sum(Deltas(groups), name, f)
            + if last >= 0 && log[k].name == name then Bytes(log[k], f) - Bytes(log[last], f) else 0
  {
    if last >= 0 { SessionMonotone(log, last, k); }
    hide Sorted, Hour, AddSample, Sum;
    DeltasAdd(groups, log[k], name, f);
  }

  /** The hourly rows inserted hold exactly the growth between consecutive samples that are both
      chosen and of the same hour. */
  lemma {:induction false} ChosenSum(log: seq<Sample>, labels: seq<Label>, c: int, round: nat, n: nat,
                                     name: Name, f: Field)
    requires n <= |log| == |labels| && Sorted(log) && Ranked(log, labels) && Settled(labels, round) && f != Sessions
    ensures Sum(Deltas(GroupSamples(Chosen(log, labels, c, n))), name, f) == FreshGains(log, labels, c, n, name, f)
  {
    hide Sorted, Ranked, Settled, FreshGain, GroupSamples, Deltas, IsChosen;
    if n > 0 {
      ChosenSum(log, labels, c, round, n - 1, name, f);
      if IsChosen(log, labels, c, n - 1) {
        ChosenSumAt(log, labels, c, round, n - 1, name, f);
      } else {
        UnchosenGain(log, labels, c, n - 1, f);
      }
    } else {
      NoGroups(log, 0, 0);
    }
  }

  lemma UnchosenGain(log: seq<Sample>, labels: seq<Label>, c: int, k: nat, f: Field)
    requires k < |log| == |labels| && !IsChosen(log, labels, c, k)
    ensures FreshGain(log, labels, c, k, f) == 0
  {
  }

  lemma ChosenSumAt(log: seq<Sample>, labels: seq<Label>, c: int, round: nat, k: nat, name: Name, f: Field)
    requires k < |log| == |labels| && Sorted(log) && Ranked(log, labels) && Settled(labels, round) && f != Sessions
    requires IsChosen(log, labels, c, k)
    ensures Sum(Deltas(GroupSamples(Chosen(log, labels, c, k) + [log[k]])), name, f)
            == Sum(Deltas(GroupSamples(Chosen(log, labels, c, k))), name, f)
               + if log[k].name == name then FreshGain(log, labels, c, k, f) else 0
  {
    hide Sorted, Ranked, Settled, Hour, AddSample, Sum, Deltas, LastChosen, GroupFits, GroupSamples, Chosen;
    GroupSamplesSnoc(Chosen(log, labels, c, k), log[k]);
    LastIsPrev(log, labels, c, k, round);
    GroupsFit(log, labels, c, k, log[k].session, Hour(log[k].at));
    hide IsChosen;
    var last := LastChosen(log, labels, c, k, log[k].session, Hour(log[k].at));
    ChosenSumStep(GroupSamples(Chosen(log, labels, c, k)), log, last, k, name, f);
  }

  lemma {:induction false} AggregateGains(log: seq<Sample>, labels: seq<Label>, c: int, round: nat, n: nat,
                                          name: Name, f: Field)
    requires n <= |log| == |labels| && Settled(labels, round)
    ensures Gains(log, AggregateLabels(log, labels, c, round), n, name, f)
            == Gains(log, labels, n, name, f) + FreshGains(log, labels, c, n, name, f)
  {
    if n > 0 { AggregateGains(log, labels, c, round, n - 1, name, f); }
  }

  lemma {:induction false} AggregateTable(log: seq<Sample>, labels: seq<Label>, c: int, round: nat, n: nat)
    requires n <= |log| == |labels| && Settled(labels, round)
    ensures Table(log, AggregateLabels(log, labels, c, round), n) == Table(log, labels, n)
  {
    if n > 0 { AggregateTable(log, labels, c, round, n - 1); }
  }

  lemma AggregateRanked(log: seq<Sample>, labels: seq<Label>, c: int, round: nat)
    requires |log| == |labels| && Settled(labels, round) && Sorted(log) && Ranked(log, labels)
    ensures Ranked(log, AggregateLabels(log, labels, c, round))
  {
    forall k | 0 <= k < |log| ensures RankedAt(log, AggregateLabels(log, labels, c, round), k) {
      assert SortedAt(log, k) && RankedAt(log, labels, k);
    }
  }

  // ---------- what pruning changes ----------

  lemma {:induction false} PruneGains(log: seq<Sample>, labels: seq<Label>, c: int, n: nat, name: Name, f: Field)
    requires n <= |log| == |labels|
    ensures Gains(log, PruneLabels(log, labels, c), n, name, f) == Gains(log, labels, n, name, f)
  {
    if n > 0 { PruneGains(log, labels, c, n - 1, name, f); }
  }

  lemma {:induction false} PruneTable(log: seq<Sample>, labels: seq<Label>, c: int, n: nat)
    requires n <= |log| == |labels|
    ensures Table(log, PruneLabels(log, labels, c), n) == SamplesFrom(Table(log, labels, n), c)
  {
    if n > 0 {
      PruneTable(log, labels, c, n - 1);
      BeforeSnoc(Table(log, labels, n - 1), log[n - 1], c);
    }
  }

  // ---------- a new sample ----------

  lemma {:induction false} PrevPrefix(log: seq<Sample>, x: Sample, k: nat, session: nat)
    requires k <= |log|
    ensures Prev(log + [x], k, session) == Prev(log, k, session)
  {
    if k > 0 { PrevPrefix(log, x, k - 1, session); }
  }

  lemma {:induction false} InsertTable(log: seq<Sample>, labels: seq<Label>, x: Sample, n: nat)
    requires n <= |log| == |labels|
    ensures Table(log + [x], labels + [Live], n) == Table(log, labels, n)
  {
    if n > 0 { InsertTable(log, labels, x, n - 1); }
  }

  lemma {:induction false} InsertGains(log: seq<Sample>, labels: seq<Label>, x: Sample, n: nat, name: Name, f: Field)
    requires n <= |log| == |labels|
    ensures Gains(log + [x], labels + [Live], n, name, f) == Gains(log, labels, n, name, f)
  {
    if n > 0 {
      InsertGains(log, labels, x, n - 1, name, f);
      PrevPrefix(log, x, n - 1, log[n - 1].session);
    }
  }

  lemma InsertOrder(log: seq<Sample>, labels: seq<Label>, x: Sample)
    requires |log| == |labels| && Sorted(log) && Ranked(log, labels) && Follows(log, x)
    ensures Sorted(log + [x]) && Ranked(log + [x], labels + [Live])
  {
    var log', labels' := log + [x], labels + [Live];
    forall k | 0 <= k < |log'| ensures SortedAt(log', k) && RankedAt(log', labels', k) {
      PrevPrefix(log, x, k, log'[k].session);
      if k < |log| { assert SortedAt(log, k) && RankedAt(log, labels, k); }
    }
  }

  // ---------- every step keeps the invariant ----------

  lemma InsertKeepsShape(s: State, x: Sample)
    requires Shape(s) && Next(s, Insert(x)).Some?
    ensures Shape(Next(s, Insert(x)).value)
  {
    InsertOrder(s.log, s.labels, x);
    InsertTable(s.log, s.labels, x, |s.log|);
    hide Sorted, Ranked;
  }

  lemma InsertKeepsBalance(s: State, x: Sample, name: Name, f: Field)
    requires |s.log| == |s.labels| && Balanced(s, name, f) && Next(s, Insert(x)).Some?
    ensures Balanced(Next(s, Insert(x)).value, name, f)
  {
    InsertGains(s.log, s.labels, x, |s.log|, name, f);
    PrevPrefix(s.log, x, |s.log|, x.session);
  }

  lemma AggregateSamplesKeepsShape(s: State, c: int)
    requires Shape(s) && Next(s, AggregateSamples(c)).Some?
    ensures Shape(Next(s, AggregateSamples(c)).value)
  {
    hide HourlyOf;
    assert Settled(s.labels, s.round);
    AggregateRanked(s.log, s.labels, c, s.round);
    AggregateTable(s.log, s.labels, c, s.round, |s.log|);
    hide Sorted, Ranked;
  }

  lemma AggregateSamplesKeepsBalance(s: State, c: int, name: Name, f: Field)
    requires Shape(s) && Balanced(s, name, f) && Next(s, AggregateSamples(c)).Some?
    ensures Balanced(Next(s, AggregateSamples(c)).value, name, f)
  {
    assert Settled(s.labels, s.round);
    hide Sorted, Ranked, Settled, LabelsFit, Sum, Gains, FreshGains, Merge, GroupSamples, Deltas, SamplesBefore, Table;
    if f != Sessions {
      var n := |s.log|;
      ChosenIsSelected(s.log, s.labels, c, n);
      AggregateGains(s.log, s.labels, c, s.round, n, name, f);
      ChosenSum(s.log, s.labels, c, s.round, n, name, f);
      MergeKeepsSum(Deltas(GroupSamples(SamplesBefore(s.samples, c))), name, f);
      SumConcat(s.hourly, HourlyOf(s.samples, c), name, f);
    }
  }

  lemma AggregateFailsKeeps(s: State, c: int)
    requires Shape(s) && Next(s, AggregateFails(c)).Some?
    ensures Shape(Next(s, AggregateFails(c)).value)
    ensures forall name, f :: Balanced(s, name, f) ==> Balanced(Next(s, AggregateFails(c)).value, name, f)
  {
    hide Sorted, Ranked, Table, Sum, Gains;
  }

  lemma AggregateHourlyKeeps(s: State, c: int)
    requires Shape(s) && Next(s, AggregateHourly(c)).Some?
    ensures Shape(Next(s, AggregateHourly(c)).value)
    ensures forall name, f :: Balanced(s, name, f) ==> Balanced(Next(s, AggregateHourly(c)).value, name, f)
  {
    hide Sorted, Ranked, Table, Sum, DailyOf, Gains, RollupsFrom;
    forall name, f ensures Stored(Next(s, AggregateHourly(c)).value, name, f) == Stored(s, name, f) {
      SumConcat(s.daily, DailyOf(s.hourly, c), name, f);
      DailySum(s.hourly, c, name, f);
      SplitAtCutoff(s.hourly, c, name, f);
    }
  }

  lemma PruneRanked(s: State, c: int)
    requires Shape(s) && Next(s, PruneSamples(c)).Some?
    ensures Ranked(s.log, PruneLabels(s.log, s.labels, c))
  {
    hide Table;
    forall k | 0 <= k < |s.log| ensures RankedAt(s.log, PruneLabels(s.log, s.labels, c), k) {
      assert SortedAt(s.log, k) && RankedAt(s.log, s.labels, k);
    }
  }

  lemma PruneSamplesKeepsShape(s: State, c: int)
    requires Shape(s) && Next(s, PruneSamples(c)).Some?
    ensures Shape(Next(s, PruneSamples(c)).value)
  {
    PruneRanked(s, c);
    PruneTable(s.log, s.labels, c, |s.log|);
    hide Sorted, Ranked;
  }

  lemma PruneSamplesKeepsBalance(s: State, c: int, name: Name, f: Field)
    requires |s.log| == |s.labels| && Balanced(s, name, f) && Next(s, PruneSamples(c)).Some?
    ensures Balanced(Next(s, PruneSamples(c)).value, name, f)
  {
    hide Sum, Gains;
    PruneGains(s.log, s.labels, c, |s.log|, name, f);
  }

  lemma PruneHourlyKeeps(s: State, c: int)
    requires Shape(s) && Next(s, PruneHourly(c)).Some?
    ensures Shape(Next(s, PruneHourly(c)).value)
    ensures forall name, f :: Balanced(s, name, f) ==> Balanced(Next(s, PruneHourly(c)).value, name, f)
  {
    hide Sorted, Ranked, Table, Sum, Gains, RollupsFrom;
    var first := s.phase.hourlyCutoff;
    forall name, f ensures Stored(Next(s, PruneHourly(c)).value, name, f) == Stored(s, name, f) {
      LaterCutoff(s.hourly, first, c);
      SplitAtCutoff(RollupsFrom(s.hourly, first), c, name, f);
      SumConcat(s.gone, RollupsBetween(s.hourly, first, c), name, f);
    }
  }

  lemma StepKeepsShape(s: State, e: Event)
    requires Shape(s) && Next(s, e).Some?
    ensures Shape(Next(s, e).value)
  {
    hide Shape;
    match e
    case Insert(x) => InsertKeepsShape(s, x);
    case AggregateSamples(c) => AggregateSamplesKeepsShape(s, c);
    case AggregateFails(c) => AggregateFailsKeeps(s, c);
    case AggregateHourly(c) => AggregateHourlyKeeps(s, c);
    case PruneSamples(c) => PruneSamplesKeepsShape(s, c);
    case PruneHourly(c) => PruneHourlyKeeps(s, c);
  }

  lemma StepKeepsBalance(s: State, e: Event, name: Name, f: Field)
    requires Shape(s) && Balanced(s, name, f) && Next(s, e).Some?
    ensures |Next(s, e).value.log| == |Next(s, e).value.labels| && Balanced(Next(s, e).value, name, f)
  {
    StepKeepsShape(s, e);
    hide Balanced, Sorted, Ranked, LabelsFit, Table;
    match e
    case Insert(x) => InsertKeepsBalance(s, x, name, f);
    case AggregateSamples(c) => AggregateSamplesKeepsBalance(s, c, name, f);
    case AggregateFails(c) => AggregateFailsKeeps(s, c);
    case AggregateHourly(c) => AggregateHourlyKeeps(s, c);
    case PruneSamples(c) => PruneSamplesKeepsBalance(s, c, name, f);
    case PruneHourly(c) => PruneHourlyKeeps(s, c);
  }

  lemma StepKeepsInv(s: State, e: Event)
    requires Inv(s) && Next(s, e).Some?
    ensures Inv(Next(s, e).value)
  {
    hide Next, Balanced;
    StepKeepsShape(s, e);
    forall name, f ensures Balanced(Next(s, e).value, name, f) { StepKeepsBalance(s, e, name, f); }
  }

  lemma {:induction false} RunKeepsInv(s: State, events: seq<Event>)
    requires Inv(s) && Run(s, events).Some?
    ensures Inv(Run(s, events).value)
    decreases |events|
  {
    hide Next;
    if events != [] {
      StepKeepsInv(s, events[0]);
      RunKeepsInv(Next(s, events[0]).value, events[1..]);
    }
  }

  // ---------- totals per session ----------

  /** The first sample of a session before index n, or -1. */
  function First(log: seq<Sample>, n: nat, session: nat): (p: int)
    requires n <= |log|
    ensures -1 <= p < n && (p >= 0 ==> log[p].session == session)
    ensures p < 0 <==> Prev(log, n, session) < 0
    ensures p >= 0 ==> forall j :: 0 <= j < p ==> log[j].session != session
  {
    if n == 0 then -1
    else if First(log, n - 1, session) >= 0 then First(log, n - 1, session)
    else if log[n - 1].session == session then n - 1 else -1
  }

  /** Last minus first counter of a session. */
  function SessionGrowth(log: seq<Sample>, n: nat, session: nat, f: Field): int
    requires n <= |log|
  {
    var p := Prev(log, n, session);
    if p < 0 then 0 else Bytes(log[p], f) - Bytes(log[First(log, n, session)], f)
  }

  predicate Named(log: seq<Sample>, n: nat, session: nat, name: Name)
    requires n <= |log|
  {
    var p := Prev(log, n, session);
    p >= 0 && log[p].name == name
  }

  /** The sum of last minus first counter over the sessions below `bound` of a common name. */
  function SumSessions(log: seq<Sample>, n: nat, bound: nat, name: Name, f: Field): int
    requires n <= |log|
  {
    if bound == 0 then 0
    else
      SumSessions(log, n, bound - 1, name, f)
      + if Named(log, n, bound - 1, name) then SessionGrowth(log, n, bound - 1, f) else 0
  }

  lemma SessionStep(log: seq<Sample>, n: nat, session: nat, name: Name, f: Field)
    requires 0 < n <= |log| && Sorted(log)
    ensures (if Named(log, n, session, name) then SessionGrowth(log, n, session, f) else 0)
            == (if Named(log, n - 1, session, name) then SessionGrowth(log, n - 1, session, f) else 0)
               + if session == log[n - 1].session && log[n - 1].name == name then Diff(log, n - 1, f) else 0
  {
    assert SortedAt(log, n - 1);
  }

  lemma {:induction false} SumSessionsStep(log: seq<Sample>, n: nat, bound: nat, name: Name, f: Field)
    requires 0 < n <= |log| && Sorted(log)
    ensures SumSessions(log, n, bound, name, f) == SumSessions(log, n - 1, bound, name, f)
            + if log[n - 1].session < bound && log[n - 1].name == name then Diff(log, n - 1, f) else 0
  {
    if bound > 0 {
      SumSessionsStep(log, n, bound - 1, name, f);
      SessionStep(log, n, bound - 1, name, f);
    }
  }

  lemma {:induction false} NoSessions(log: seq<Sample>, bound: nat, name: Name, f: Field)
    ensures SumSessions(log, 0, bound, name, f) == 0
  {
    if bound > 0 { NoSessions(log, bound - 1, name, f); }
  }

  lemma {:induction false} GrowthTelescopes(log: seq<Sample>, n: nat, bound: nat, name: Name, f: Field)
    requires n <= |log| && Sorted(log) && forall k :: 0 <= k < n ==> log[k].session < bound
    ensures Growth(log, n, name, f) == SumSessions(log, n, bound, name, f)
  {
    if n > 0 {
      GrowthTelescopes(log, n - 1, bound, name, f);
      SumSessionsStep(log, n, bound, name, f);
    } else {
      NoSessions(log, bound, name, f);
    }
  }

  lemma {:induction false} GapsNotNegative(log: seq<Sample>, labels: seq<Label>, n: nat, name: Name, f: Field)
    requires n <= |log| == |labels| && Sorted(log) && f != Sessions
    ensures Gaps(log, labels, n, name, f) >= 0
  {
    if n > 0 {
      GapsNotNegative(log, labels, n - 1, name, f);
      assert SortedAt(log, n - 1);
    }
  }

  // ---------- main results ----------

  ghost predicate SessionsBelow(log: seq<Sample>, bound: nat) {
    forall k :: 0 <= k < |log| ==> log[k].session < bound
  }

  /** In every run, per common name and counter: the rollup tables, the hourly rows pruned between
      two cutoffs and the gaps between buckets add up to exactly the sum over the sessions of last
      minus first counter. */
  lemma RetentionAccounts(events: seq<Event>, bound: nat, name: Name, f: Field)
    requires f != Sessions && Run(INIT, events).Some? && SessionsBelow(Run(INIT, events).value.log, bound)
    ensures var s := Run(INIT, events).value;
            && |s.log| == |s.labels|
            && Stored(s, name, f) + Gaps(s.log, s.labels, |s.log|, name, f)
                == SumSessions(s.log, |s.log|, bound, name, f)
            && Gaps(s.log, s.labels, |s.log|, name, f) >= 0
  {
    hide Next, Stored, Gaps, SumSessions, Sorted, Ranked;
    InitInv();
    RunKeepsInv(INIT, events);
    var s := Run(INIT, events).value;
    assert Balanced(s, name, f);
    GainsAndGaps(s.log, s.labels, |s.log|, name, f);
    GrowthTelescopes(s.log, |s.log|, bound, name, f);
    GapsNotNegative(s.log, s.labels, |s.log|, name, f);
  }

  /** Each sample enters at most one hourly aggregate. */
  lemma EachSampleAggregatedOnce(events: seq<Event>)
    requires Run(INIT, events).Some?
    ensures var s := Run(INIT, events).value; |s.log| == |s.labels| && Twice !in s.labels
  {
    InitInv();
    RunKeepsInv(INIT, events);
    hide Next, Run, Sorted, Ranked, Table, Balanced;
    var s := Run(INIT, events).value;
    forall k | 0 <= k < |s.labels| ensures s.labels[k] != Twice {
      assert s.log[k] == s.log[k];
    }
  }

  // ---------- aggregates are not negative ----------

  ghost predicate NotNegative(rows: seq<Rollup>) {
    forall i :: 0 <= i < |rows| ==> rows[i].bytesIn >= 0 && rows[i].bytesOut >= 0
  }

  lemma {:induction false} GroupsNotNegative(rows: seq<Sample>)
    ensures NotNegative(Deltas(GroupSamples(rows)))
  {
    if rows != [] {
      var groups, x := GroupSamples(rows[..|rows| - 1]), rows[|rows| - 1];
      GroupsNotNegative(rows[..|rows| - 1]);
      forall i | 0 <= i < |groups| ensures Delta(groups[i]).bytesIn >= 0 && Delta(groups[i]).bytesOut >= 0 {
        assert Deltas(groups)[i] == Delta(groups[i]);
      }
    }
  }

  lemma {:induction false} MergeNotNegative(rows: seq<Rollup>)
    requires NotNegative(rows)
    ensures NotNegative(Merge(rows))
  {
    if rows != [] { MergeNotNegative(rows[..|rows| - 1]); }
  }

  lemma {:induction false} FilterNotNegative(rows: seq<Rollup>, c: int)
    requires NotNegative(rows)
    ensures NotNegative(RollupsFrom(rows, c)) && NotNegative(RollupsBefore(rows, c))
  {
    if rows != [] { FilterNotNegative(rows[..|rows| - 1], c); }
  }

  lemma StepNotNegative(s: State, e: Event)
    requires |s.log| == |s.labels| && NotNegative(s.hourly) && NotNegative(s.gone) && Next(s, e).Some?
    ensures |Next(s, e).value.log| == |Next(s, e).value.labels|
    ensures NotNegative(Next(s, e).value.hourly) && NotNegative(Next(s, e).value.gone)
  {
    hide Merge, GroupSamples, SamplesBefore, RollupsFrom, RollupsBefore, DailyOf;
    match e
    case AggregateSamples(c) =>
      GroupsNotNegative(SamplesBefore(s.samples, c));
      MergeNotNegative(Deltas(GroupSamples(SamplesBefore(s.samples, c))));
    case PruneHourly(c) =>
      FilterNotNegative(s.hourly, c);
      FilterNotNegative(s.hourly, s.phase.hourlyCutoff);
      FilterNotNegative(RollupsFrom(s.hourly, s.phase.hourlyCutoff), c);
    case _ =>
  }

  lemma {:induction false} RunNotNegative(s: State, events: seq<Event>)
    requires |s.log| == |s.labels| && NotNegative(s.hourly) && NotNegative(s.gone) && Run(s, events).Some?
    ensures NotNegative(Run(s, events).value.gone)
    decreases |events|
  {
    hide Next, NotNegative;
    if events != [] {
      StepNotNegative(s, events[0]);
      RunNotNegative(Next(s, events[0]).value, events[1..]);
    }
  }

  lemma {:induction false} SumNotNegative(rows: seq<Rollup>, name: Name, f: Field)
    requires NotNegative(rows)
    ensures Sum(rows, name, f) >= 0
  {
    if rows != [] { SumNotNegative(rows[..|rows| - 1], name, f); }
  }

  /** Between rounds the two rollup tables never hold more, per common name and counter, than its
      sessions transferred. */
  lemma TablesNeverExceedTransfer(events: seq<Event>, bound: nat, name: Name, f: Field)
    requires f != Sessions && Run(INIT, events).Some? && Run(INIT, events).value.phase.Between?
    requires SessionsBelow(Run(INIT, events).value.log, bound)
    ensures var s := Run(INIT, events).value;
            Sum(s.hourly, name, f) + Sum(s.daily, name, f) <= SumSessions(s.log, |s.log|, bound, name, f)
  {
    RetentionAccounts(events, bound, name, f);
    RunNotNegative(INIT, events);
    hide Run, Sum, Gaps, SumSessions;
    SumNotNegative(Run(INIT, events).value.gone, name, f);
  }

  /** When the prune of a round fails, the next aggregation, whose cutoff is no earlier, counts a
      sample again exactly if the first one had selected any. */
  lemma AggregatingAgain(s: State, first: int, second: int)
    requires Inv(s) && s.phase.Between? && first <= second
    ensures var once := AggregateLabels(s.log, s.labels, first, s.round);
            (Twice in AggregateLabels(s.log, once, second, s.round + 1)) <==> SamplesBefore(s.samples, first) != []
  {
    var n, once := |s.log|, AggregateLabels(s.log, s.labels, first, s.round);
    var again := AggregateLabels(s.log, once, second, s.round + 1);
    ChosenIsSelected(s.log, s.labels, first, n);
    hide Sorted, Ranked, Table, Balanced, SamplesBefore;
    NothingChosen(s.log, s.labels, first, n);
    if k :| 0 <= k < n && IsChosen(s.log, s.labels, first, k) { assert again[k] == Twice; }
    if Twice in again {
      var k :| 0 <= k < n && again[k] == Twice;
      assert IsChosen(s.log, s.labels, first, k);
    }
  }

  lemma {:induction false} NothingChosen(log: seq<Sample>, labels: seq<Label>, c: int, n: nat)
    requires n <= |log| == |labels|
    ensures Chosen(log, labels, c, n) == [] <==> forall k :: 0 <= k < n ==> !IsChosen(log, labels, c, k)
  {
    if n > 0 { NothingChosen(log, labels, c, n - 1); }
  }

  /** The rows inserted for two samples of one hour, ten bytes apart. */
  lemma TwoSamplesGrow(a: Sample, b: Sample)
    requires a == Sample(0, "client", 0, 0, 0) && b == Sample(0, "client", 10, 5, 60)
    ensures Sum(HourlyOf([a, b], 3600), "client", In) == 10
  {
    TwoSamplesGroup(a, b);
    var delta := Delta(Widened(NewGroup(a), b));
    assert Deltas([Widened(NewGroup(a), b)]) == [delta];
    SumSnoc([], delta, "client", In);
    assert [] + [delta] == [delta];
    MergeKeepsSum([delta], "client", In);
  }

  lemma TwoSamplesGroup(a: Sample, b: Sample)
    requires a == Sample(0, "client", 0, 0, 0) && b == Sample(0, "client", 10, 5, 60)
    ensures GroupSamples(SamplesBefore([a, b], 3600)) == [Widened(NewGroup(a), b)]
  {
    assert [a, b][..1] == [a] && [a][..0] == [];
    assert SamplesBefore([a], 3600) == [a] && SamplesBefore([a, b], 3600) == [a] + [b];
    GroupSamplesSnoc([], a);
    GroupSamplesSnoc([a], b);
    assert [] + [a] == [a];
    assert GroupSamples([a]) == [NewGroup(a)];
  }

  /** Then the hourly table holds more than was transferred: two samples of one hour, ten bytes
      apart, aggregated twice. */
  lemma FailedPruneOvercounts()
    ensures var samples := [Sample(0, "client", 0, 0, 0), Sample(0, "client", 10, 5, 60)];
            && Growth(samples, 2, "client", In) == 10
            && Sum(HourlyOf(samples, 3600) + HourlyOf(samples, 3600), "client", In) == 20
  {
    var a, b := Sample(0, "client", 0, 0, 0), Sample(0, "client", 10, 5, 60);
    hide HourlyOf, Sum;
    TwoSamplesGrow(a, b);
    SumConcat(HourlyOf([a, b], 3600), HourlyOf([a, b], 3600), "client", In);
  }

  // ---------- a failed aggregation ----------

  /** A round up to the prune of the samples. */
  function Round(s: State, works: bool, c: int, hourly: int, prune: int): Option<State>
    requires |s.log| == |s.labels|
  {
    Run(s, [if works then AggregateSamples(c) else AggregateFails(c), AggregateHourly(hourly), PruneSamples(prune)])
  }

  lemma RoundKeepsInv(s: State, works: bool, c: int, hourly: int, prune: int)
    requires Inv(s) && s.phase.Between? && c <= prune
    ensures var r := Round(s, works, c, hourly, prune);
            && r.Some? && Inv(r.value) && r.value.log == s.log && r.value.samples == SamplesFrom(s.samples, prune)
            && r.value.labels == PruneLabels(s.log, if works then AggregateLabels(s.log, s.labels, c, s.round)
                                                    else s.labels, prune)
  {
    hide Balanced, HourlyOf, DailyOf, Sorted, Ranked, Table, LabelsFit;
    var e1, e2, e3 := if works then AggregateSamples(c) else AggregateFails(c), AggregateHourly(hourly),
        PruneSamples(prune);
    var s1 := Next(s, e1).value;
    StepKeepsInv(s, e1);
    RunCons(s, e1, [e2, e3]);
    var s2 := Next(s1, e2).value;
    StepKeepsInv(s1, e2);
    RunCons(s1, e2, [e3]);
    StepKeepsInv(s2, e3);
    RunCons(s2, e3, []);
  }

  /** When the hourly aggregation of a round fails and the prune does not, the round leaves the same
      samples as one in which it works, and loses exactly the growth that the aggregation would have
      put into the hourly table; no sample it pruned was counted. */
  lemma FailedAggregateLoses(s: State, c: int, hourly: int, prune: int, name: Name, f: Field)
    requires Inv(s) && s.phase.Between? && c <= prune && f != Sessions
    ensures var works, fails := Round(s, true, c, hourly, prune), Round(s, false, c, hourly, prune);
            && works.Some? && fails.Some? && fails.value.samples == works.value.samples
            && Stored(fails.value, name, f)
               == Stored(works.value, name, f) - FreshGains(s.log, s.labels, c, |s.log|, name, f)
            && |fails.value.labels| == |s.log| == |s.labels|
            && forall k :: 0 <= k < |s.log| && IsChosen(s.log, s.labels, prune, k) ==> fails.value.labels[k] == Lost
  {
    var n := |s.log|;
    RoundKeepsInv(s, true, c, hourly, prune);
    RoundKeepsInv(s, false, c, hourly, prune);
    SettledBetween(s);
    hide Round, Shape, Stored, Gains, FreshGains, Settled;
    var works, fails := Round(s, true, c, hourly, prune).value, Round(s, false, c, hourly, prune).value;
    assert Balanced(works, name, f) && Balanced(fails, name, f);
    PruneGains(s.log, AggregateLabels(s.log, s.labels, c, s.round), prune, n, name, f);
    PruneGains(s.log, s.labels, prune, n, name, f);
    AggregateGains(s.log, s.labels, c, s.round, n, name, f);
    UnrolledIsLost(s, prune);
  }

  lemma SettledBetween(s: State)
    requires Shape(s) && s.phase.Between?
    ensures Settled(s.labels, s.round)
  {
    hide Sorted, Ranked, Table;
    forall k | 0 <= k < |s.labels|
      ensures !s.labels[k].Rolled? && s.labels[k] != Twice && (s.labels[k].Archived? ==> s.labels[k].round < s.round)
    {
      assert s.log[k] == s.log[k];
    }
  }

  lemma UnrolledIsLost(s: State, prune: int)
    requires |s.log| == |s.labels| && Settled(s.labels, s.round)
    ensures forall k :: 0 <= k < |s.log| && IsChosen(s.log, s.labels, prune, k) ==>
              PruneLabels(s.log, s.labels, prune)[k] == Lost
  {
  }

  /** And for good: no later event counts a lost sample. */
  lemma {:induction false} LostStaysLost(s: State, events: seq<Event>, k: nat)
    requires k < |s.log| == |s.labels| && s.labels[k] == Lost && Run(s, events).Some?
    ensures var r := Run(s, events).value;
            && |r.log| == |r.labels| && k < |r.log| && r.labels[k] == Lost
            && forall f :: Gain(r.log, r.labels, k, f) == 0
    decreases |events|
  {
    hide HourlyOf, DailyOf, RollupsFrom, RollupsBefore, SamplesFrom, Prev, Follows;
    if events != [] { LostStaysLost(Next(s, events[0]).value, events[1..], k); }
  }

  /** Two samples just inserted. */
  function TwoSamples(a: Sample, b: Sample): State {
    State([a, b], [], [], [a, b], [Live, Live], [], 0, Between)
  }

  lemma TwoInserts(a: Sample, b: Sample)
    requires a == Sample(0, "client", 0, 0, 0) && b == Sample(0, "client", 10, 5, 60)
    ensures Run(INIT, [Insert(a), Insert(b)]) == Some(TwoSamples(a, b))
    ensures SumSessions([a, b], 2, 1, "client", In) == 10
  {
    var s1 := State([a], [], [], [a], [Live], [], 0, Between);
    RunCons(INIT, Insert(a), [Insert(b)]);
    assert [] + [a] == [a] && [] + [Live] == [Live] && Next(INIT, Insert(a)) == Some(s1);
    RunCons(s1, Insert(b), []);
    assert [a] + [b] == [a, b] && [Live] + [Live] == [Live, Live];
  }

  /** Two samples of one hour, ten bytes apart, of which nothing is left. */
  lemma FailedAggregateExample()
    ensures var a, b := Sample(0, "client", 0, 0, 0), Sample(0, "client", 10, 5, 60);
            && Run(INIT, [Insert(a), Insert(b)]) == Some(TwoSamples(a, b))
            && SumSessions([a, b], 2, 1, "client", In) == 10
            && var r := Round(TwoSamples(a, b), false, 3600, 0, 3600);
               r.Some? && r.value.samples == [] && r.value.hourly == [] && r.value.daily == []
  {
    var a, b := Sample(0, "client", 0, 0, 0), Sample(0, "client", 10, 5, 60);
    var s := TwoSamples(a, b);
    TwoInserts(a, b);
    hide Follows, Prev, SumSessions;
    RunCons(s, AggregateFails(3600), [AggregateHourly(0), PruneSamples(3600)]);
    RunCons(s.(phase := SamplesRolled(3600)), AggregateHourly(0), [PruneSamples(3600)]);
    RunCons(s.(phase := HourlyRolled(3600, 0)), PruneSamples(3600), []);
    assert SamplesFrom([a], 3600) == [] && [a, b][..1] == [a];
  }
}
