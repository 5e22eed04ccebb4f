/** What the statements of the retention job leave and insert, told row by row, and the tables
    as the object that the statements change. */
module RetentionJob {
  import opened Numerals
  import opened Outcomes
  import opened RetentionTables
  import opened Sequences

  // ---------- what a prune leaves ----------

  /** Exactly the samples from the cutoff on stay, as often as they were there, in order. */
  ghost predicate KeepsSamples(after: seq<Sample>, before: seq<Sample>, cutoff: int) {
    && Subsequence(after, before)
    && forall x :: multiset(after)[x] == if x.at >= cutoff then multiset(before)[x] else 0
  }

  lemma {:induction false} SamplesFromKeeps(rows: seq<Sample>, cutoff: int)
    ensures KeepsSamples(SamplesFrom(rows, cutoff), rows, cutoff)
  {
    hide Subsequence;
    SubsequenceEmpty(rows);
    if rows != [] {
      var most, last := rows[..|rows| - 1], rows[|rows| - 1];
      SamplesFromKeeps(most, cutoff);
      assert rows == most + [last];
      SubsequenceTake(SamplesFrom(most, cutoff), most, last);
      SubsequenceSkip(SamplesFrom(most, cutoff), most, last);
    }
  }

  ghost predicate KeepsRollups(after: seq<Rollup>, before: seq<Rollup>, cutoff: int) {
    && Subsequence(after, before)
    && forall r :: multiset(after)[r] == if r.start >= cutoff then multiset(before)[r] else 0
  }

  lemma {:induction false} RollupsFromKeeps(rows: seq<Rollup>, cutoff: int)
    ensures KeepsRollups(RollupsFrom(rows, cutoff), rows, cutoff)
  {
    hide Subsequence;
    SubsequenceEmpty(rows);
    if rows != [] {
      var most, last := rows[..|rows| - 1], rows[|rows| - 1];
      RollupsFromKeeps(most, cutoff);
      assert rows == most + [last];
      SubsequenceTake(RollupsFrom(most, cutoff), most, last);
      SubsequenceSkip(RollupsFrom(most, cutoff), most, last);
    }
  }

  // ---------- one row per name and start ----------

  predicate IsAt(r: Rollup, name: Name, start: int) {
    r.name == name && r.start == start
  }

  /** The sum of a column over the rows of one name and start. */
  function SumAt(rows: seq<Rollup>, name: Name, start: int, f: Field): int {
    if rows == [] then 0
    else
      var last := rows[|rows| - 1];
      SumAt(rows[..|rows| - 1], name, start, f) + if IsAt(last, name, start) then Value(last, f) else 0
  }

  ghost predicate Occurs(rows: seq<Rollup>, name: Name, start: int) {
    exists i :: 0 <= i < |rows| && IsAt(rows[i], name, start)
  }

  lemma SumAtSnoc(rows: seq<Rollup>, r: Rollup, name: Name, start: int, f: Field)
    ensures SumAt(rows + [r], name, start, f) == SumAt(rows, name, start, f)
            + if IsAt(r, name, start) then Value(r, f) else 0
    ensures Occurs(rows + [r], name, start) <==> Occurs(rows, name, start) || IsAt(r, name, start)
  {
    assert (rows + [r])[..|rows|] == rows;
    assert (rows + [r])[|rows|] == r;
    if i :| 0 <= i < |rows| && IsAt(rows[i], name, start) { assert IsAt((rows + [r])[i], name, start); }
  }

  lemma {:induction false} SumAtUpdate(rows: seq<Rollup>, i: nat, r: Rollup, name: Name, start: int, f: Field)
    requires i < |rows| && IsAt(rows[i], r.name, r.start)
    ensures SumAt(rows[i := r], name, start, f)
            == SumAt(rows, name, start, f) + if IsAt(r, name, start) then Value(r, f) - Value(rows[i], f) else 0
  {
    var last := |rows| - 1;
    if i == last {
      assert rows[i := r][..last] == rows[..last];
    } else {
      assert rows[i := r][..last] == rows[..last][i := r];
      SumAtUpdate(rows[..last], i, r, name, start, f);
    }
  }

  lemma {:induction false} AbsentSum(rows: seq<Rollup>, name: Name, start: int, f: Field)
    requires !Occurs(rows, name, start)
    ensures SumAt(rows, name, start, f) == 0
  {
    if rows != [] {
      assert rows[..|rows| - 1] + [rows[|rows| - 1]] == rows;
      SumAtSnoc(rows[..|rows| - 1], rows[|rows| - 1], name, start, f);
      AbsentSum(rows[..|rows| - 1], name, start, f);
    }
  }

  lemma OccursAfterAdd(merged: seq<Rollup>, r: Rollup, name: Name, start: int)
    ensures Occurs(AddRollup(merged, r), name, start) <==> Occurs(merged, name, start) || IsAt(r, name, start)
  {
    var i := FindRollup(merged, r.name, r.start);
    if i < 0 {
      SumAtSnoc(merged, r, name, start, In);
    } else {
      var after := AddRollup(merged, r);
      forall j | 0 <= j < |merged| ensures IsAt(after[j], name, start) <==> IsAt(merged[j], name, start) {}
      if IsAt(r, name, start) { assert IsAt(after[i], name, start); }
      if j :| 0 <= j < |merged| && IsAt(merged[j], name, start) { assert IsAt(after[j], name, start); }
    }
  }

  lemma {:induction false} MergeOccurs(rows: seq<Rollup>, name: Name, start: int)
    ensures Occurs(Merge(rows), name, start) <==> Occurs(rows, name, start)
  {
    hide AddRollup, Occurs;
    if rows == [] {
      NothingOccurs(name, start);
    } else {
      var most, last := rows[..|rows| - 1], rows[|rows| - 1];
      assert most + [last] == rows;
      MergeOccurs(most, name, start);
      OccursAfterAdd(Merge(most), last, name, start);
      SumAtSnoc(most, last, name, start, In);
    }
  }

  lemma NothingOccurs(name: Name, start: int)
    ensures !Occurs([], name, start)
  {
  }

  lemma AddedSumAt(merged: seq<Rollup>, r: Rollup, name: Name, start: int, f: Field)
    ensures SumAt(AddRollup(merged, r), name, start, f)
            == SumAt(merged, name, start, f) + if IsAt(r, name, start) then Value(r, f) else 0
  {
    hide SumAt;
    var i := FindRollup(merged, r.name, r.start);
    if i < 0 {
      SumAtSnoc(merged, r, name, start, f);
    } else {
      SumAtUpdate(merged, i, Plus(merged[i], r), name, start, f);
    }
  }

  /** Merging keeps the sum of each name and start. */
  lemma {:induction false} MergeSumAt(rows: seq<Rollup>, name: Name, start: int, f: Field)
    ensures SumAt(Merge(rows), name, start, f) == SumAt(rows, name, start, f)
  {
    hide AddRollup, IsAt;
    if rows != [] {
      var most, last := rows[..|rows| - 1], rows[|rows| - 1];
      MergeSumAt(most, name, start, f);
      AddedSumAt(Merge(most), last, name, start, f);
    }
  }

  lemma {:induction false} DistinctSumAt(rows: seq<Rollup>, i: nat, f: Field)
    requires DistinctKeys(rows) && i < |rows|
    ensures SumAt(rows, rows[i].name, rows[i].start, f) == Value(rows[i], f)
    decreases |rows|
  {
    var last := |rows| - 1;
    assert rows[..last] + [rows[last]] == rows;
    if i == last {
      AbsentSum(rows[..last], rows[last].name, rows[last].start, f);
    } else {
      DistinctSumAt(rows[..last], i, f);
    }
  }

  /** Each name and start that occurs has one row, which holds its sums; no other row is there. */
  ghost predicate MergeOf(merged: seq<Rollup>, rows: seq<Rollup>) {
    && DistinctKeys(merged)
    && (forall i, f {:trigger Value(merged[i], f)} :: 0 <= i < |merged| ==>
          Value(merged[i], f) == SumAt(rows, merged[i].name, merged[i].start, f))
    && (forall name, start :: Occurs(merged, name, start) <==> Occurs(rows, name, start))
  }

  lemma MergeIs(rows: seq<Rollup>)
    ensures MergeOf(Merge(rows), rows)
  {
    var merged := Merge(rows);
    MergeDistinct(rows);
    forall i, f | 0 <= i < |merged| ensures Value(merged[i], f) == SumAt(rows, merged[i].name, merged[i].start, f) {
      DistinctSumAt(merged, i, f);
      MergeSumAt(rows, merged[i].name, merged[i].start, f);
    }
    forall name, start ensures Occurs(merged, name, start) <==> Occurs(rows, name, start) {
      MergeOccurs(rows, name, start);
    }
  }

  // ---------- hourly rows ----------

  predicate InBucket(x: Sample, session: nat, hour: int, cutoff: int) {
    x.at < cutoff && x.session == session && Hour(x.at) == hour
  }

  /** Least and greatest counters of a session in an hour, under the name it had first there. */
  function Bucket(samples: seq<Sample>, session: nat, hour: int, cutoff: int): Option<Group> {
    if samples == [] then None
    else
      var earlier, x := Bucket(samples[..|samples| - 1], session, hour, cutoff), samples[|samples| - 1];
      if !InBucket(x, session, hour, cutoff) then earlier
      else Some(if earlier.Some? then Widened(earlier.value, x) else NewGroup(x))
  }

  function Low(g: Group, f: Field): int {
    if f == In then g.minIn else g.minOut
  }

  function High(g: Group, f: Field): int {
    if f == In then g.maxIn else g.maxOut
  }

  ghost predicate Attained(samples: seq<Sample>, session: nat, hour: int, cutoff: int, f: Field, v: int) {
    exists i :: 0 <= i < |samples| && InBucket(samples[i], session, hour, cutoff) && Bytes(samples[i], f) == v
  }

  lemma AttainedStill(samples: seq<Sample>, x: Sample, session: nat, hour: int, cutoff: int, f: Field, v: int)
    requires Attained(samples, session, hour, cutoff, f, v)
    ensures Attained(samples + [x], session, hour, cutoff, f, v)
  {
    var i :| 0 <= i < |samples| && InBucket(samples[i], session, hour, cutoff) && Bytes(samples[i], f) == v;
    assert (samples + [x])[i] == samples[i];
  }

  /** The counters of a bucket are those of its samples: its least and its greatest, both met. */
  lemma {:induction false} BucketMeans(samples: seq<Sample>, session: nat, hour: int, cutoff: int, f: Field)
    ensures var g := Bucket(samples, session, hour, cutoff);
            if g.None? then forall i :: 0 <= i < |samples| ==> !InBucket(samples[i], session, hour, cutoff)
            else
              && g.value.session == session && g.value.hour == hour
              && (forall i :: 0 <= i < |samples| && InBucket(samples[i], session, hour, cutoff) ==>
                    Low(g.value, f) <= Bytes(samples[i], f) <= High(g.value, f))
              && Attained(samples, session, hour, cutoff, f, Low(g.value, f))
              && Attained(samples, session, hour, cutoff, f, High(g.value, f))
  {
    if samples != [] {
      var most, x := samples[..|samples| - 1], samples[|samples| - 1];
      BucketMeans(most, session, hour, cutoff, f);
      assert most + [x] == samples;
      var earlier := Bucket(most, session, hour, cutoff);
      if earlier.Some? {
        AttainedStill(most, x, session, hour, cutoff, f, Low(earlier.value, f));
        AttainedStill(most, x, session, hour, cutoff, f, High(earlier.value, f));
      }
      if InBucket(x, session, hour, cutoff) {
        assert Attained(samples, session, hour, cutoff, f, Bytes(x, f)) by { assert samples[|most|] == x; }
      }
    }
  }

  /** What a bucket adds to the row of a name: MAX - MIN of a counter, or one session. */
  function Share(g: Option<Group>, name: Name, f: Field): int {
    if g.None? || g.value.name != name then 0
    else if f == Sessions then 1
    else High(g.value, f) - Low(g.value, f)
  }

  /** Over all sessions below `bound` of a name: MAX - MIN of the hour, or how many there are. */
  function HourTotal(samples: seq<Sample>, cutoff: int, bound: nat, name: Name, hour: int, f: Field): int {
    if bound == 0 then 0
    else HourTotal(samples, cutoff, bound - 1, name, hour, f) + Share(Bucket(samples, bound - 1, hour, cutoff), name, f)
  }

  ghost predicate SessionsUnder(samples: seq<Sample>, bound: nat) {
    forall i :: 0 <= i < |samples| ==> samples[i].session < bound
  }

  function Groups(samples: seq<Sample>, cutoff: int): seq<Group> {
    GroupSamples(SamplesBefore(samples, cutoff))
  }

  lemma GroupsSnoc(samples: seq<Sample>, x: Sample, cutoff: int)
    ensures Groups(samples + [x], cutoff)
            == if x.at < cutoff then AddSample(Groups(samples, cutoff), x) else Groups(samples, cutoff)
  {
    hide AddSample;
    assert (samples + [x])[..|samples|] == samples;
    var rows := SamplesBefore(samples, cutoff);
    assert (rows + [x])[..|rows|] == rows;
  }

  /** The group of a session and hour is its bucket. */
  lemma {:induction false} GroupsAreBuckets(samples: seq<Sample>, cutoff: int, session: nat, hour: int)
    ensures var groups := Groups(samples, cutoff);
            var i := FindGroup(groups, session, hour);
            Bucket(samples, session, hour, cutoff) == if i < 0 then None else Some(groups[i])
  {
    if samples != [] {
      var most, x := samples[..|samples| - 1], samples[|samples| - 1];
      assert most + [x] == samples;
      GroupsAreBuckets(most, cutoff, session, hour);
      GroupsSnoc(most, x, cutoff);
      hide Groups, FindGroup;
      if x.at < cutoff {
        var groups := Groups(most, cutoff);
        var i := FindGroup(groups, x.session, Hour(x.at));
        if i < 0 { FindGroupSnoc(groups, NewGroup(x), session, hour); }
        else { FindGroupUpdate(groups, i, Widened(groups[i], x), session, hour); }
      }
    }
  }

  /** A sample changes the share of its own session in its own hour only. */
  lemma {:induction false} TotalSnoc(samples: seq<Sample>, x: Sample, cutoff: int, bound: nat, name: Name,
                                     hour: int, f: Field)
    ensures HourTotal(samples + [x], cutoff, bound, name, hour, f)
            == HourTotal(samples, cutoff, bound, name, hour, f)
               + if x.session < bound
                 then Share(Bucket(samples + [x], x.session, hour, cutoff), name, f)
                      - Share(Bucket(samples, x.session, hour, cutoff), name, f)
                 else 0
    decreases bound
  {
    if bound > 0 {
      TotalSnoc(samples, x, cutoff, bound - 1, name, hour, f);
      assert (samples + [x])[..|samples|] == samples;
    }
  }

  lemma DeltasSnoc(groups: seq<Group>, g: Group)
    ensures Deltas(groups + [g]) == Deltas(groups) + [Delta(g)]
  {
  }

  lemma DeltasUpdate(groups: seq<Group>, i: nat, g: Group)
    requires i < |groups|
    ensures Deltas(groups[i := g]) == Deltas(groups)[i := Delta(g)]
  {
  }

  /** The deltas of a name and hour add up to its total over the sessions. */
  lemma {:induction false} DeltasSum(samples: seq<Sample>, cutoff: int, bound: nat, name: Name, hour: int, f: Field)
    requires SessionsUnder(samples, bound)
    ensures SumAt(Deltas(Groups(samples, cutoff)), name, hour, f) == HourTotal(samples, cutoff, bound, name, hour, f)
    decreases |samples|
  {
    hide Groups, HourTotal, SumAt, Share, Bucket, AddSample;
    if samples == [] {
      NoTotal(cutoff, bound, name, hour, f);
    } else {
      var most, x := samples[..|samples| - 1], samples[|samples| - 1];
      assert most + [x] == samples;
      DeltasSum(most, cutoff, bound, name, hour, f);
      TotalSnoc(most, x, cutoff, bound, name, hour, f);
      GroupsSnoc(most, x, cutoff);
      DeltasStep(most, x, cutoff, name, hour, f);
    }
  }

  lemma DeltasStep(most: seq<Sample>, x: Sample, cutoff: int, name: Name, hour: int, f: Field)
    ensures var groups := Groups(most, cutoff);
            SumAt(Deltas(if x.at < cutoff then AddSample(groups, x) else groups), name, hour, f)
            == SumAt(Deltas(groups), name, hour, f)
               + Share(Bucket(most + [x], x.session, hour, cutoff), name, f)
               - Share(Bucket(most, x.session, hour, cutoff), name, f)
  {
    hide Groups, HourTotal, SumAt, FindGroup, AddSample, Widened, NewGroup, Delta, Share, Bucket, Hour;
    if x.at < cutoff {
      GroupsAreBuckets(most, cutoff, x.session, Hour(x.at));
      SampleAdds(Groups(most, cutoff), x, name, hour, f);
      BucketGrows(most, x, hour, cutoff);
    } else {
      BucketStays(most, x, hour, cutoff);
    }
  }

  /** What adding a sample does to the sum of a name and hour: its group's share changes. */
  lemma SampleAdds(groups: seq<Group>, x: Sample, name: Name, hour: int, f: Field)
    ensures var i := FindGroup(groups, x.session, Hour(x.at));
            var before := if i < 0 then None else Some(groups[i]);
            var after := if i < 0 then NewGroup(x) else Widened(groups[i], x);
            SumAt(Deltas(AddSample(groups, x)), name, hour, f)
            == SumAt(Deltas(groups), name, hour, f)
               + if Hour(x.at) == hour then Share(Some(after), name, f) - Share(before, name, f) else 0
  {
    hide FindGroup, SumAt;
    var i := FindGroup(groups, x.session, Hour(x.at));
    if i < 0 {
      DeltasSnoc(groups, NewGroup(x));
      SumAtSnoc(Deltas(groups), Delta(NewGroup(x)), name, hour, f);
    } else {
      DeltasUpdate(groups, i, Widened(groups[i], x));
      SumAtUpdate(Deltas(groups), i, Delta(Widened(groups[i], x)), name, hour, f);
    }
  }

  lemma BucketGrows(most: seq<Sample>, x: Sample, hour: int, cutoff: int)
    requires x.at < cutoff
    ensures var before := Bucket(most, x.session, hour, cutoff);
            Bucket(most + [x], x.session, hour, cutoff)
            == if Hour(x.at) != hour then before
               else if before.None? then Some(NewGroup(x)) else Some(Widened(before.value, x))
  {
    assert (most + [x])[..|most|] == most;
  }

  lemma BucketStays(most: seq<Sample>, x: Sample, hour: int, cutoff: int)
    requires x.at >= cutoff
    ensures Bucket(most + [x], x.session, hour, cutoff) == Bucket(most, x.session, hour, cutoff)
  {
    assert (most + [x])[..|most|] == most;
  }

  lemma {:induction false} NoTotal(cutoff: int, bound: nat, name: Name, hour: int, f: Field)
    ensures HourTotal([], cutoff, bound, name, hour, f) == 0 == SumAt(Deltas(Groups([], cutoff)), name, hour, f)
  {
    if bound > 0 { NoTotal(cutoff, bound - 1, name, hour, f); }
  }

  lemma {:induction false} OccursIffCounted(rows: seq<Rollup>, name: Name, start: int)
    requires forall i :: 0 <= i < |rows| ==> rows[i].sessions > 0
    ensures SumAt(rows, name, start, Sessions) >= 0
    ensures Occurs(rows, name, start) <==> SumAt(rows, name, start, Sessions) > 0
  {
    if rows != [] {
      var most, last := rows[..|rows| - 1], rows[|rows| - 1];
      assert most + [last] == rows;
      OccursIffCounted(most, name, start);
      SumAtSnoc(most, last, name, start, Sessions);
    }
  }

  function Bound(samples: seq<Sample>): (bound: nat)
    ensures SessionsUnder(samples, bound)
  {
    if samples == [] then 0 else Max(Bound(samples[..|samples| - 1]), samples[|samples| - 1].session + 1)
  }

  /** Sample `i` is the first of its session in the hour, among those before the cutoff. */
  ghost predicate OpensBucket(samples: seq<Sample>, i: nat, hour: int, cutoff: int) {
    && i < |samples| && samples[i].at < cutoff && Hour(samples[i].at) == hour
    && forall j :: 0 <= j < i && samples[j].session == samples[i].session ==>
         !(samples[j].at < cutoff && Hour(samples[j].at) == hour)
  }

  /** The sessions with a sample of that hour before the cutoff, under that name. */
  ghost function SessionsIn(samples: seq<Sample>, cutoff: int, name: Name, hour: int): set<nat> {
    set i | 0 <= i < |samples| && OpensBucket(samples, i, hour, cutoff) && samples[i].name == name
        :: samples[i].session
  }

  ghost predicate OpensFor(samples: seq<Sample>, i: nat, session: nat, hour: int, cutoff: int) {
    OpensBucket(samples, i, hour, cutoff) && samples[i].session == session
  }

  /** A session has a bucket exactly if one of its samples opens it, which names it. */
  lemma {:induction false} BucketOpens(samples: seq<Sample>, session: nat, hour: int, cutoff: int) returns (i: nat)
    ensures var g := Bucket(samples, session, hour, cutoff);
            && (g.Some? ==> OpensFor(samples, i, session, hour, cutoff) && samples[i].name == g.value.name)
            && (g.None? ==> forall k :: !OpensFor(samples, k, session, hour, cutoff))
            && (g.Some? ==> forall k :: OpensFor(samples, k, session, hour, cutoff) ==> k == i)
  {
    i := 0;
    if samples != [] {
      hide Hour, Widened;
      var most := samples[..|samples| - 1];
      i := BucketOpens(most, session, hour, cutoff);
      forall k: nat ensures OpensFor(samples, k, session, hour, cutoff)
                       <==> OpensFor(most, k, session, hour, cutoff)
                            || (k == |most| && InBucket(samples[k], session, hour, cutoff)
                                && Bucket(most, session, hour, cutoff).None?)
      {
        OpensSnoc(samples, session, hour, cutoff, k, i);
      }
      if Bucket(most, session, hour, cutoff).None? { i := |most|; }
    }
  }

  lemma OpensSnoc(samples: seq<Sample>, session: nat, hour: int, cutoff: int, k: nat, i: nat)
    requires samples != []
    requires var most := samples[..|samples| - 1];
             var g := Bucket(most, session, hour, cutoff);
             && (g.Some? ==> OpensFor(most, i, session, hour, cutoff))
             && (g.None? ==> forall k :: !OpensFor(most, k, session, hour, cutoff))
    ensures var most := samples[..|samples| - 1];
            OpensFor(samples, k, session, hour, cutoff)
            <==> OpensFor(most, k, session, hour, cutoff)
                 || (k == |most| && InBucket(samples[k], session, hour, cutoff)
                     && Bucket(most, session, hour, cutoff).None?)
  {
    var most := samples[..|samples| - 1];
    hide Hour;
    BucketMeans(most, session, hour, cutoff, In);
    hide Bucket;
  }

  lemma CountedIff(samples: seq<Sample>, cutoff: int, name: Name, hour: int, session: nat)
    ensures session in SessionsIn(samples, cutoff, name, hour)
            <==> Share(Bucket(samples, session, hour, cutoff), name, Sessions) == 1
    ensures Share(Bucket(samples, session, hour, cutoff), name, Sessions) in {0, 1}
  {
    hide Bucket, Hour;
    var i := BucketOpens(samples, session, hour, cutoff);
    if session in SessionsIn(samples, cutoff, name, hour) {
      var k :| 0 <= k < |samples| && OpensBucket(samples, k, hour, cutoff) && samples[k].name == name
               && samples[k].session == session;
      assert OpensFor(samples, k, session, hour, cutoff);
    }
  }

  lemma {:induction false} CountBelow(samples: seq<Sample>, cutoff: int, name: Name, hour: int, bound: nat)
    ensures HourTotal(samples, cutoff, bound, name, hour, Sessions)
            == |set s | 0 <= s < bound && s in SessionsIn(samples, cutoff, name, hour)|
  {
    hide Bucket, SessionsIn, Share;
    if bound > 0 {
      CountBelow(samples, cutoff, name, hour, bound - 1);
      CountedIff(samples, cutoff, name, hour, bound - 1);
      var sessions := SessionsIn(samples, cutoff, name, hour);
      var before, all := set s | 0 <= s < bound - 1 && s in sessions, set s | 0 <= s < bound && s in sessions;
      assert all == if bound - 1 in sessions then before + {bound - 1} else before;
    }
  }

  /** The number of a name and hour is that of its distinct sessions. */
  lemma SessionsCounted(samples: seq<Sample>, cutoff: int, bound: nat, name: Name, hour: int)
    requires SessionsUnder(samples, bound)
    ensures HourTotal(samples, cutoff, bound, name, hour, Sessions) == |SessionsIn(samples, cutoff, name, hour)|
  {
    CountBelow(samples, cutoff, name, hour, bound);
    hide HourTotal, Hour;
    assert SessionsIn(samples, cutoff, name, hour)
        == set s | 0 <= s < bound && s in SessionsIn(samples, cutoff, name, hour);
  }

  /** One row for each name and hour in which some session of the name has a sample before the
      cutoff, holding the sums over those sessions of MAX - MIN and their number; no other row. */
  ghost predicate HourlyRows(rows: seq<Rollup>, samples: seq<Sample>, cutoff: int) {
    && DistinctKeys(rows)
    && (forall i :: 0 <= i < |rows| ==> HourlyRow(rows[i], samples, cutoff))
    && (forall name, hour :: Occurs(rows, name, hour) <==> SessionsIn(samples, cutoff, name, hour) != {})
  }

  ghost predicate HourlyRow(r: Rollup, samples: seq<Sample>, cutoff: int) {
    && r.bytesIn == HourTotal(samples, cutoff, Bound(samples), r.name, r.start, In)
    && r.bytesOut == HourTotal(samples, cutoff, Bound(samples), r.name, r.start, Out)
    && r.sessions == |SessionsIn(samples, cutoff, r.name, r.start)|
  }

  lemma HourlyIs(samples: seq<Sample>, cutoff: int)
    ensures HourlyRows(HourlyOf(samples, cutoff), samples, cutoff)
  {
    hide SumAt, HourTotal, Bound, Occurs, Merge, SessionsIn;
    var deltas := Deltas(Groups(samples, cutoff));
    var rows := HourlyOf(samples, cutoff);
    assert rows == Merge(deltas);
    MergeIs(deltas);
    forall i | 0 <= i < |rows| ensures HourlyRow(rows[i], samples, cutoff) {
      var r := rows[i];
      forall f ensures Value(r, f) == HourTotal(samples, cutoff, Bound(samples), r.name, r.start, f) {
        DeltasSum(samples, cutoff, Bound(samples), r.name, r.start, f);
      }
      assert Value(r, In) == r.bytesIn && Value(r, Out) == r.bytesOut && Value(r, Sessions) == r.sessions;
      SessionsCounted(samples, cutoff, Bound(samples), r.name, r.start);
    }
    forall name, hour ensures Occurs(rows, name, hour) <==> SessionsIn(samples, cutoff, name, hour) != {} {
      DeltasSum(samples, cutoff, Bound(samples), name, hour, Sessions);
      SessionsCounted(samples, cutoff, Bound(samples), name, hour);
      OccursIffCounted(deltas, name, hour);
    }
  }

  /** The counters of a bucket enclose those of its samples. */
  lemma BucketEncloses(samples: seq<Sample>, session: nat, hour: int, cutoff: int, i: nat)
    requires i < |samples| && InBucket(samples[i], session, hour, cutoff)
    ensures var g := Bucket(samples, session, hour, cutoff);
            && g.Some? && g.value.minIn <= samples[i].bytesIn <= g.value.maxIn
            && g.value.minOut <= samples[i].bytesOut <= g.value.maxOut
  {
    hide Bucket, InBucket;
    BucketMeans(samples, session, hour, cutoff, In);
    BucketMeans(samples, session, hour, cutoff, Out);
  }

  // ---------- daily rows ----------

  predicate InDay(r: Rollup, name: Name, day: int, cutoff: int) {
    r.start < cutoff && r.name == name && Day(r.start) == day
  }

  /** The sum of a column over a name's hourly rows of a day before the cutoff. */
  function DayTotal(hourly: seq<Rollup>, cutoff: int, name: Name, day: int, f: Field): int {
    if hourly == [] then 0
    else
      var last := hourly[|hourly| - 1];
      DayTotal(hourly[..|hourly| - 1], cutoff, name, day, f)
          + if InDay(last, name, day, cutoff) then Value(last, f) else 0
  }

  ghost predicate DayOccurs(hourly: seq<Rollup>, cutoff: int, name: Name, day: int) {
    exists i :: 0 <= i < |hourly| && InDay(hourly[i], name, day, cutoff)
  }

  lemma ByDaySnoc(rows: seq<Rollup>, r: Rollup)
    ensures ByDay(rows + [r]) == ByDay(rows) + [r.(start := Day(r.start))]
  {
  }

  lemma DaySnoc(hourly: seq<Rollup>, r: Rollup, cutoff: int, name: Name, day: int, f: Field)
    ensures DayTotal(hourly + [r], cutoff, name, day, f)
            == DayTotal(hourly, cutoff, name, day, f) + if InDay(r, name, day, cutoff) then Value(r, f) else 0
    ensures DayOccurs(hourly + [r], cutoff, name, day)
            <==> DayOccurs(hourly, cutoff, name, day) || InDay(r, name, day, cutoff)
  {
    hide InDay;
    var all := hourly + [r];
    assert all[..|hourly|] == hourly && all[|hourly|] == r;
    if i :| 0 <= i < |hourly| && InDay(hourly[i], name, day, cutoff) { assert InDay(all[i], name, day, cutoff); }
  }

  lemma {:induction false} ByDaySums(hourly: seq<Rollup>, cutoff: int, name: Name, day: int, f: Field)
    ensures SumAt(ByDay(RollupsBefore(hourly, cutoff)), name, day, f) == DayTotal(hourly, cutoff, name, day, f)
    ensures Occurs(ByDay(RollupsBefore(hourly, cutoff)), name, day) <==> DayOccurs(hourly, cutoff, name, day)
  {
    if hourly == [] {
      assert ByDay([]) == [];
    } else {
      hide RollupsBefore, SumAt, Occurs, DayTotal, DayOccurs;
      var most, last := hourly[..|hourly| - 1], hourly[|hourly| - 1];
      assert most + [last] == hourly;
      ByDaySums(most, cutoff, name, day, f);
      FilterSnoc(most, last, cutoff);
      var rows := RollupsBefore(most, cutoff);
      ByDaySnoc(rows, last);
      SumAtSnoc(ByDay(rows), last.(start := Day(last.start)), name, day, f);
      DaySnoc(most, last, cutoff, name, day, f);
    }
  }

  /** One row for each name and day with an hourly row before the cutoff, holding their sums. */
  ghost predicate DailyRows(rows: seq<Rollup>, hourly: seq<Rollup>, cutoff: int) {
    && DistinctKeys(rows)
    && (forall i :: 0 <= i < |rows| ==> DailyRow(rows[i], hourly, cutoff))
    && (forall name, day :: Occurs(rows, name, day) <==> DayOccurs(hourly, cutoff, name, day))
  }

  ghost predicate DailyRow(r: Rollup, hourly: seq<Rollup>, cutoff: int) {
    && r.bytesIn == DayTotal(hourly, cutoff, r.name, r.start, In)
    && r.bytesOut == DayTotal(hourly, cutoff, r.name, r.start, Out)
    && r.sessions == DayTotal(hourly, cutoff, r.name, r.start, Sessions)
  }

  lemma DailyIs(hourly: seq<Rollup>, cutoff: int)
    ensures DailyRows(DailyOf(hourly, cutoff), hourly, cutoff)
  {
    hide SumAt, DayTotal, Occurs, DayOccurs, Merge;
    var rows := DailyOf(hourly, cutoff);
    MergeIs(ByDay(RollupsBefore(hourly, cutoff)));
    forall i | 0 <= i < |rows| ensures DailyRow(rows[i], hourly, cutoff) {
      var r := rows[i];
      forall f ensures Value(r, f) == DayTotal(hourly, cutoff, r.name, r.start, f) {
        ByDaySums(hourly, cutoff, r.name, r.start, f);
      }
      assert Value(r, In) == r.bytesIn && Value(r, Out) == r.bytesOut && Value(r, Sessions) == r.sessions;
    }
    forall name, day ensures Occurs(rows, name, day) <==> DayOccurs(hourly, cutoff, name, day) {
      ByDaySums(hourly, cutoff, name, day, In);
    }
  }

  // ---------- the tables ----------

  class Tables {
    var samples: seq<Sample>
    var hourly: seq<Rollup>
    var daily: seq<Rollup>

    constructor ()
      ensures samples == [] && hourly == [] && daily == []
    {
      samples, hourly, daily := [], [], [];
    }

    method AggregateSamplesToHourly(cutoff: int)
      modifies this`hourly
      ensures hourly == old(hourly) + HourlyOf(samples, cutoff)
      ensures HourlyRows(hourly[|old(hourly)|..], samples, cutoff)
    {
      hourly := hourly + Merge(Deltas(GroupSamples(SamplesBefore(samples, cutoff))));
      HourlyIs(samples, cutoff);
      assert hourly[|old(hourly)|..] == HourlyOf(samples, cutoff);
    }

    method AggregateHourlyToDaily(cutoff: int)
      modifies this`daily
      ensures daily == old(daily) + DailyOf(hourly, cutoff)
      ensures DailyRows(daily[|old(daily)|..], hourly, cutoff)
    {
      daily := daily + Merge(ByDay(RollupsBefore(hourly, cutoff)));
      DailyIs(hourly, cutoff);
      assert daily[|old(daily)|..] == DailyOf(hourly, cutoff);
    }

    method PruneOldSamples(cutoff: int)
      modifies this`samples
      ensures samples == SamplesFrom(old(samples), cutoff) && KeepsSamples(samples, old(samples), cutoff)
    {
      SamplesFromKeeps(samples, cutoff);
      samples := SamplesFrom(samples, cutoff);
    }

    method PruneOldHourly(cutoff: int)
      modifies this`hourly
      ensures hourly == RollupsFrom(old(hourly), cutoff) && KeepsRollups(hourly, old(hourly), cutoff)
    {
      RollupsFromKeeps(hourly, cutoff);
      hourly := RollupsFrom(hourly, cutoff);
    }

    /** One round whose four statements succeed, each computing its own cutoff from the clock. */
    method RunRetention(samples1: int, hourly1: int, samples2: int, hourly2: int)
      requires samples1 <= samples2 && hourly1 <= hourly2
      modifies this
      ensures samples == SamplesFrom(old(samples), samples2)
      ensures forall name, f {:trigger Sum(daily, name, f)} :: Sum(hourly, name, f) + Sum(daily, name, f)
                == old(Sum(hourly, name, f) + Sum(daily, name, f)) + Sum(HourlyOf(old(samples), samples1), name, f)
                   - Sum(RollupsBetween(old(hourly) + HourlyOf(old(samples), samples1), hourly1, hourly2), name, f)
    {
      hide KeepsSamples, KeepsRollups, HourlyRows, DailyRows, HourlyOf, DailyOf, SamplesFrom, RollupsFrom, Sum;
      AggregateSamplesToHourly(samples1);
      ghost var rows, days := hourly, daily;
      AggregateHourlyToDaily(hourly1);
      PruneOldSamples(samples2);
      PruneOldHourly(hourly2);
      forall name, f
        ensures Sum(hourly, name, f) + Sum(daily, name, f)
                == old(Sum(hourly, name, f) + Sum(daily, name, f)) + Sum(HourlyOf(old(samples), samples1), name, f)
                   - Sum(RollupsBetween(rows, hourly1, hourly2), name, f)
      {
        DailyRollKeepsTotals(rows, days, hourly1, hourly2, name, f);
        SumConcat(old(hourly), HourlyOf(old(samples), samples1), name, f);
      }
    }
  }
}
