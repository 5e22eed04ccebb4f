/** The rolling 24-hour counters of the InfluxDB writer, against the plain event log. */
module InfluxCounters {

  const HOURS := 24

  /** `n` points that went out, or failed to, in hour `hour` since the epoch. */
  datatype Event = Event(hour: int, n: int)

  predicate InWindow(e: Event, key: int) {
    key - HOURS < e.hour <= key
  }

  /** What the log says a slot holds: the events of its hour class in the 24 hours to `key`. */
  function SlotSum(log: seq<Event>, key: int, slot: int): int {
    if log == [] then 0
    else
      var e := log[|log| - 1];
      SlotSum(log[..|log| - 1], key, slot) + if InWindow(e, key) && e.hour % HOURS == slot then e.n else 0
  }

  function WindowSum(log: seq<Event>, key: int): int {
    if log == [] then 0
    else
      var e := log[|log| - 1];
      WindowSum(log[..|log| - 1], key) + if InWindow(e, key) then e.n else 0
  }

  /** The window is the 24 hours up to `key`: an event counts from its own hour on, for 24 hours. */
  lemma WindowIsADay(log: seq<Event>, e: Event, key: int)
    ensures WindowSum([], key) == 0
    ensures WindowSum(log + [e], key) == WindowSum(log, key) + (if key - 24 < e.hour <= key then e.n else 0)
  {
    assert (log + [e])[..|log|] == log;
  }

  /** Slots and log agree. Key 0 means that no hour was seen. */
  ghost predicate Agrees(slots: seq<int>, key: int, log: seq<Event>) {
    && |slots| == HOURS
    && (forall r :: 0 <= r < HOURS ==> slots[r] == SlotSum(log, key, r))
    && (forall e <- log :: e.hour <= key)
    && (key == 0 ==> log == [])
  }

  // ---------- rotation and counting on values ----------

  function LaterKey(key: int, hour: int): int {
    if key == 0 || hour > key then hour else key
  }

  /** Slots `key + 1` to `key + delta` cleared. */
  function Cleared(slots: seq<int>, key: int, delta: nat): (r: seq<int>)
    requires |slots| == HOURS
    ensures |r| == HOURS
  {
    if delta == 0 then slots else Cleared(slots, key, delta - 1)[(key + delta) % HOURS := 0]
  }

  function Rotated(slots: seq<int>, key: int, hour: int): (r: seq<int>)
    requires |slots| == HOURS
    ensures |r| == HOURS
  {
    var delta := hour - key;
    if key == 0 || delta <= 0 then slots
    else if delta >= HOURS then seq(HOURS, _ => 0)
    else Cleared(slots, key, delta)
  }

  function Bumped(slots: seq<int>, key: int, hour: int, n: int): seq<int>
    requires |slots| == HOURS
  {
    var rotated := Rotated(slots, key, hour);
    rotated[hour % HOURS := rotated[hour % HOURS] + n]
  }

  lemma HourModulo(x: int, q: int, r: int)
    requires x == q * HOURS + r && 0 <= r < HOURS
    ensures x % HOURS == r
  {
  }

  lemma SlotOfHour(key: int, delta: nat, r: int)
    requires delta < HOURS && 0 <= r < HOURS
    ensures (key + delta) % HOURS == r <==> (r - key) % HOURS == delta
  {
    if (key + delta) % HOURS == r { HourModulo(r - key, -((key + delta) / HOURS), delta); }
    if (r - key) % HOURS == delta { HourModulo(key + delta, -((r - key) / HOURS), r); }
  }

  lemma {:induction false} ClearedAt(slots: seq<int>, key: int, delta: nat, r: int)
    requires |slots| == HOURS && delta < HOURS && 0 <= r < HOURS
    ensures Cleared(slots, key, delta)[r] == if 1 <= (r - key) % HOURS <= delta then 0 else slots[r]
  {
    if delta > 0 {
      ClearedAt(slots, key, delta - 1, r);
      SlotOfHour(key, delta, r);
    }
  }

  /** An event of the window leaves a later one exactly if its slot is one of those passed. */
  lemma LeavesWindow(e: Event, key: int, hour: int, r: int)
    requires key <= hour < key + HOURS && InWindow(e, key) && e.hour % HOURS == r
    ensures InWindow(e, hour) <==> !(1 <= (r - key) % HOURS <= hour - key)
  {
    var back, q := key - e.hour, e.hour / HOURS;
    if back == 0 { HourModulo(r - key, -q, 0); } else { HourModulo(r - key, -q - 1, HOURS - back); }
  }

  /** Of the events up to `key`, a later window drops exactly the slots that a rotation clears. */
  lemma {:induction false} SlotSumLater(log: seq<Event>, key: int, hour: int, r: int)
    requires key <= hour && 0 <= r < HOURS && forall e <- log :: e.hour <= key
    ensures SlotSum(log, hour, r)
            == if hour - key >= HOURS || 1 <= (r - key) % HOURS <= hour - key then 0 else SlotSum(log, key, r)
  {
    if log != [] {
      var e := log[|log| - 1];
      assert e in log;
      SlotSumLater(log[..|log| - 1], key, hour, r);
      if hour - key < HOURS && e.hour % HOURS == r && InWindow(e, key) { LeavesWindow(e, key, hour, r); }
    }
  }

  /** A rotation keeps slots and log in agreement, through any jump forward and any step back. */
  lemma RotationAgrees(slots: seq<int>, key: int, log: seq<Event>, hour: int)
    requires Agrees(slots, key, log) && hour >= 1
    ensures Agrees(Rotated(slots, key, hour), LaterKey(key, hour), log)
  {
    if key == 0 {
      forall r | 0 <= r < HOURS ensures slots[r] == SlotSum(log, hour, r) {}
    } else if hour > key {
      forall r | 0 <= r < HOURS ensures Rotated(slots, key, hour)[r] == SlotSum(log, hour, r) {
        SlotSumLater(log, key, hour, r);
        if hour - key < HOURS { ClearedAt(slots, key, hour - key, r); }
      }
    }
  }

  /** Counting keeps the agreement exactly when the clock is less than 24 hours behind the
      latest hour seen. */
  lemma BumpAgrees(slots: seq<int>, key: int, log: seq<Event>, hour: int, n: int)
    requires Agrees(slots, key, log) && hour >= 1 && n > 0
    ensures Agrees(Bumped(slots, key, hour, n), LaterKey(key, hour), log + [Event(hour, n)])
            <==> key == 0 || hour > key - HOURS
  {
    RotationAgrees(slots, key, log, hour);
    var later := LaterKey(key, hour);
    var e := Event(hour, n);
    var log' := log + [e];
    var rotated, bumped := Rotated(slots, key, hour), Bumped(slots, key, hour, n);
    assert log'[..|log'| - 1] == log;
    forall r | 0 <= r < HOURS
      ensures SlotSum(log', later, r) == SlotSum(log, later, r)
              + if InWindow(e, later) && hour % HOURS == r then n else 0
    {}
    var own := hour % HOURS;
    assert bumped[own] == SlotSum(log, later, own) + n;
    if key == 0 || hour > key - HOURS {
      forall r | 0 <= r < HOURS ensures bumped[r] == SlotSum(log', later, r) {}
    } else {
      assert bumped[own] != SlotSum(log', later, own);
    }
  }

  /** Hour 0 is taken for "no hour seen yet": a day later the counters agree with the log exactly
      if the first hour counted in was another one. */
  lemma HourZeroIsNeverCleared(slots: seq<int>, first: nat, hour: int, n: int)
    requires |slots| == HOURS && n > 0 && forall r :: 0 <= r < HOURS ==> slots[r] == 0
    requires hour >= first + HOURS
    ensures var key := LaterKey(0, first);
            var dayLater := Rotated(Bumped(slots, 0, first, n), key, hour);
            Agrees(dayLater, LaterKey(key, hour), [Event(first, n)]) <==> first != 0
  {
    var log := [Event(first, n)];
    assert log[..0] == [] && [] + log == log;
    if first != 0 {
      BumpAgrees(slots, 0, [], first, n);
      RotationAgrees(Bumped(slots, 0, first, n), first, log, hour);
    } else {
      assert log[..|log| - 1] == [];
      assert SlotSum(log, hour, 0) == 0;
      assert Rotated(Bumped(slots, 0, first, n), 0, hour)[0] == n;
    }
  }

  // ---------- the sum over all slots ----------

  function Total(slots: seq<int>): int {
    if slots == [] then 0 else Total(slots[..|slots| - 1]) + slots[|slots| - 1]
  }

  lemma {:induction false} TotalOfUpdate(slots: seq<int>, i: nat, n: int)
    requires i < |slots|
    ensures Total(slots[i := slots[i] + n]) == Total(slots) + n
  {
    var last := |slots| - 1;
    var updated := slots[i := slots[i] + n];
    if i < last {
      assert updated[..last] == slots[..last][i := slots[i] + n];
      TotalOfUpdate(slots[..last], i, n);
    } else {
      assert updated[..last] == slots[..last];
    }
  }

  function SlotSums(log: seq<Event>, key: int): seq<int> {
    seq(HOURS, r => SlotSum(log, key, r))
  }

  lemma {:induction false} ZeroTotal(count: nat)
    ensures Total(seq(count, _ => 0)) == 0
  {
    if count > 0 {
      ZeroTotal(count - 1);
      assert seq(count, _ => 0)[..count - 1] == seq(count - 1, _ => 0);
    }
  }

  /** Each event of the window stands in exactly one slot. */
  lemma {:induction false} SlotSumsTotal(log: seq<Event>, key: int)
    ensures Total(SlotSums(log, key)) == WindowSum(log, key)
  {
    if log == [] {
      assert SlotSums(log, key) == seq(HOURS, _ => 0);
      ZeroTotal(HOURS);
    } else {
      var e := log[|log| - 1];
      var before := SlotSums(log[..|log| - 1], key);
      SlotSumsTotal(log[..|log| - 1], key);
      if InWindow(e, key) {
        var own := e.hour % HOURS;
        assert SlotSums(log, key) == before[own := before[own] + e.n];
        TotalOfUpdate(before, own, e.n);
      } else {
        assert SlotSums(log, key) == before;
      }
    }
  }

  /** Slots that agree with the log add up to its exact window sum. */
  lemma AgreementTotal(slots: seq<int>, key: int, log: seq<Event>)
    requires Agrees(slots, key, log)
    ensures Total(slots) == WindowSum(log, key)
  {
    assert slots == SlotSums(log, key);
    SlotSumsTotal(log, key);
  }

  // ---------- the counters of the writer ----------

  class Counters {
    var flushedBkts: array<int>
    var errorsBkts: array<int>
    var statsHourKey: int
    ghost var flushedLog: seq<Event>
    ghost var errorsLog: seq<Event>

    ghost predicate Valid()
      reads this, flushedBkts, errorsBkts
    {
      && flushedBkts != errorsBkts && flushedBkts.Length == errorsBkts.Length == HOURS
      && Agrees(flushedBkts[..], statsHourKey, flushedLog)
      && Agrees(errorsBkts[..], statsHourKey, errorsLog)
    }

    constructor ()
      ensures Valid() && statsHourKey == 0 && flushedLog == [] && errorsLog == []
      ensures fresh(flushedBkts) && fresh(errorsBkts)
    {
      flushedBkts, errorsBkts := new int[HOURS](_ => 0), new int[HOURS](_ => 0);
      statsHourKey, flushedLog, errorsLog := 0, [], [];
    }

    method RotateBuckets(hourKey: int)
      requires Valid() && hourKey >= 1
      modifies this`statsHourKey, flushedBkts, errorsBkts
      ensures Valid() && statsHourKey == LaterKey(old(statsHourKey), hourKey)
      ensures flushedBkts[..] == Rotated(old(flushedBkts[..]), old(statsHourKey), hourKey)
      ensures errorsBkts[..] == Rotated(old(errorsBkts[..]), old(statsHourKey), hourKey)
    {
      hide SlotSum;
      ghost var flushed, errors, key := flushedBkts[..], errorsBkts[..], statsHourKey;
      RotationAgrees(flushed, key, flushedLog, hourKey);
      RotationAgrees(errors, key, errorsLog, hourKey);
      if statsHourKey == 0 {
        statsHourKey := hourKey;
        return;
      }
      var delta := hourKey - statsHourKey;
      if delta <= 0 { return; }
      if delta >= HOURS {
        ClearAll(flushedBkts);
        ClearAll(errorsBkts);
        statsHourKey := hourKey;
        return;
      }
      var i := 1;
      while i <= delta
        invariant 1 <= i <= delta + 1 && statsHourKey == key
        invariant flushedBkts[..] == Cleared(flushed, key, i - 1)
        invariant errorsBkts[..] == Cleared(errors, key, i - 1)
      {
        var idx := (statsHourKey + i) % HOURS;
        ghost var f, e := flushedBkts[..], errorsBkts[..];
        flushedBkts[idx] := 0;
        errorsBkts[idx] := 0;
        assert flushedBkts[..] == f[idx := 0] && errorsBkts[..] == e[idx := 0];
        assert Cleared(flushed, key, i) == f[idx := 0] && Cleared(errors, key, i) == e[idx := 0];
        i := i + 1;
      }
      statsHourKey := hourKey;
    }

    static method ClearAll(slots: array<int>)
      requires slots.Length == HOURS
      modifies slots
      ensures slots[..] == seq(HOURS, _ => 0)
    {
      for i := 0 to HOURS
        invariant forall j :: 0 <= j < i ==> slots[j] == 0
      {
        slots[i] := 0;
      }
    }

    /** `hourKey` is the hour the clock shows while the lock is held. Counters and log stay in
        agreement exactly when that clock is less than 24 hours behind the latest hour seen. */
    method BumpFlushed(n: int, hourKey: int)
      requires Valid() && hourKey >= 1
      modifies this`statsHourKey, this`flushedLog, flushedBkts, errorsBkts
      ensures Valid() <==> n <= 0 || old(statsHourKey) == 0 || hourKey > old(statsHourKey) - HOURS
      ensures flushedBkts[..] == if n > 0 then Bumped(old(flushedBkts[..]), old(statsHourKey), hourKey, n)
              else old(flushedBkts[..])
      ensures errorsBkts[..] == if n > 0 then Rotated(old(errorsBkts[..]), old(statsHourKey), hourKey)
              else old(errorsBkts[..])
      ensures flushedLog == if n > 0 then old(flushedLog) + [Event(hourKey, n)] else old(flushedLog)
      ensures statsHourKey == if n > 0 then LaterKey(old(statsHourKey), hourKey) else old(statsHourKey)
    {
      if n <= 0 { return; }
      BumpAgrees(flushedBkts[..], statsHourKey, flushedLog, hourKey, n);
      RotateBuckets(hourKey);
      flushedBkts[hourKey % HOURS] := flushedBkts[hourKey % HOURS] + n;
      flushedLog := flushedLog + [Event(hourKey, n)];
    }

    method BumpErrors(n: int, hourKey: int)
      requires Valid() && hourKey >= 1
      modifies this`statsHourKey, this`errorsLog, flushedBkts, errorsBkts
      ensures Valid() <==> n <= 0 || old(statsHourKey) == 0 || hourKey > old(statsHourKey) - HOURS
      ensures errorsBkts[..] == if n > 0 then Bumped(old(errorsBkts[..]), old(statsHourKey), hourKey, n)
              else old(errorsBkts[..])
      ensures flushedBkts[..] == if n > 0 then Rotated(old(flushedBkts[..]), old(statsHourKey), hourKey)
              else old(flushedBkts[..])
      ensures errorsLog == if n > 0 then old(errorsLog) + [Event(hourKey, n)] else old(errorsLog)
      ensures statsHourKey == if n > 0 then LaterKey(old(statsHourKey), hourKey) else old(statsHourKey)
    {
      if n <= 0 { return; }
      BumpAgrees(errorsBkts[..], statsHourKey, errorsLog, hourKey, n);
      RotateBuckets(hourKey);
      errorsBkts[hourKey % HOURS] := errorsBkts[hourKey % HOURS] + n;
      errorsLog := errorsLog + [Event(hourKey, n)];
    }

    /** The sums of all slots are the exact sums of the last 24 hours of the log. */
    method Stats(hourKey: int) returns (flushed24h: int, errors24h: int)
      requires Valid() && hourKey >= 1
      modifies this`statsHourKey, flushedBkts, errorsBkts
      ensures Valid() && statsHourKey == LaterKey(old(statsHourKey), hourKey)
      ensures flushed24h == WindowSum(flushedLog, statsHourKey)
      ensures errors24h == WindowSum(errorsLog, statsHourKey)
      ensures hourKey >= old(statsHourKey) ==>
                flushed24h == WindowSum(flushedLog, hourKey) && errors24h == WindowSum(errorsLog, hourKey)
    {
      RotateBuckets(hourKey);
      flushed24h, errors24h := 0, 0;
      for i := 0 to HOURS
        invariant flushed24h == Total(flushedBkts[..i]) && errors24h == Total(errorsBkts[..i])
      {
        assert flushedBkts[..i + 1][..i] == flushedBkts[..i] && errorsBkts[..i + 1][..i] == errorsBkts[..i];
        flushed24h := flushed24h + flushedBkts[i];
        errors24h := errors24h + errorsBkts[i];
      }
      assert flushedBkts[..HOURS] == flushedBkts[..] && errorsBkts[..HOURS] == errorsBkts[..];
      AgreementTotal(flushedBkts[..], statsHourKey, flushedLog);
      AgreementTotal(errorsBkts[..], statsHourKey, errorsLog);
    }
  }
}
