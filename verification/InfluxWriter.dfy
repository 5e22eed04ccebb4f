/** The writer as an object: its code run without interruption is a run of the protocol, so
    everything proved of runs holds of its fields. Also: when lowering the buffer size at run
    time loses a wake-up. */
module InfluxWriters {
  import opened Outcomes
  import opened InfluxProtocol

  // ---------- events of one call ----------

  function EnqueueEvents(i: nat, point: Point): seq<Event> {
    [Begin(i, point), ReadSize(i), Lock(i), Count(i), Append(i), Signal(i)]
  }

  function FlushEvents(empty: bool, ok: bool): seq<Event> {
    if empty then [ReadConfig, Take] else [ReadConfig, Take, Subtract, Check, Finish(ok)]
  }

  lemma {:induction false} RunConcat(s: State, first: seq<Event>, second: seq<Event>)
    ensures Run(s, first + second) == if Run(s, first).None? then None else Run(Run(s, first).value, second)
    decreases |first|
  {
    hide Next;
    if first == [] {
      assert first + second == second;
    } else if Next(s, first[0]).Some? {
      assert (first + second)[1..] == first[1..] + second;
      RunConcat(Next(s, first[0]).value, first[1..], second);
    }
  }

  lemma RunTwo(s: State, a: Event, b: Event, s1: State, s2: State)
    requires Next(s, a) == Some(s1) && Next(s1, b) == Some(s2)
    ensures Run(s, [a, b]) == Some(s2)
  {
    hide Next;
    assert Run(s1, [b]) == Run(s2, []);
    assert [a, b][1..] == [b];
  }

  lemma RunThree(s: State, a: Event, b: Event, c: Event, s1: State, s2: State, s3: State)
    requires Next(s, a) == Some(s1) && Next(s1, b) == Some(s2) && Next(s2, c) == Some(s3)
    ensures Run(s, [a, b, c]) == Some(s3)
  {
    hide Next;
    RunTwo(s1, b, c, s2, s3);
    assert [a, b, c][1..] == [b, c];
  }

  // ---------- the effect of one uninterrupted call ----------

  function Enqueued(s: State, point: Point): State {
    var size := EffectiveSize(s.size);
    var appended := AppendPoint(MakeRoom(s, size), point, size);
    appended.(token := s.token || |appended.buffer| >= size)
  }

  lemma SoloEntry(s: State, i: nat, point: Point)
    requires i < |s.enqueuers| && s.enqueuers[i].Idle? && MutexFree(s)
    ensures Run(s, [Begin(i, point), ReadSize(i), Lock(i)]) == Some(Become(s, i, Locked(point, EffectiveSize(s.size))))
  {
    hide Run;
    var size := EffectiveSize(s.size);
    var s1, s2, s3 := Become(s, i, Started(point)), Become(s, i, Sized(point, size)), Become(s, i, Locked(point, size));
    assert Become(s1, i, Sized(point, size)) == s2;
    assert Become(s2, i, Locked(point, size)) == s3;
    assert MutexFree(s2);
    RunThree(s, Begin(i, point), ReadSize(i), Lock(i), s1, s2, s3);
  }

  lemma SoloSection(s: State, i: nat, point: Point, size: nat)
    requires i < |s.enqueuers| && s.enqueuers[i] == Locked(point, size)
    ensures var appended := AppendPoint(MakeRoom(s, size), point, size);
            Run(s, [Count(i), Append(i)]) == Some(Become(appended, i, Appended(|appended.buffer| >= size)))
  {
    hide Run, Next, MakeRoom, AppendPoint, Become;
    SoloCount(s, i, point, size);
    SoloAppend(MakeRoom(s, size), i, point, size);
    var s1 := Next(s, Count(i)).value;
    RunTwo(s, Count(i), Append(i), s1, Next(s1, Append(i)).value);
  }

  lemma SoloCount(s: State, i: nat, point: Point, size: nat)
    requires i < |s.enqueuers| && s.enqueuers[i] == Locked(point, size)
    ensures Next(s, Count(i)) == Some(Become(MakeRoom(s, size), i, Counted(point, size)))
    ensures |MakeRoom(s, size).enqueuers| == |s.enqueuers|
  {
  }

  lemma SoloAppend(s: State, i: nat, point: Point, size: nat)
    requires i < |s.enqueuers|
    ensures var appended := AppendPoint(s, point, size);
            Next(Become(s, i, Counted(point, size)), Append(i))
                == Some(Become(appended, i, Appended(|appended.buffer| >= size)))
  {
    assert s.enqueuers[i := Counted(point, size)][i := Appended(|s.buffer| + 1 >= size)]
        == s.enqueuers[i := Appended(|s.buffer| + 1 >= size)];
  }

  lemma SoloSignal(s: State, i: nat)
    requires i < |s.enqueuers| && s.enqueuers[i].Appended?
    ensures Run(s, [Signal(i)]) == Some(Become(s, i, Idle).(token := s.token || s.enqueuers[i].full))
  {
    assert Run(s, [Signal(i)]) == Run(Next(s, Signal(i)).value, []);
  }

  lemma SoloEnqueue(s: State, i: nat, point: Point)
    requires i < |s.enqueuers| && s.enqueuers[i].Idle? && MutexFree(s)
    ensures Run(s, EnqueueEvents(i, point)) == Some(Enqueued(s, point))
  {
    hide Next, Run, MutexFree;
    var size := EffectiveSize(s.size);
    var entered := Become(s, i, Locked(point, size));
    SoloEntry(s, i, point);
    SoloSection(entered, i, point, size);
    RunConcat(s, [Begin(i, point), ReadSize(i), Lock(i)], [Count(i), Append(i)]);
    var left := Run(entered, [Count(i), Append(i)]).value;
    SoloSignal(left, i);
    RunConcat(s, [Begin(i, point), ReadSize(i), Lock(i)] + [Count(i), Append(i)], [Signal(i)]);
    assert EnqueueEvents(i, point) == [Begin(i, point), ReadSize(i), Lock(i)] + [Count(i), Append(i)] + [Signal(i)];
    assert left.enqueuers[i := Idle] == s.enqueuers;
  }

  /** The flush of a nonempty buffer; the counter needs no clamp. */
  function FlushedBatch(s: State, ok: bool): State
    requires s.flusher.Woken?
  {
    var n, success := |s.buffer|, ok && s.connected;
    s.(buffer := [], buffered := s.buffered - n,
       flusher := if s.flusher.last then Stopped else Waiting,
       flushed := s.flushed + if success then n else 0,
       errored := s.errored + if success then 0 else n,
       history := s.history.(fates := s.history.fates + Repeat(n, if success then Flushed else Errored),
                             sent := s.history.sent + s.buffer, flightFrom := |s.history.fates|))
  }

  lemma SoloFlushEmpty(s: State)
    requires s.flusher.Woken? && MutexFree(s) && s.buffer == []
    ensures Run(s, [ReadConfig, Take]) == Some(s.(flusher := if s.flusher.last then Stopped else Waiting))
  {
    var s1 := s.(flusher := Configured(s.flusher.last, s.connected));
    RunTwo(s, ReadConfig, Take, s1, Next(s1, Take).value);
  }

  lemma SoloTake(s: State)
    requires s.flusher.Woken? && MutexFree(s) && s.buffer != []
    ensures Run(s, [ReadConfig, Take]) == Some(TakeBatch(s, s.flusher.last, s.connected))
  {
    var s1 := s.(flusher := Configured(s.flusher.last, s.connected));
    RunTwo(s, ReadConfig, Take, s1, Next(s1, Take).value);
  }

  lemma SoloWrite(s: State, ok: bool)
    requires s.flusher.Taken? && s.buffered >= |s.flusher.batch|
    requires s.history.flightFrom + |s.flusher.batch| <= |s.history.fates|
    ensures Run(s, [Subtract, Check, Finish(ok)])
            == Some(FinishBatch(s.(buffered := s.buffered - |s.flusher.batch|), s.flusher.batch, s.flusher.last,
                                ok && s.flusher.connected))
  {
    WriteSteps(s, ok);
    hide Next, FinishBatch, Run;
    var s1 := Next(s, Subtract).value;
    var s2 := Next(s1, Check).value;
    RunThree(s, Subtract, Check, Finish(ok), s1, s2, Next(s2, Finish(ok)).value);
  }

  lemma WriteSteps(s: State, ok: bool)
    requires s.flusher.Taken? && s.buffered >= |s.flusher.batch|
    requires s.history.flightFrom + |s.flusher.batch| <= |s.history.fates|
    ensures var s1 := Next(s, Subtract);
            && s1.Some? && Next(s1.value, Check).Some?
            && Next(Next(s1.value, Check).value, Finish(ok))
               == Some(FinishBatch(s.(buffered := s.buffered - |s.flusher.batch|), s.flusher.batch, s.flusher.last,
                                   ok && s.flusher.connected))
  {
    hide Settle;
  }

  lemma SoloFlush(s: State, ok: bool)
    requires s.flusher.Woken? && MutexFree(s) && s.buffer != [] && s.buffered >= |s.buffer|
    ensures Run(s, FlushEvents(false, ok)) == Some(FlushedBatch(s, ok))
  {
    hide Next, Run, MutexFree;
    var h, n := s.history, |s.buffer|;
    SoloTake(s);
    var taken := TakeBatch(s, s.flusher.last, s.connected);
    SoloWrite(taken, ok);
    RunConcat(s, [ReadConfig, Take], [Subtract, Check, Finish(ok)]);
    assert FlushEvents(false, ok) == [ReadConfig, Take] + [Subtract, Check, Finish(ok)];
    var fate := if ok && s.connected then Flushed else Errored;
    assert Settle(h.fates + Repeat(n, InFlight), |h.fates|, n, fate) == h.fates + Repeat(n, fate);
  }

  // ---------- the same, by the configured number ----------

  /** A buffer with room for `n` points: full at `n`, where the oldest point goes. */
  ghost predicate EnqueuedInto(before: State, after: State, point: Point, n: nat)
    requires n > 0
  {
    && after.buffer == (if |before.buffer| >= n then before.buffer[1..] else before.buffer) + [point]
    && after.buffered == before.buffered + (if |before.buffer| >= n then 0 else 1)
    && after.token == (before.token || |after.buffer| >= n)
    && after.size == before.size && after.flushed == before.flushed && after.errored == before.errored
    && after.connected == before.connected && after.flusher == before.flusher && after.enqueuers == before.enqueuers
  }

  /** An uninterrupted enqueue goes by the configured size, or by 1000 if that is not positive: it
      drops the oldest point exactly if so many are buffered, and sends a wake-up exactly if so many
      are buffered afterwards. */
  lemma EnqueueBySize(s: State, i: nat, point: Point)
    requires i < |s.enqueuers| && s.enqueuers[i].Idle? && MutexFree(s)
    ensures var after := Run(s, EnqueueEvents(i, point));
            && after.Some?
            && (s.size > 0 ==> EnqueuedInto(s, after.value, point, s.size))
            && (s.size <= 0 ==> EnqueuedInto(s, after.value, point, 1000))
  {
    hide Run, EnqueueEvents, MutexFree;
    SoloEnqueue(s, i, point);
  }

  /** The whole buffer is written if the writer is connected and the write succeeds, else failed. */
  ghost predicate FlushedAll(before: State, after: State, ok: bool) {
    var written := if before.connected && ok then |before.buffer| else 0;
    && after.buffer == [] && after.buffered == before.buffered - |before.buffer|
    && after.flushed == before.flushed + written && after.errored == before.errored + |before.buffer| - written
    && after.token == before.token && after.size == before.size && after.connected == before.connected
    && after.history.sent == before.history.sent + before.buffer
    && (before.flusher.Woken? ==> after.flusher == if before.flusher.last then Stopped else Waiting)
  }

  lemma FlushTakesAll(s: State, ok: bool)
    requires s.flusher.Woken? && MutexFree(s) && s.buffered >= |s.buffer|
    ensures var after := Run(s, FlushEvents(s.buffer == [], ok)); after.Some? && FlushedAll(s, after.value, ok)
  {
    hide Run, MutexFree;
    if s.buffer == [] { SoloFlushEmpty(s); } else { SoloFlush(s, ok); }
    assert s.buffer == [] ==> s.history.sent + s.buffer == s.history.sent;
  }

  /** The size of the last reconfiguration, else the one the writer was made with. */
  function LastSize(size: int, events: seq<Event>): int {
    if events == [] then size
    else if events[|events| - 1].Reconfigure? then events[|events| - 1].size
    else LastSize(size, events[..|events| - 1])
  }

  lemma {:induction false} SizeIsLast(goroutines: nat, size: int, events: seq<Event>)
    requires Run(Init(goroutines, size), events).Some?
    ensures Run(Init(goroutines, size), events).value.size == LastSize(size, events)
    decreases |events|
  {
    if events != [] {
      var most, e := events[..|events| - 1], events[|events| - 1];
      RunConcat(Init(goroutines, size), most, [e]);
      assert most + [e] == events;
      var s := Run(Init(goroutines, size), most).value;
      SizeIsLast(goroutines, size, most);
      assert [e][1..] == [];
      SizeStep(s, e);
      hide Next;
    }
  }

  lemma SizeStep(s: State, e: Event)
    requires Next(s, e).Some?
    ensures Next(s, e).value.size == if e.Reconfigure? then e.size else s.size
  {
  }

  /** No lost wake-up, by the configured number: with reconfigurations that never lower the size, the
      buffer holds at most as many points as the size last configured, or 1000 if that is not positive,
      and at that number somebody is on the way to flush it. */
  lemma CappedBySize(goroutines: nat, size: int, events: seq<Event>)
    requires Run(Init(goroutines, size), events).Some? && NeverLowers(size, events)
    ensures var s, n := Run(Init(goroutines, size), events).value, LastSize(size, events);
            && (n > 0 ==> |s.buffer| <= n && (|s.buffer| == n ==> Pending(s)))
            && (n <= 0 ==> |s.buffer| <= 1000 && (|s.buffer| == 1000 ==> Pending(s)))
  {
    hide Run, Pending, NeverLowers, LastSize;
    NoLostWakeUp(goroutines, size, events);
    SizeIsLast(goroutines, size, events);
  }

  /** What never lowering means for two sizes. */
  lemma LowersIff(size: int, next: int, connected: bool)
    ensures NeverLowers(size, [Reconfigure(next, connected)])
            <==> (if size > 0 then size else 1000) <= (if next > 0 then next else 1000)
  {
    assert [Reconfigure(next, connected)][1..] == [];
  }

  lemma BufferIsCounted(start: State, log: seq<Event>)
    requires Inv(start) && Run(start, log).Some?
    ensures var s := Run(start, log).value; s.flusher.Woken? && MutexFree(s) ==> s.buffered == |s.buffer|
  {
    RunKeepsInv(start, log);
  }

  // ---------- the object ----------

  class InfluxWriter {
    var bufferSize: int
    var connected: bool
    var buffer: seq<Point>
    var buffered: int
    var token: bool
    var flushed: int
    var errors: int
    ghost const start: State
    ghost var log: seq<Event>

    ghost function Now(): State
      reads this
      requires Run(start, log).Some?
    {
      Run(start, log).value
    }

    ghost predicate Valid()
      reads this
    {
      && Inv(start) && Run(start, log).Some?
      && bufferSize == Now().size && connected == Now().connected
      && buffer == Now().buffer && buffered == Now().buffered && token == Now().token
      && flushed == Now().flushed && errors == Now().errored
    }

    constructor (goroutines: nat, size: int)
      ensures Valid() && start == Init(goroutines, EffectiveSize(size)) && log == []
      ensures bufferSize == (if size > 0 then size else 1000) && buffer == [] && !token
    {
      bufferSize, connected := EffectiveSize(size), true;
      buffer, buffered, token, flushed, errors := [], 0, false, 0, 0;
      start, log := Init(goroutines, EffectiveSize(size)), [];
      new;
      InitInv(goroutines, EffectiveSize(size));
    }

    /** The log grows by events that are possible now. */
    ghost method Record(events: seq<Event>)
      requires Inv(start) && Run(start, log).Some? && Run(Now(), events).Some?
      modifies this`log
      ensures log == old(log) + events && Run(start, log) == Run(old(Now()), events)
    {
      RunConcat(start, log, events);
      log := log + events;
    }

    /** `goroutine` enqueues a point, nobody interrupting it. */
    method Enqueue(ghost goroutine: nat, point: Point)
      requires Valid() && goroutine < |Now().enqueuers| && Now().enqueuers[goroutine].Idle? && MutexFree(Now())
      modifies this
      ensures Valid() && log == old(log) + EnqueueEvents(goroutine, point)
      ensures var n := if bufferSize > 0 then bufferSize else 1000;
              && buffer == (if old(|buffer|) >= n then old(buffer)[1..] else old(buffer)) + [point]
              && buffered == old(buffered) + (if old(|buffer|) >= n then 0 else 1)
              && token == (old(token) || |buffer| >= n)
      ensures bufferSize == old(bufferSize) && flushed == old(flushed) && errors == old(errors)
    {
      hide Inv, Next, Run, MutexFree, EnqueueEvents;
      SoloEnqueue(Now(), goroutine, point);
      var bufSize := bufferSize;
      if bufSize <= 0 { bufSize := DEFAULT_SIZE; }
      if |buffer| >= bufSize {
        buffer := buffer[1..];
      } else {
        buffered := buffered + 1;
      }
      buffer := buffer + [point];
      var full := |buffer| >= bufSize;
      if full { token := true; }
      Record(EnqueueEvents(goroutine, point));
    }

    /** One flush by the woken loop, nobody interrupting it. `ok` is the outcome of the write
        that a connected client attempts. */
    method Flush(ok: bool)
      requires Valid() && Now().flusher.Woken? && MutexFree(Now())
      modifies this
      ensures Valid() && log == old(log) + FlushEvents(old(buffer) == [], ok)
      ensures buffer == [] && buffered == 0 && token == old(token) && bufferSize == old(bufferSize)
      ensures flushed == old(flushed) + (if connected && ok then old(|buffer|) else 0)
      ensures errors == old(errors) + (if connected && ok then 0 else old(|buffer|))
    {
      hide Next, Run, Inv, MutexFree;
      BufferIsCounted(start, log);
      var client := connected;
      if |buffer| == 0 {
        SoloFlushEmpty(Now());
        Record(FlushEvents(true, ok));
        return;
      }
      SoloFlush(Now(), ok);
      var batch := buffer;
      buffer := [];
      buffered := buffered - |batch|;
      buffered := if buffered < 0 then 0 else buffered;
      if client && ok {
        flushed := flushed + |batch|;
      } else {
        errors := errors + |batch|;
      }
      Record(FlushEvents(false, ok));
    }

    /** The buffered counter is what the buffer holds whenever no call is under way. */
    lemma Rest()
      requires Valid() && MutexFree(Now()) && !Now().flusher.Taken?
      ensures buffered == |buffer| && |Now().history.enqueued| ==
                CountOf(Now().history.fates, Dropped) + |buffer| + flushed + errors
                + if HasBatch(Now().flusher) then |Now().flusher.batch| else 0
    {
      RunKeepsInv(start, log);
      CountsAddUp(Now().history.fates);
    }
  }

  // ---------- changing the buffer size at run time ----------

  predicate Quiet(events: seq<Event>) {
    forall k :: 0 <= k < |events| ==> !events[k].Reconfigure?
  }

  function FillEvents(count: nat): seq<Event> {
    if count == 0 then [] else FillEvents(count - 1) + EnqueueEvents(0, 0)
  }

  /** A buffer of `count` points, fewer than the size, that nobody has been told about. */
  ghost predicate SilentlyFilled(s: State, size: int, count: nat) {
    && s.size == size && |s.buffer| == count && !s.token
    && s.enqueuers == [Idle] && s.flusher == Waiting
  }

  lemma QuietEnqueue()
    ensures Quiet(EnqueueEvents(0, 0))
  {
  }

  lemma StartsSilent(size: int)
    ensures Run(Init(1, size), []) == Some(Init(1, size)) && SilentlyFilled(Init(1, size), size, 0)
  {
    assert Init(1, size).enqueuers == [Idle];
  }

  lemma {:induction false} Fill(size: int, count: nat)
    requires count < EffectiveSize(size)
    ensures Quiet(FillEvents(count)) && Run(Init(1, size), FillEvents(count)).Some?
    ensures SilentlyFilled(Run(Init(1, size), FillEvents(count)).value, size, count)
  {
    hide Run, EnqueueEvents;
    if count > 0 {
      Fill(size, count - 1);
      var mid := Run(Init(1, size), FillEvents(count - 1)).value;
      RunConcat(Init(1, size), FillEvents(count - 1), EnqueueEvents(0, 0));
      SoloEnqueue(mid, 0, 0);
      QuietEnqueue();
    } else {
      StartsSilent(size);
    }
  }

  /** A full buffer has somebody on the way to flush it. */
  ghost predicate WakesWhenFull(s: State) {
    |s.buffer| >= EffectiveSize(s.size) ==> Pending(s)
  }

  /** Every moment at which a writer of size `from` can be reconfigured to size `to` leaves the
      wake-up property intact. */
  ghost predicate SafeResize(from: int, to: int) {
    forall goroutines: nat, events: seq<Event>, connected: bool ::
      Quiet(events) && Run(Init(goroutines, from), events).Some? ==>
        WakesWhenFull(Next(Run(Init(goroutines, from), events).value, Reconfigure(to, connected)).value)
  }

  lemma {:induction false} QuietKeepsSize(s: State, events: seq<Event>)
    requires Quiet(events) && Run(s, events).Some?
    ensures NeverLowers(s.size, events) && Run(s, events).value.size == s.size
    decreases |events|
  {
    if events != [] {
      QuietStepKeepsSize(s, events[0]);
      hide Next;
      QuietKeepsSize(Next(s, events[0]).value, events[1..]);
    }
  }

  lemma QuietStepKeepsSize(s: State, e: Event)
    requires !e.Reconfigure? && Next(s, e).Some?
    ensures Next(s, e).value.size == s.size
  {
  }

  lemma RaisingIsSafe(goroutines: nat, from: int, to: int, events: seq<Event>, connected: bool)
    requires EffectiveSize(from) <= EffectiveSize(to) && Quiet(events) && Run(Init(goroutines, from), events).Some?
    ensures WakesWhenFull(Next(Run(Init(goroutines, from), events).value, Reconfigure(to, connected)).value)
  {
    hide Pending;
    var s := Run(Init(goroutines, from), events).value;
    InitInv(goroutines, from);
    QuietKeepsSize(Init(goroutines, from), events);
    RunKeepsInv(Init(goroutines, from), events);
    RunWithinSize(Init(goroutines, from), events);
    StepKeepsInv(s, Reconfigure(to, connected));
    StepWithinSize(s, Reconfigure(to, connected));
  }

  /** Reconfiguring a running writer is safe for the wake-up property exactly when it does not
      lower the effective buffer size. */
  lemma ResizeSafeIffNotLowered(from: int, to: int)
    ensures SafeResize(from, to) <==> EffectiveSize(from) <= EffectiveSize(to)
  {
    hide Pending, Run;
    if EffectiveSize(from) <= EffectiveSize(to) {
      forall goroutines: nat, events: seq<Event>, connected: bool
        | Quiet(events) && Run(Init(goroutines, from), events).Some?
        ensures WakesWhenFull(Next(Run(Init(goroutines, from), events).value, Reconfigure(to, connected)).value)
      {
        RaisingIsSafe(goroutines, from, to, events, connected);
      }
    } else {
      var count := EffectiveSize(to);
      Fill(from, count);
      SilentAfterLowering(Run(Init(1, from), FillEvents(count)).value, from, to);
    }
  }

  lemma SilentAfterLowering(s: State, from: int, to: int)
    requires SilentlyFilled(s, from, EffectiveSize(to))
    ensures !WakesWhenFull(Next(s, Reconfigure(to, true)).value)
  {
  }

  /** A new writer has its client, an empty buffer, counters at zero, and a flush loop that waits. */
  lemma StartsEmpty(goroutines: nat, size: int)
    ensures var s := Init(goroutines, size);
            && s.size == size && s.connected && !s.stopping && s.buffer == [] && s.buffered == 0 && !s.token
            && s.flushed == s.errored == 0 && s.flusher.Waiting?
            && |s.enqueuers| == goroutines && (forall i :: 0 <= i < goroutines ==> s.enqueuers[i].Idle?)
            && s.history.enqueued == [] && s.history.fates == [] && s.history.sent == []
  {
  }

  /** The waiting loop is woken by the tick, by a token, which is used up, and after `Close` for its
      last flush; a counter found below zero is set to zero. */
  lemma WakesAre(s: State)
    ensures Next(s, WakeTick) == if s.flusher.Waiting? then Some(s.(flusher := Woken(false))) else None
    ensures Next(s, WakeToken)
            == if s.flusher.Waiting? && s.token then Some(s.(flusher := Woken(false), token := false)) else None
    ensures Next(s, WakeStop) == if s.flusher.Waiting? && s.stopping then Some(s.(flusher := Woken(true))) else None
    ensures Next(s, Close) == Some(s.(stopping := true))
    ensures if s.flusher.Clamping? then Next(s, Clamp).Some? && Next(s, Clamp).value.buffered == 0
            else Next(s, Clamp).None?
  {
  }
}
