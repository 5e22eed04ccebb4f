/** The InfluxDB writer as a protocol: any number of goroutines enqueue points while one
    flush loop takes and writes them. Each event is one atomic action of one goroutine. */
module InfluxProtocol {
  import opened Outcomes

  type Point = nat

  const DEFAULT_SIZE := 1000

  /** Where a goroutine stands inside `enqueue`; `Locked` and `Counted` hold the mutex. */
  datatype Enqueuer =
    | Idle
    | Started(point: Point)
    | Sized(point: Point, size: nat)
    | Locked(point: Point, size: nat)
    | Counted(point: Point, size: nat)
    | Appended(full: bool)

  /** Where the flush loop stands; `last` says that it returns after this flush. */
  datatype Flusher =
    | Waiting
    | Woken(last: bool)
    | Configured(last: bool, connected: bool)
    | Taken(batch: seq<Point>, last: bool, connected: bool)
    | Subtracted(batch: seq<Point>, last: bool, connected: bool)
    | Clamping(batch: seq<Point>, last: bool, connected: bool)
    | Writing(batch: seq<Point>, last: bool, connected: bool)
    | Stopped

  datatype Fate = Dropped | InFlight | Flushed | Errored

  /** What happened so far: all points in the order they were appended, the fates of those that
      left the buffer, in the same order, and the points handed over for writing, batch by batch. */
  datatype History = History(enqueued: seq<Point>, fates: seq<Fate>, sent: seq<Point>, flightFrom: nat,
                             appendedSize: nat)

  datatype State = State(
    size: int, connected: bool, stopping: bool,
    buffer: seq<Point>, buffered: int, token: bool, flushed: int, errored: int,
    enqueuers: seq<Enqueuer>, flusher: Flusher, history: History)

  datatype Event =
    | Begin(i: nat, point: Point)
    | ReadSize(i: nat)
    | Lock(i: nat)
    | Count(i: nat)
    | Append(i: nat)
    | Signal(i: nat)
    | WakeTick
    | WakeToken
    | WakeStop
    | ReadConfig
    | Take
    | Subtract
    | Check
    | Clamp
    | Finish(ok: bool)
    | Reconfigure(size: int, connected: bool)
    | Close

  /** A size that is not positive stands for the default. */
  function EffectiveSize(size: int): nat {
    if size <= 0 then DEFAULT_SIZE else size
  }

  function Init(goroutines: nat, size: int): State {
    State(size, true, false, [], 0, false, 0, 0, seq(goroutines, _ => Idle), Waiting, History([], [], [], 0, 1))
  }

  predicate HoldsMutex(e: Enqueuer) {
    e.Locked? || e.Counted?
  }

  predicate MutexFree(s: State) {
    forall i :: 0 <= i < |s.enqueuers| ==> !HoldsMutex(s.enqueuers[i])
  }

  function Become(s: State, i: nat, e: Enqueuer): State
    requires i < |s.enqueuers|
  {
    s.(enqueuers := s.enqueuers[i := e])
  }

  function Repeat(count: nat, fate: Fate): (r: seq<Fate>)
    ensures |r| == count && forall i :: 0 <= i < count ==> r[i] == fate
  {
    seq(count, _ => fate)
  }

  // ---------- the critical sections ----------

  /** The first half of the critical section of `enqueue`: room is made or counted. */
  function MakeRoom(s: State, size: nat): State {
    if |s.buffer| >= size && s.buffer != [] then
      s.(buffer := s.buffer[1..], history := s.history.(fates := s.history.fates + [Dropped]))
    else s.(buffered := s.buffered + 1)
  }

  function AppendPoint(s: State, point: Point, size: nat): State {
    s.(buffer := s.buffer + [point],
       history := s.history.(enqueued := s.history.enqueued + [point], appendedSize := size))
  }

  function TakeBatch(s: State, last: bool, connected: bool): State {
    if s.buffer == [] then s.(flusher := if last then Stopped else Waiting)
    else
      s.(flusher := Taken(s.buffer, last, connected), buffer := [],
         history := s.history.(fates := s.history.fates + Repeat(|s.buffer|, InFlight),
                                       sent := s.history.sent + s.buffer, flightFrom := |s.history.fates|))
  }

  /** The fates of a batch once it is written, or not. */
  function Settle(fates: seq<Fate>, from: nat, count: nat, fate: Fate): seq<Fate>
    requires from + count <= |fates|
  {
    fates[..from] + Repeat(count, fate) + fates[from + count..]
  }

  function FinishBatch(s: State, batch: seq<Point>, last: bool, success: bool): State
    requires s.history.flightFrom + |batch| <= |s.history.fates|
  {
    s.(flusher := if last then Stopped else Waiting,
       flushed := s.flushed + if success then |batch| else 0,
       errored := s.errored + if success then 0 else |batch|,
       history := s.history.(fates := Settle(s.history.fates, s.history.flightFrom, |batch|,
                                             if success then Flushed else Errored)))
  }

  // ---------- steps and runs ----------

  /** The state after an event, when the event is possible. */
  function Next(s: State, e: Event): Option<State> {
    match e
    case Begin(i, point) =>
      if i < |s.enqueuers| && s.enqueuers[i].Idle? then Some(Become(s, i, Started(point))) else None
    case ReadSize(i) =>
      if i < |s.enqueuers| && s.enqueuers[i].Started?
          then Some(Become(s, i, Sized(s.enqueuers[i].point, EffectiveSize(s.size)))) else None
    case Lock(i) =>
      if i < |s.enqueuers| && s.enqueuers[i].Sized? && MutexFree(s)
      then Some(Become(s, i, Locked(s.enqueuers[i].point, s.enqueuers[i].size))) else None
    case Count(i) =>
      if i < |s.enqueuers| && s.enqueuers[i].Locked?
      then Some(Become(MakeRoom(s, s.enqueuers[i].size), i,
                       Counted(s.enqueuers[i].point, s.enqueuers[i].size))) else None
    case Append(i) =>
      if i < |s.enqueuers| && s.enqueuers[i].Counted?
      then
        var size := s.enqueuers[i].size;
        var appended := AppendPoint(s, s.enqueuers[i].point, size);
        Some(Become(appended, i, Appended(|appended.buffer| >= size)))
      else None
    case Signal(i) =>
      if i < |s.enqueuers| && s.enqueuers[i].Appended?
      then Some(Become(s, i, Idle).(token := s.token || s.enqueuers[i].full)) else None
    case WakeTick => if s.flusher.Waiting? then Some(s.(flusher := Woken(false))) else None
    case WakeToken => if s.flusher.Waiting? && s.token then Some(s.(flusher := Woken(false), token := false)) else None
    case WakeStop => if s.flusher.Waiting? && s.stopping then Some(s.(flusher := Woken(true))) else None
    case ReadConfig => if s.flusher.Woken? then Some(s.(flusher := Configured(s.flusher.last, s.connected))) else None
    case Take =>
      if s.flusher.Configured? && MutexFree(s) then Some(TakeBatch(s, s.flusher.last, s.flusher.connected)) else None
    case Subtract =>
      if s.flusher.Taken?
      then Some(s.(buffered := s.buffered - |s.flusher.batch|,
                   flusher := Subtracted(s.flusher.batch, s.flusher.last, s.flusher.connected)))
      else None
    case Check =>
      if s.flusher.Subtracted?
      then Some(s.(flusher := if s.buffered < 0 then Clamping(s.flusher.batch, s.flusher.last, s.flusher.connected)
                              else Writing(s.flusher.batch, s.flusher.last, s.flusher.connected)))
      else None
    case Clamp =>
      if s.flusher.Clamping?
      then Some(s.(buffered := 0, flusher := Writing(s.flusher.batch, s.flusher.last, s.flusher.connected))) else None
    case Finish(ok) =>
      if s.flusher.Writing? && s.history.flightFrom + |s.flusher.batch| <= |s.history.fates|
      then Some(FinishBatch(s, s.flusher.batch, s.flusher.last, ok && s.flusher.connected)) else None
    case Reconfigure(size, connected) => Some(s.(size := size, connected := connected))
    case Close => Some(s.(stopping := true))
  }

  function Run(s: State, events: seq<Event>): Option<State>
    decreases |events|
  {
    if events == [] then Some(s)
    else match Next(s, events[0]) case None => None case Some(next) => Run(next, events[1..])
  }

  // ---------- counting fates ----------

  function CountOf(fates: seq<Fate>, fate: Fate): nat {
    if fates == [] then 0 else CountOf(fates[..|fates| - 1], fate) + if fates[|fates| - 1] == fate then 1 else 0
  }

  lemma {:induction false} CountConcat(a: seq<Fate>, b: seq<Fate>, fate: Fate)
    ensures CountOf(a + b, fate) == CountOf(a, fate) + CountOf(b, fate)
    decreases |b|
  {
    if b == [] {
      assert a + b == a;
    } else {
      assert (a + b)[..|a + b| - 1] == a + b[..|b| - 1];
      CountConcat(a, b[..|b| - 1], fate);
    }
  }

  lemma {:induction false} CountUniform(count: nat, fate: Fate, other: Fate)
    ensures CountOf(Repeat(count, fate), other) == if other == fate then count else 0
  {
    if count > 0 {
      assert Repeat(count, fate)[..count - 1] == Repeat(count - 1, fate);
      CountUniform(count - 1, fate, other);
    }
  }

  lemma {:induction false} CountsAddUp(fates: seq<Fate>)
    ensures CountOf(fates, Dropped) + CountOf(fates, InFlight) + CountOf(fates, Flushed)
            + CountOf(fates, Errored) == |fates|
  {
    if fates != [] { CountsAddUp(fates[..|fates| - 1]); }
  }

  lemma CountSettled(fates: seq<Fate>, from: nat, count: nat, fate: Fate, other: Fate)
    requires from + count <= |fates| && fates[from..from + count] == Repeat(count, InFlight)
    ensures CountOf(Settle(fates, from, count, fate), other)
            == CountOf(fates, other) + (if other == fate then count else 0) - (if other == InFlight then count else 0)
  {
    var flight, settled := Repeat(count, InFlight), Repeat(count, fate);
    var a, c := fates[..from], fates[from + count..];
    assert fates == a + flight + c;
    CountConcat(a + flight, c, other);
    CountConcat(a, flight, other);
    CountConcat(a + settled, c, other);
    CountConcat(a, settled, other);
    CountUniform(count, InFlight, other);
    CountUniform(count, fate, other);
  }

  // ---------- what every step keeps ----------

  predicate HasBatch(f: Flusher) {
    f.Taken? || f.Subtracted? || f.Clamping? || f.Writing?
  }

  /** The batch that left the buffer and is still counted as buffered. */
  function Unsubtracted(f: Flusher): nat {
    if f.Taken? then |f.batch| else 0
  }

  ghost predicate SomeCounted(s: State) {
    exists i :: 0 <= i < |s.enqueuers| && s.enqueuers[i].Counted?
  }

  ghost predicate MutexOk(s: State) {
    forall i, j :: 0 <= i < j < |s.enqueuers| ==> !(HoldsMutex(s.enqueuers[i]) && HoldsMutex(s.enqueuers[j]))
  }

  /** Points leave the buffer from its old end, in the order in which they came. */
  ghost predicate OrderOk(s: State) {
    && |s.history.fates| <= |s.history.enqueued|
    && s.buffer == s.history.enqueued[|s.history.fates|..]
  }

  /** The points whose fate is another than being dropped, in order. */
  function Survivors(points: seq<Point>, fates: seq<Fate>): seq<Point>
    requires |points| >= |fates|
    decreases |fates|
  {
    if fates == [] then []
    else
      var last := |fates| - 1;
      Survivors(points[..last], fates[..last]) + if fates[last] == Dropped then [] else [points[last]]
  }

  ghost predicate SentOk(s: State) {
    && |s.history.fates| <= |s.history.enqueued|
    && s.history.sent == Survivors(s.history.enqueued, s.history.fates)
  }

  ghost predicate FlightOk(s: State) {
    var h := s.history;
    if HasBatch(s.flusher) then
      var n := |s.flusher.batch|;
      && h.flightFrom + n <= |h.fates| <= |h.enqueued|
      && s.flusher.batch == h.enqueued[h.flightFrom..h.flightFrom + n]
      && h.fates[h.flightFrom..h.flightFrom + n] == Repeat(n, InFlight)
      && CountOf(h.fates, InFlight) == n
    else CountOf(h.fates, InFlight) == 0
  }

  ghost predicate CountersOk(s: State) {
    && s.buffered == |s.buffer| + Unsubtracted(s.flusher) + (if SomeCounted(s) then 1 else 0)
    && !s.flusher.Clamping?
    && s.flushed == CountOf(s.history.fates, Flushed)
    && s.errored == CountOf(s.history.fates, Errored)
  }

  ghost predicate SizesPositive(s: State) {
    && s.history.appendedSize > 0
    && forall i :: 0 <= i < |s.enqueuers| ==>
         (s.enqueuers[i].Sized? || s.enqueuers[i].Locked? || s.enqueuers[i].Counted?) ==> s.enqueuers[i].size > 0
  }

  /** Somebody will make the flush loop take the buffer, or it has returned. */
  ghost predicate Pending(s: State) {
    || s.token
    || (exists i :: 0 <= i < |s.enqueuers| && s.enqueuers[i] == Appended(true))
    || s.flusher.Woken? || s.flusher.Configured? || s.flusher.Stopped?
  }

  /** A buffer that its last append found full has a wake-up on the way. */
  ghost predicate WakeOk(s: State) {
    !SomeCounted(s) && |s.buffer| >= s.history.appendedSize ==> Pending(s)
  }

  ghost predicate Inv(s: State) {
    MutexOk(s) && OrderOk(s) && SentOk(s) && FlightOk(s) && CountersOk(s) && SizesPositive(s) && WakeOk(s)
  }

  lemma InitInv(goroutines: nat, size: int)
    ensures Inv(Init(goroutines, size))
  {
  }

  lemma CountSnoc(fates: seq<Fate>, fate: Fate, other: Fate)
    ensures CountOf(fates + [fate], other) == CountOf(fates, other) + if fate == other then 1 else 0
  {
    assert (fates + [fate])[..|fates|] == fates;
  }

  /** Only the points that have a fate matter, and only whether that fate is to be dropped. */
  lemma {:induction false} SurvivorsFrame(points: seq<Point>, points': seq<Point>, fates: seq<Fate>, fates': seq<Fate>)
    requires |fates| == |fates'| && |points| >= |fates| && |points'| >= |fates|
    requires forall k :: 0 <= k < |fates| ==> points[k] == points'[k] && (fates[k] == Dropped <==> fates'[k] == Dropped)
    ensures Survivors(points, fates) == Survivors(points', fates')
    decreases |fates|
  {
    if fates != [] {
      var last := |fates| - 1;
      SurvivorsFrame(points[..last], points'[..last], fates[..last], fates'[..last]);
    }
  }

  lemma {:induction false} SurvivorsOfBatch(points: seq<Point>, fates: seq<Fate>, count: nat)
    requires |fates| + count <= |points|
    ensures Survivors(points, fates + Repeat(count, InFlight))
            == Survivors(points, fates) + points[|fates|..|fates| + count]
    decreases count
  {
    if count == 0 {
      assert fates + Repeat(0, InFlight) == fates;
    } else {
      var all, last := fates + Repeat(count, InFlight), |fates| + count - 1;
      assert all[..last] == fates + Repeat(count - 1, InFlight);
      SurvivorsOfBatch(points[..last], fates, count - 1);
      SurvivorsFrame(points, points[..last], fates, fates);
      assert points[..last][|fates|..last] + [points[last]] == points[|fates|..|fates| + count];
    }
  }

  lemma SurvivorsOfDrop(points: seq<Point>, fates: seq<Fate>)
    requires |fates| < |points|
    ensures Survivors(points, fates + [Dropped]) == Survivors(points, fates)
  {
    assert (fates + [Dropped])[..|fates|] == fates;
    SurvivorsFrame(points, points[..|fates|], fates, fates);
  }

  lemma BeginKeeps(s: State, i: nat, e: Enqueuer)
    requires Inv(s) && i < |s.enqueuers| && !HoldsMutex(s.enqueuers[i]) && s.enqueuers[i] != Appended(true)
    requires e.Started? || (e.Sized? && e.size > 0)
    ensures Inv(Become(s, i, e))
  {
    var s' := Become(s, i, e);
    assert SomeCounted(s') == SomeCounted(s) by {
      forall j | 0 <= j < |s.enqueuers| ensures s'.enqueuers[j].Counted? == s.enqueuers[j].Counted? {}
    }
    KeepsPending(s, i, e);
  }

  lemma KeepsPending(s: State, i: nat, e: Enqueuer)
    requires i < |s.enqueuers| && s.enqueuers[i] != Appended(true)
    ensures Pending(s) ==> Pending(Become(s, i, e))
  {
    var s' := Become(s, i, e);
    if j :| 0 <= j < |s.enqueuers| && s.enqueuers[j] == Appended(true) {
      assert s'.enqueuers[j] == Appended(true);
    }
  }

  lemma LockKeeps(s: State, i: nat)
    requires Inv(s) && Next(s, Lock(i)).Some?
    ensures Inv(Next(s, Lock(i)).value)
  {
    var s' := Next(s, Lock(i)).value;
    assert SomeCounted(s') == SomeCounted(s) by {
      forall j | 0 <= j < |s.enqueuers| ensures s'.enqueuers[j].Counted? == s.enqueuers[j].Counted? {}
    }
    KeepsPending(s, i, s'.enqueuers[i]);
  }

  lemma CountKeeps(s: State, i: nat)
    requires Inv(s) && Next(s, Count(i)).Some?
    ensures Inv(Next(s, Count(i)).value)
  {
    hide CountOf, Pending, FlightOk, SentOk;
    var s' := Next(s, Count(i)).value;
    assert s'.enqueuers[i].Counted?;
    assert !SomeCounted(s);
    RoomKeepsFlight(s, s.enqueuers[i].size);
    RoomKeepsSent(s, s.enqueuers[i].size);
    FlightFrame(MakeRoom(s, s.enqueuers[i].size), s');
    CountSnoc(s.history.fates, Dropped, Flushed);
    CountSnoc(s.history.fates, Dropped, Errored);
  }

  lemma SliceOfPrefix<T>(a: seq<T>, b: seq<T>, from: nat, count: nat)
    requires from + count <= |a|
    ensures (a + b)[from..from + count] == a[from..from + count]
  {
  }

  lemma RoomKeepsFlight(s: State, size: nat)
    requires FlightOk(s) && OrderOk(s)
    ensures FlightOk(MakeRoom(s, size))
  {
    hide CountOf;
    var h := s.history;
    CountSnoc(h.fates, Dropped, InFlight);
    if HasBatch(s.flusher) {
      SliceOfPrefix(h.fates, [Dropped], h.flightFrom, |s.flusher.batch|);
    }
  }

  lemma RoomKeepsSent(s: State, size: nat)
    requires SentOk(s) && OrderOk(s)
    ensures SentOk(MakeRoom(s, size))
  {
    if s.buffer != [] { SurvivorsOfDrop(s.history.enqueued, s.history.fates); }
  }

  lemma FlightFrame(s: State, s': State)
    requires s.history == s'.history && s.flusher == s'.flusher
    ensures FlightOk(s) == FlightOk(s') && SentOk(s) == SentOk(s')
  {
  }

  lemma AppendKeeps(s: State, i: nat)
    requires Inv(s) && Next(s, Append(i)).Some?
    ensures Inv(Next(s, Append(i)).value)
  {
    var s' := Next(s, Append(i)).value;
    assert SomeCounted(s);
    assert !SomeCounted(s');
    var h, h' := s.history, s'.history;
    SurvivorsFrame(h.enqueued, h'.enqueued, h.fates, h.fates);
    if HasBatch(s.flusher) {
      var n := |s.flusher.batch|;
      assert h'.enqueued[h.flightFrom..h.flightFrom + n] == h.enqueued[h.flightFrom..h.flightFrom + n];
    }
    if |s'.buffer| >= h'.appendedSize { assert s'.enqueuers[i] == Appended(true); }
  }

  lemma SignalKeeps(s: State, i: nat)
    requires Inv(s) && Next(s, Signal(i)).Some?
    ensures Inv(Next(s, Signal(i)).value)
  {
    var s' := Next(s, Signal(i)).value;
    assert SomeCounted(s') == SomeCounted(s) by {
      forall j | 0 <= j < |s.enqueuers| ensures s'.enqueuers[j].Counted? == s.enqueuers[j].Counted? {}
    }
    if s.enqueuers[i] != Appended(true) { KeepsPending(s, i, Idle); }
  }

  lemma MutexSizesFrame(s: State, s': State)
    requires s.enqueuers == s'.enqueuers && s.history.appendedSize == s'.history.appendedSize
    ensures MutexOk(s) == MutexOk(s') && SizesPositive(s) == SizesPositive(s')
    ensures SizesPositive(s) ==> s.history.appendedSize > 0
  {
  }

  lemma BatchCounts(fates: seq<Fate>, count: nat, fate: Fate)
    ensures CountOf(fates + Repeat(count, InFlight), fate) == CountOf(fates, fate)
            + if fate == InFlight then count else 0
  {
    CountConcat(fates, Repeat(count, InFlight), fate);
    CountUniform(count, InFlight, fate);
  }

  lemma TakeKeepsHistory(s: State, last: bool, connected: bool)
    requires OrderOk(s) && SentOk(s) && FlightOk(s) && !HasBatch(s.flusher)
    ensures var s' := TakeBatch(s, last, connected); OrderOk(s') && SentOk(s') && FlightOk(s')
  {
    hide CountOf, Survivors;
    if s.buffer != [] {
      var h, n := s.history, |s.buffer|;
      SurvivorsOfBatch(h.enqueued, h.fates, n);
      BatchCounts(h.fates, n, InFlight);
      assert (h.fates + Repeat(n, InFlight))[|h.fates|..|h.fates| + n] == Repeat(n, InFlight);
    }
  }

  lemma TakeKeeps(s: State)
    requires Inv(s) && Next(s, Take).Some?
    ensures Inv(Next(s, Take).value)
  {
    hide CountOf, Pending, SizesPositive, MutexOk, Survivors, SentOk, FlightOk, OrderOk;
    var s' := Next(s, Take).value;
    MutexSizesFrame(s, s');
    assert SomeCounted(s') == SomeCounted(s) == false;
    TakeKeepsHistory(s, s.flusher.last, s.flusher.connected);
    BatchCounts(s.history.fates, |s.buffer|, Flushed);
    BatchCounts(s.history.fates, |s.buffer|, Errored);
    if s.buffer == [] { TakeNothing(s); }
  }

  lemma TakeNothing(s: State)
    requires SizesPositive(s) && s.buffer == []
    ensures |s.buffer| < s.history.appendedSize
  {
  }

  lemma SettledSurvive(h: History, count: nat, fate: Fate)
    requires fate != Dropped && h.flightFrom + count <= |h.fates| <= |h.enqueued|
    requires h.fates[h.flightFrom..h.flightFrom + count] == Repeat(count, InFlight)
    ensures Survivors(h.enqueued, Settle(h.fates, h.flightFrom, count, fate)) == Survivors(h.enqueued, h.fates)
  {
    var settled := Settle(h.fates, h.flightFrom, count, fate);
    forall k | 0 <= k < |h.fates| ensures settled[k] == Dropped <==> h.fates[k] == Dropped {
      if h.flightFrom <= k < h.flightFrom + count {
        assert h.fates[k] == h.fates[h.flightFrom..h.flightFrom + count][k - h.flightFrom];
      }
    }
    SurvivorsFrame(h.enqueued, h.enqueued, settled, h.fates);
  }

  lemma SettleLength(fates: seq<Fate>, from: nat, count: nat, fate: Fate)
    requires from + count <= |fates|
    ensures |Settle(fates, from, count, fate)| == |fates|
  {
  }

  lemma FinishKeeps(s: State, ok: bool)
    requires Inv(s) && Next(s, Finish(ok)).Some?
    ensures Inv(Next(s, Finish(ok)).value)
  {
    hide CountOf, Survivors, Settle, MutexOk, SizesPositive, MutexFree;
    var s' := Next(s, Finish(ok)).value;
    MutexSizesFrame(s, s');
    SettleLength(s.history.fates, s.history.flightFrom, |s.flusher.batch|,
                 if ok && s.flusher.connected then Flushed else Errored);
    assert SomeCounted(s') == SomeCounted(s);
    var h, n := s.history, |s.flusher.batch|;
    var fate := if ok && s.flusher.connected then Flushed else Errored;
    forall f ensures CountOf(s'.history.fates, f)
                  == CountOf(h.fates, f) + (if f == fate then n else 0) - (if f == InFlight then n else 0)
    {
      CountSettled(h.fates, h.flightFrom, n, fate, f);
    }
    SettledSurvive(h, n, fate);
  }

  /** Steps of the flush loop that leave the buffer and its history alone. */
  predicate IsLoopStep(e: Event) {
    e.WakeTick? || e.WakeToken? || e.WakeStop? || e.ReadConfig? || e.Subtract? || e.Check? || e.Clamp? || e.Close?
        || e.Reconfigure?
  }

  lemma LoopFrame(s: State, e: Event)
    requires Next(s, e).Some? && IsLoopStep(e)
    ensures var s' := Next(s, e).value;
            && s'.enqueuers == s.enqueuers && s'.buffer == s.buffer && s'.history == s.history
            && s'.flushed == s.flushed && s'.errored == s.errored
            && HasBatch(s'.flusher) == HasBatch(s.flusher)
                && (HasBatch(s.flusher) ==> s'.flusher.batch == s.flusher.batch)
            && (s.buffered >= 0 && !s.flusher.Clamping? ==> !s'.flusher.Clamping?)
            && (!s.flusher.Clamping? ==> s'.buffered - Unsubtracted(s'.flusher) == s.buffered - Unsubtracted(s.flusher))
            && (s'.token || s'.flusher.Woken? || s'.flusher.Configured? || s'.flusher.Stopped?
                <== s.token || s.flusher.Woken? || s.flusher.Configured? || s.flusher.Stopped?)
  {
    hide MutexFree;
  }

  lemma LoopKeeps(s: State, e: Event)
    requires Inv(s) && Next(s, e).Some? && IsLoopStep(e)
    ensures Inv(Next(s, e).value)
  {
    hide CountOf, MutexOk, SizesPositive, Next, Survivors;
    LoopFrame(s, e);
    var s' := Next(s, e).value;
    MutexSizesFrame(s, s');
    assert SomeCounted(s') == SomeCounted(s);
    if j :| 0 <= j < |s.enqueuers| && s.enqueuers[j] == Appended(true) {
      assert s'.enqueuers[j] == Appended(true);
    }
  }

  /** Main theorem: every step of every interleaving keeps the invariant. */
  lemma StepKeepsInv(s: State, e: Event)
    requires Inv(s) && Next(s, e).Some?
    ensures Inv(Next(s, e).value)
  {
    hide Inv;
    match e
    case Begin(i, point) => BeginKeeps(s, i, Started(point));
    case ReadSize(i) => BeginKeeps(s, i, Sized(s.enqueuers[i].point, EffectiveSize(s.size)));
    case Lock(i) => LockKeeps(s, i);
    case Count(i) => CountKeeps(s, i);
    case Append(i) => AppendKeeps(s, i);
    case Signal(i) => SignalKeeps(s, i);
    case Take => TakeKeeps(s);
    case Finish(ok) => FinishKeeps(s, ok);
    case _ => LoopKeeps(s, e);
  }

  // ---------- whole runs ----------

  lemma {:induction false} RunKeepsInv(s: State, events: seq<Event>)
    requires Inv(s) && Run(s, events).Some?
    ensures Inv(Run(s, events).value)
    decreases |events|
  {
    hide Inv, Next;
    if events != [] {
      StepKeepsInv(s, events[0]);
      RunKeepsInv(Next(s, events[0]).value, events[1..]);
    }
  }

  /** Conservation in every interleaving: each appended point is dropped, buffered, in flight,
      written or failed; they leave oldest first; and the buffered counter never needs its clamp. */
  lemma Conservation(goroutines: nat, size: int, events: seq<Event>)
    requires Run(Init(goroutines, size), events).Some?
    ensures var s := Run(Init(goroutines, size), events).value;
            var h := s.history;
            && |h.enqueued| == CountOf(h.fates, Dropped) + (if HasBatch(s.flusher) then |s.flusher.batch| else 0)
                               + s.flushed + s.errored + |s.buffer|
            && |h.fates| <= |h.enqueued| && h.sent == Survivors(h.enqueued, h.fates)
            && s.buffer == h.enqueued[|h.fates|..]
            && (HasBatch(s.flusher) ==>
                  && h.flightFrom + |s.flusher.batch| <= |h.enqueued|
                  && s.flusher.batch == h.enqueued[h.flightFrom..h.flightFrom + |s.flusher.batch|])
            && s.buffered == |s.buffer| + Unsubtracted(s.flusher) + (if SomeCounted(s) then 1 else 0)
            && !s.flusher.Clamping?
  {
    hide Next, CountOf;
    InitInv(goroutines, size);
    RunKeepsInv(Init(goroutines, size), events);
    CountsAddUp(Run(Init(goroutines, size), events).value.history.fates);
  }

  /** The write in progress can always end: the space its batch needs in the history is there. */
  lemma WriteCanEnd(goroutines: nat, size: int, events: seq<Event>, ok: bool)
    requires Run(Init(goroutines, size), events).Some? && Run(Init(goroutines, size), events).value.flusher.Writing?
    ensures Next(Run(Init(goroutines, size), events).value, Finish(ok)).Some?
  {
    InitInv(goroutines, size);
    RunKeepsInv(Init(goroutines, size), events);
  }

  /** Reconfigurations never lower the effective buffer size. */
  predicate NeverLowers(size: int, events: seq<Event>)
    decreases |events|
  {
    if events == [] then true
    else if events[0].Reconfigure? then
      EffectiveSize(size) <= EffectiveSize(events[0].size) && NeverLowers(events[0].size, events[1..])
    else NeverLowers(size, events[1..])
  }

  /** All sizes in use are at most the configured one, and so is the buffer. */
  ghost predicate WithinSize(s: State) {
    var size := EffectiveSize(s.size);
    && s.history.appendedSize <= size
    && (forall i :: 0 <= i < |s.enqueuers| ==>
          (s.enqueuers[i].Sized? || s.enqueuers[i].Locked? || s.enqueuers[i].Counted?) ==> s.enqueuers[i].size <= size)
    && |s.buffer| + (if SomeCounted(s) then 1 else 0) <= size
  }

  lemma SizesWithinFrame(s: State, s': State)
    requires s'.enqueuers == s.enqueuers && s'.history.appendedSize == s.history.appendedSize
    requires |s'.buffer| <= |s.buffer| && EffectiveSize(s.size) <= EffectiveSize(s'.size)
    requires WithinSize(s)
    ensures WithinSize(s')
  {
  }

  lemma EnqueuerWithinSize(s: State, i: nat, e: Enqueuer)
    requires WithinSize(s) && i < |s.enqueuers| && !e.Counted? && !s.enqueuers[i].Counted?
    requires e.Sized? || e.Locked? ==> e.size <= EffectiveSize(s.size)
    ensures WithinSize(Become(s, i, e))
  {
    var s' := Become(s, i, e);
    if j :| 0 <= j < |s'.enqueuers| && s'.enqueuers[j].Counted? { assert s.enqueuers[j].Counted?; }
  }

  lemma CountWithinSize(s: State, i: nat)
    requires MutexOk(s) && WithinSize(s) && Next(s, Count(i)).Some?
    ensures WithinSize(Next(s, Count(i)).value)
  {
    assert !SomeCounted(s);
  }

  lemma AppendWithinSize(s: State, i: nat)
    requires MutexOk(s) && WithinSize(s) && Next(s, Append(i)).Some?
    ensures WithinSize(Next(s, Append(i)).value)
  {
    assert SomeCounted(s);
    assert !SomeCounted(Next(s, Append(i)).value);
  }

  lemma StepWithinSize(s: State, e: Event)
    requires Inv(s) && WithinSize(s) && Next(s, e).Some?
    requires e.Reconfigure? ==> EffectiveSize(s.size) <= EffectiveSize(e.size)
    ensures WithinSize(Next(s, e).value)
  {
    hide FlightOk, SentOk, WakeOk, CountOf, Settle;
    var s' := Next(s, e).value;
    match e
    case Begin(i, point) => EnqueuerWithinSize(s, i, s'.enqueuers[i]);
    case ReadSize(i) => EnqueuerWithinSize(s, i, s'.enqueuers[i]);
    case Lock(i) => EnqueuerWithinSize(s, i, s'.enqueuers[i]);
    case Count(i) => CountWithinSize(s, i);
    case Append(i) => AppendWithinSize(s, i);
    case Signal(i) =>
      EnqueuerWithinSize(s, i, s'.enqueuers[i]);
      SizesWithinFrame(Become(s, i, s'.enqueuers[i]), s');
    case _ => SizesWithinFrame(s, s');
  }

  lemma {:induction false} RunWithinSize(s: State, events: seq<Event>)
    requires Inv(s) && WithinSize(s) && Run(s, events).Some? && NeverLowers(s.size, events)
    ensures WithinSize(Run(s, events).value)
    decreases |events|
  {
    hide Inv, WithinSize;
    if events != [] {
      StepKeepsInv(s, events[0]);
      StepWithinSize(s, events[0]);
      RunWithinSize(Next(s, events[0]).value, events[1..]);
    }
  }

  /** The flush loop has returned or will after this flush. */
  predicate Ending(f: Flusher) {
    f.Stopped? || (!f.Waiting? && f.last)
  }

  lemma StepEnds(s: State, e: Event)
    requires (Ending(s.flusher) ==> s.stopping) && Next(s, e).Some?
    ensures var s' := Next(s, e).value;
            (Ending(s'.flusher) ==> s'.stopping) && (s'.stopping <==> s.stopping || e.Close?)
  {
    hide Settle;
  }

  lemma {:induction false} EndsAfterClose(s: State, events: seq<Event>)
    requires (Ending(s.flusher) ==> s.stopping) && Run(s, events).Some?
    ensures Ending(Run(s, events).value.flusher) ==> s.stopping || Close in events
    decreases |events|
  {
    hide Next, Ending;
    if events != [] {
      StepEnds(s, events[0]);
      EndsAfterClose(Next(s, events[0]).value, events[1..]);
    }
  }

  /** No lost wake-up: in every interleaving whose reconfigurations never lower the size, a
      full buffer has a token in the channel, a goroutine about to send one, or a flush loop
      that is awake and has not taken the buffer, unless that loop has returned; that it does
      only when the writer was closed. */
  lemma NoLostWakeUp(goroutines: nat, size: int, events: seq<Event>)
    requires Run(Init(goroutines, size), events).Some? && NeverLowers(size, events)
    ensures var s := Run(Init(goroutines, size), events).value;
            && |s.buffer| <= EffectiveSize(s.size)
            && (|s.buffer| == EffectiveSize(s.size) ==> Pending(s))
            && (s.flusher.Stopped? ==> Close in events)
  {
    hide Next, Pending;
    InitInv(goroutines, size);
    RunKeepsInv(Init(goroutines, size), events);
    RunWithinSize(Init(goroutines, size), events);
    EndsAfterClose(Init(goroutines, size), events);
  }
}
