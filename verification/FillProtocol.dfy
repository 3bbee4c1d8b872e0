/** One sparse download job as a state machine: the filler (runSparse), any number of seek fills
    (requestFillAt), every fill's own steps (fillRange, writeAt), and the hand-over (run, finishJob).
    A step is one critical section, one piece of a disk write, or one local decision. */
module FillProtocol {
  import opened Intervals
  import opened SparseSpec

  /** How fillRange returned: nil, a context.Canceled error, or any other error. */
  datatype Result = Fine | Cut | Broken

  datatype Phase =
    | Queued                              // waiting for a slot of the semaphore
    | Holding                             // slot held, nothing read and not yet published
    | Got(buf: seq<byte>)                 // bytes read, writeAt not yet past its closed check
    | Writing(buf: seq<byte>, k: nat)     // inside WriteAt, k bytes of buf are on disk
    | Unwinding(res: Result)              // leaving, slot still held
    | Leaving(res: Result)                // slot given back, reservation still held
    | Over(res: Result)                   // reservation released

  datatype Fill = Fill(iv: Interval, pos: int, seek: bool, phase: Phase)

  datatype Driver =
    | Checking | Reserving | Napping | Asleep
    | Filling(i: nat) | Failing
    | Closing | Judging
    | Returned(ok: bool)                  // runSparse has returned
    | Filed(ok: bool)                     // finalize has been tried
    | Ended(ok: bool)                     // finishJob has called markDone

  datatype State = State(
    sf: Sparse, disk: seq<byte>, fills: seq<Fill>, driver: Driver,
    jobCtxDone: bool, runCtxDone: bool, firstErr: bool,
    entry: bool,                          // the temp file has been renamed into the cache
    hits: seq<nat>,                       // how often each offset was written to disk
    lost: seq<nat>)                       // how often by a WriteAt that then failed

  datatype Step =
    | Check(stop: bool) | Lowest(iv: Interval) | NoLowest | Nap | SetErr
    | CloseFile | Judge | File(renamed: bool) | Finish(code: int)
    | Seek(off: int, out: seq<Interval>) | CancelJob | WakeAll
    | Acquire(i: nat) | Abandon(i: nat, res: Result)
    | Read(i: nat, got: seq<byte>) | Open(i: nat) | Put(i: nat, j: nat) | PutFails(i: nat)
    | Show(i: nat) | Stop(i: nat, res: Result) | GiveBack(i: nat) | Drop(i: nat)

  predicate Live(f: Fill) { !f.phase.Over? }

  predicate HoldsSlot(f: Fill) {
    f.phase.Holding? || f.phase.Got? || f.phase.Writing? || f.phase.Unwinding?
  }

  predicate Owns(f: Fill, o: int) { Live(f) && f.iv.start <= o < f.iv.end }

  predicate Wrote(f: Fill, o: int) { f.iv.start <= o < f.pos }

  predicate Pending(f: Fill, o: int) { f.phase.Writing? && f.pos <= o < f.pos + f.phase.k }

  predicate CtxDone(s: State, f: Fill) { s.jobCtxDone || (!f.seek && s.runCtxDone) }

  function NewFill(iv: Interval, seek: bool): Fill { Fill(iv, iv.start, seek, Queued) }

  function NewFills(out: seq<Interval>): seq<Fill> { seq(|out|, i requires 0 <= i < |out| => NewFill(out[i], true)) }

  /** The bytes a reader opened at an offset may return: the upstream's, as far as the file goes. */
  ghost predicate Aligned(up: seq<byte>, pos: int, got: seq<byte>) {
    forall t :: 0 <= t < |got| && 0 <= pos + t < |up| ==> got[t] == up[pos + t]
  }

  /** The write of fillRange never goes past its range. */
  function Clamp(f: Fill, got: seq<byte>): seq<byte>
    requires f.pos <= f.iv.end
  {
    got[..Min(|got|, f.iv.end - f.pos)]
  }

  function Overwrite(disk: seq<byte>, at: int, buf: seq<byte>, k: int, j: int): (r: seq<byte>)
    requires 0 <= k <= j <= |buf|
    ensures |r| == |disk|
  {
    seq(|disk|, o requires 0 <= o < |disk| => if at + k <= o < at + j then buf[o - at] else disk[o])
  }

  function Bump(c: seq<nat>, a: int, b: int): (r: seq<nat>)
    ensures |r| == |c|
  {
    seq(|c|, o requires 0 <= o < |c| => c[o] + if a <= o < b then 1 else 0)
  }

  /** A critical section: the shared state changes and, if it broadcasts, a sleeping filler wakes. */
  function Touch(s: State, op: Op): State {
    s.(sf := After(s.sf, op), driver := if Broadcasts(op) && s.driver == Asleep then Checking else s.driver)
  }

  function SetFill(s: State, i: nat, f: Fill): State
    requires i < |s.fills|
  {
    s.(fills := s.fills[i := f])
  }

  function SetPhase(s: State, i: nat, p: Phase): State
    requires i < |s.fills|
  {
    SetFill(s, i, s.fills[i].(phase := p))
  }

  function FillOf(a: Step): Option<nat> {
    match a
    case Acquire(i) => Some(i)
    case Abandon(i, _) => Some(i)
    case Read(i, _) => Some(i)
    case Open(i) => Some(i)
    case Put(i, _) => Some(i)
    case PutFails(i) => Some(i)
    case Show(i) => Some(i)
    case Stop(i, _) => Some(i)
    case GiveBack(i) => Some(i)
    case Drop(i) => Some(i)
    case _ => None
  }

  ghost predicate DriverStep(s: State, a: Step) {
    match a
    case Check(stop) =>
      s.driver == Checking && if stop then s.jobCtxDone || s.runCtxDone || Complete(s.sf) else !Complete(s.sf)
    case Lowest(iv) => s.driver == Reserving && IsLowest(s.sf, iv)
    case NoLowest => s.driver == Reserving && forall o :: !Free(s.sf, o)
    case Nap => s.driver == Napping
    case SetErr => s.driver == Failing
    case CloseFile => s.driver == Closing
    case Judge => s.driver == Judging
    case File(_) => s.driver.Returned?
    case Finish(_) => s.driver.Filed?
    case Seek(off, out) => 0 <= off < s.sf.size && IsReservation(s.sf, off, off + s.sf.chunk, out)
    case CancelJob => true
    case WakeAll => true
    case _ => false
  }

  ghost predicate FillStep(up: seq<byte>, s: State, f: Fill, a: Step) {
    match a
    case Acquire(_) => f.phase == Queued
    case Abandon(_, res) => f.phase == Queued && CtxDone(s, f) && res != Fine
    case Read(_, got) => f.phase == Holding && f.pos < f.iv.end && got != [] && Aligned(up, f.pos, got)
    case Open(_) => f.phase.Got?
    case Put(_, j) => f.phase.Writing? && f.phase.k < j <= |f.phase.buf|
    case PutFails(_) => f.phase.Writing? && f.phase.k < |f.phase.buf|
    case Show(_) => f.phase.Writing? && f.phase.k == |f.phase.buf|
    case Stop(_, res) => f.phase == Holding && (res == Cut ==> CtxDone(s, f))
    case GiveBack(_) => f.phase.Unwinding?
    case Drop(_) => f.phase.Leaving?
    case _ => false
  }

  ghost predicate Enabled(up: seq<byte>, s: State, a: Step) {
    match FillOf(a)
    case Some(i) => i < |s.fills| && s.fills[i].pos <= s.fills[i].iv.end && FillStep(up, s, s.fills[i], a)
    case None => DriverStep(s, a)
  }

  /** The critical section a step performs, if any. */
  function OpOf(s: State, a: Step): Option<Op> {
    match a
    case Lowest(iv) => Some(Reserve([iv]))
    case Seek(_, out) => Some(Reserve(out))
    case CloseFile => Some(Close)
    case Finish(code) => Some(MarkDone(if s.driver.Filed? && s.driver.ok then None else Some(Failed(code))))
    case WakeAll => Some(Wake)
    case Show(i) =>
      if i < |s.fills| && s.fills[i].phase.Writing?
      then Some(Publish(s.fills[i].pos, s.fills[i].pos + |s.fills[i].phase.buf|)) else None
    case Drop(i) => if i < |s.fills| then Some(Release(s.fills[i].iv)) else None
    case _ => None
  }

  ghost function DriverApply(s: State, a: Step): State
    requires DriverStep(s, a)
  {
    match a
    case Check(stop) => s.(driver := if stop then Closing else Reserving)
    case Lowest(iv) => Touch(s, Reserve([iv])).(fills := s.fills + [NewFill(iv, false)], driver := Filling(|s.fills|))
    case NoLowest => s.(driver := Napping)
    case Nap => s.(driver := if s.jobCtxDone || s.runCtxDone || s.sf.done then Checking else Asleep)
    case SetErr => s.(firstErr := true, runCtxDone := true, driver := Closing)
    case CloseFile => Touch(s, Close).(driver := Judging)
    case Judge => s.(driver := Returned(!s.firstErr && Complete(s.sf)), runCtxDone := true)
    case File(renamed) => s.(driver := Filed(s.driver.ok && renamed), entry := s.driver.ok && renamed)
    case Finish(_) => Touch(s, OpOf(s, a).value).(driver := Ended(s.driver.ok))
    case Seek(_, out) => Touch(s, Reserve(out)).(fills := s.fills + NewFills(out))
    case CancelJob => s.(jobCtxDone := true)
    case WakeAll => Touch(s, Wake)
  }

  ghost function FillApply(up: seq<byte>, s: State, i: nat, a: Step): State
    requires i < |s.fills| && s.fills[i].pos <= s.fills[i].iv.end && FillStep(up, s, s.fills[i], a)
  {
    var f := s.fills[i];
    match a
    case Acquire(_) => SetPhase(s, i, Holding)
    case Abandon(_, res) => SetPhase(s, i, Leaving(res))
    case Read(_, got) => SetPhase(s, i, Got(Clamp(f, got)))
    case Open(_) => SetPhase(s, i, if s.sf.closed then Unwinding(Broken) else Writing(f.phase.buf, 0))
    case Put(_, j) =>
      SetPhase(s, i, Writing(f.phase.buf, j)).(
        disk := Overwrite(s.disk, f.pos, f.phase.buf, f.phase.k, j),
        hits := Bump(s.hits, f.pos + f.phase.k, f.pos + j))
    case PutFails(_) =>
      SetPhase(s, i, Unwinding(Broken)).(lost := Bump(s.lost, f.pos, f.pos + f.phase.k))
    case Show(_) =>
      SetFill(Touch(s, Publish(f.pos, f.pos + |f.phase.buf|)), i, f.(pos := f.pos + |f.phase.buf|, phase := Holding))
    case Stop(_, res) => SetPhase(s, i, Unwinding(res))
    case GiveBack(_) => SetPhase(s, i, Leaving(f.phase.res))
    case Drop(_) =>
      var t := SetPhase(Touch(s, Release(f.iv)), i, Over(f.phase.res));
      if s.driver == Filling(i) then t.(driver := if f.phase.res == Broken then Failing else Checking) else t
  }

  ghost function Apply(up: seq<byte>, s: State, a: Step): State
    requires Enabled(up, s, a)
  {
    match FillOf(a)
    case Some(i) => FillApply(up, s, i, a)
    case None => DriverApply(s, a)
  }

  ghost predicate Init(up: seq<byte>, s: State) {
    && s.sf.size == |up| > 0 && s.sf.chunk > 0
    && s.sf == Sparse(s.sf.size, s.sf.chunk, {}, {}, false, false, None)
    && |s.disk| == |up| && s.fills == [] && s.driver == Checking
    && !s.jobCtxDone && !s.runCtxDone && !s.firstErr && !s.entry
    && s.hits == seq(|up|, _ => 0) && s.lost == seq(|up|, _ => 0)
  }

  /** The state a run of steps leads to, if every step of it is enabled when its turn comes. */
  ghost function Run(up: seq<byte>, s: State, steps: seq<Step>): Option<State> {
    if steps == [] then Some(s)
    else match Run(up, s, steps[..|steps| - 1])
      case Some(t) => if Enabled(up, t, steps[|steps| - 1]) then Some(Apply(up, t, steps[|steps| - 1])) else None
      case None => None
  }

  // ---------------------------------------------------------------- the invariant

  predicate FillOk(up: seq<byte>, sf: Sparse, f: Fill) {
    && 0 <= f.iv.start <= f.pos <= f.iv.end <= sf.size == |up|
    && 0 < f.iv.end - f.iv.start <= sf.chunk
    && (f.phase.Got? || f.phase.Writing? ==>
          0 < |f.phase.buf| <= f.iv.end - f.pos && f.phase.buf == up[f.pos..f.pos + |f.phase.buf|])
    && (f.phase.Writing? ==> f.phase.k <= |f.phase.buf|)
    && (f.phase.Queued? ==> f.pos == f.iv.start)
  }

  ghost predicate Shape(up: seq<byte>, s: State) {
    && s.sf.size == |up| == |s.disk| == |s.hits| == |s.lost| && |up| > 0 && s.sf.chunk > 0
    && forall i :: 0 <= i < |s.fills| ==> FillOk(up, s.sf, s.fills[i])
  }

  ghost predicate OwnedBySome(fills: seq<Fill>, o: int) { exists i :: 0 <= i < |fills| && Owns(fills[i], o) }
  ghost predicate WrittenBySome(fills: seq<Fill>, o: int) { exists i :: 0 <= i < |fills| && Wrote(fills[i], o) }
  ghost predicate PendingInSome(fills: seq<Fill>, o: int) { exists i :: 0 <= i < |fills| && Pending(fills[i], o) }

  /** `inflight` is exactly the disjoint union of the live fills' reservations, and the part of a
      reservation its fill has yet to publish is not present. */
  ghost predicate Ownership(s: State) {
    && (forall o :: o in s.sf.inflight <==> OwnedBySome(s.fills, o))
    && (forall i, j, o :: 0 <= i < j < |s.fills| && Owns(s.fills[i], o) ==> !Owns(s.fills[j], o))
    && (forall i, o :: 0 <= i < |s.fills| && Owns(s.fills[i], o) && s.fills[i].pos <= o ==> o !in s.sf.present)
  }

  /** `present` is exactly the disjoint union of what the fills, past and live, have published. */
  ghost predicate Publication(s: State) {
    && (forall o :: o in s.sf.present <==> WrittenBySome(s.fills, o))
    && (forall i, j, o :: 0 <= i < j < |s.fills| && Wrote(s.fills[i], o) ==> !Wrote(s.fills[j], o))
  }

  /** Published bytes, and bytes a write in progress has put on disk, are the upstream's. */
  ghost predicate Content(up: seq<byte>, s: State)
    requires |up| == |s.disk|
  {
    && (forall o :: 0 <= o < |up| && o in s.sf.present ==> s.disk[o] == up[o])
    && (forall i, o :: 0 <= i < |s.fills| && Pending(s.fills[i], o) && 0 <= o < |up| ==> s.disk[o] == up[o])
  }

  /** Every disk write of an offset is accounted for. */
  ghost predicate Tally(s: State)
    requires |s.hits| == |s.lost|
  {
    forall o :: 0 <= o < |s.hits| ==>
      s.hits[o] == s.lost[o] + if o in s.sf.present || PendingInSome(s.fills, o) then 1 else 0
  }

  ghost predicate Driving(s: State) {
    && (s.driver.Filling? ==> s.driver.i < |s.fills| && Live(s.fills[s.driver.i]) && !s.fills[s.driver.i].seek)
    && (forall i :: 0 <= i < |s.fills| && Live(s.fills[i]) && !s.fills[i].seek ==> s.driver == Filling(i))
    && (s.driver.Returned? || s.driver.Filed? || s.driver.Ended? ==> s.driver.ok ==> Complete(s.sf))
    && (s.sf.done <==> s.driver.Ended?)
    && (s.sf.err.None? <==> s.driver.Ended? ==> s.driver.ok)
    && (s.sf.err.Some? ==> s.sf.err.value.Failed?)
    && (s.entry <==> (s.driver.Filed? || s.driver.Ended?) && s.driver.ok)
    && (s.sf.closed <==> s.driver.Judging? || s.driver.Returned? || s.driver.Filed? || s.driver.Ended?)
  }

  ghost predicate Inv(up: seq<byte>, s: State) {
    && Shape(up, s)
    && Ownership(s)
    && Publication(s)
    && Content(up, s)
    && Tally(s)
    && Driving(s)
  }
}
