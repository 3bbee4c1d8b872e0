/** Readers blocked in waitByte, together with the whole sparse job. The mutex is explicit: each
    check of waitByte is a step of its own, taken with the mutex held. */
module WaitByte {
  import opened Intervals
  import opened SparseSpec
  import opened FillProtocol
  import opened FillInvariant
  import opened FillTheorems

  datatype Pc =
    | Out
    | Trying(off: int)       // about to take the mutex
    | AtByte(off: int)       // mutex held, about to check the byte
    | AtCtx(off: int)        // mutex held, byte seen absent
    | AtDone(off: int)       // mutex held, context seen live
    | Sleeping(off: int)     // in cond.Wait, mutex given up
    | Back(off: int, err: Option<Error>)   // returned

  /** `wakeDue`: the context was cancelled and the goroutine watching it has yet to call wake. */
  datatype Reader = Reader(pc: Pc, ctxDone: bool, wakeDue: bool)

  datatype World = World(job: State, lock: Option<nat>, readers: seq<Reader>)

  datatype Event =
    | JobMoves(a: Step)
    | Call(r: nat, off: int)
    | Lock(r: nat)
    | CheckByte(r: nat) | CheckCtx(r: nat) | CheckDone(r: nat)
    | Cancel(r: nat) | WakeFor(r: nat)

  function Awaken(x: Reader): Reader {
    if x.pc.Sleeping? then x.(pc := Trying(x.pc.off)) else x
  }

  function AwakenAll(rs: seq<Reader>): (ts: seq<Reader>)
    ensures |ts| == |rs| && forall r :: 0 <= r < |rs| ==> ts[r] == Awaken(rs[r])
  {
    seq(|rs|, r requires 0 <= r < |rs| => Awaken(rs[r]))
  }

  function ReaderOf(e: Event): Option<nat> {
    match e
    case JobMoves(_) => None
    case Call(r, _) => Some(r)
    case Lock(r) => Some(r)
    case CheckByte(r) => Some(r)
    case CheckCtx(r) => Some(r)
    case CheckDone(r) => Some(r)
    case Cancel(r) => Some(r)
    case WakeFor(r) => Some(r)
  }

  ghost predicate Can(up: seq<byte>, w: World, e: Event) {
    match e
    case JobMoves(a) => Enabled(up, w.job, a) && (OpOf(w.job, a).Some? ==> w.lock == None)
    case Call(r, off) => r < |w.readers| && (w.readers[r].pc.Out? || w.readers[r].pc.Back?)
    case Lock(r) => r < |w.readers| && w.readers[r].pc.Trying? && w.lock == None
    case CheckByte(r) => r < |w.readers| && w.readers[r].pc.AtByte?
    case CheckCtx(r) => r < |w.readers| && w.readers[r].pc.AtCtx?
    case CheckDone(r) => r < |w.readers| && w.readers[r].pc.AtDone?
    case Cancel(r) => r < |w.readers| && !w.readers[r].ctxDone
    case WakeFor(r) => r < |w.readers| && w.readers[r].wakeDue && w.lock == None
  }

  function Put(w: World, r: nat, pc: Pc, lock: Option<nat>): World
    requires r < |w.readers|
  {
    w.(readers := w.readers[r := w.readers[r].(pc := pc)], lock := lock)
  }

  ghost function Next(up: seq<byte>, w: World, e: Event): World
    requires Can(up, w, e)
  {
    match e
    case JobMoves(a) =>
      var woken := match OpOf(w.job, a) case Some(op) => Broadcasts(op) case None => false;
      w.(job := Apply(up, w.job, a), readers := if woken then AwakenAll(w.readers) else w.readers)
    case Call(r, off) =>
      Put(w, r, if off < 0 || off >= w.job.sf.size then Back(off, Some(Eof)) else Trying(off), w.lock)
    case Lock(r) => Put(w, r, AtByte(w.readers[r].pc.off), Some(r))
    case CheckByte(r) =>
      var off := w.readers[r].pc.off;
      if off in w.job.sf.present then Put(w, r, Back(off, None), None) else Put(w, r, AtCtx(off), w.lock)
    case CheckCtx(r) =>
      if w.readers[r].ctxDone then Put(w, r, Back(w.readers[r].pc.off, Some(Canceled)), None)
      else Put(w, r, AtDone(w.readers[r].pc.off), w.lock)
    case CheckDone(r) =>
      if w.job.sf.done
      then Put(w, r, Back(w.readers[r].pc.off,
                          Some(if w.job.sf.err.Some? then w.job.sf.err.value else UnexpectedEof)), None)
      else Put(w, r, Sleeping(w.readers[r].pc.off), None)
    case Cancel(r) => w.(readers := w.readers[r := w.readers[r].(ctxDone := true, wakeDue := true)])
    case WakeFor(r) =>
      w.(job := Touch(w.job, Wake), readers := AwakenAll(w.readers[r := w.readers[r].(wakeDue := false)]))
  }

  ghost function Trace(up: seq<byte>, w: World, es: seq<Event>): Option<World> {
    if es == [] then Some(w)
    else match Trace(up, w, es[..|es| - 1])
      case Some(t) => if Can(up, t, es[|es| - 1]) then Some(Next(up, t, es[|es| - 1])) else None
      case None => None
  }

  predicate Inside(pc: Pc) { pc.AtByte? || pc.AtCtx? || pc.AtDone? }

  ghost predicate ReaderOk(w: World, r: nat)
    requires r < |w.readers|
  {
    var x := w.readers[r];
    && (Inside(x.pc) <==> w.lock == Some(r))
    && (x.pc.Trying? || Inside(x.pc) || x.pc.Sleeping? ==> 0 <= x.pc.off < w.job.sf.size)
    && (x.pc.AtCtx? || x.pc.AtDone? ==> x.pc.off !in w.job.sf.present)
    && (x.pc.AtDone? ==> !x.ctxDone || x.wakeDue)
    && (x.pc.Sleeping? ==>
          x.pc.off !in w.job.sf.present && !w.job.sf.done && (!x.ctxDone || x.wakeDue))
    && (x.pc.Back? ==> Answered(w.job, x, x.pc.off, x.pc.err))
  }

  /** What waitByte's answer for an offset tells, at any time after it was given. */
  ghost predicate Answered(job: State, x: Reader, off: int, err: Option<Error>) {
    match err
    case None => off in job.sf.present
    case Some(Eof) => !(0 <= off < job.sf.size)
    case Some(Canceled) => x.ctxDone && 0 <= off < job.sf.size
    case Some(Failed(_)) => job.sf.done && job.sf.err == err && 0 <= off < job.sf.size
    case Some(_) => false
  }

  ghost predicate WorldOk(up: seq<byte>, w: World) {
    && Inv(up, w.job)
    && (forall r :: 0 <= r < |w.readers| ==> ReaderOk(w, r))
    && (w.lock.Some? ==> w.lock.value < |w.readers|)
  }

  /** Whatever changes what a reader waits for also wakes every sleeper. */
  lemma ChangesBroadcast(s: Sparse, op: Op)
    ensures After(s, op).present != s.present || After(s, op).done != s.done ==> Broadcasts(op)
  {
  }

  /** What a step of the job leaves a reader: awake, or facing the same bytes and the same flag. */
  lemma ReaderKept(w: World, t: World, r: nat)
    requires r < |w.readers| == |t.readers| && ReaderOk(w, r)
    requires t.lock == w.lock && Evolves(w.job.sf, t.job.sf) && (w.lock.Some? ==> t.job.sf == w.job.sf)
    requires t.readers[r] == Awaken(w.readers[r])
      || (t.readers[r] == w.readers[r] && t.job.sf.present == w.job.sf.present && t.job.sf.done == w.job.sf.done)
    ensures ReaderOk(t, r)
  {
  }

  lemma JobMoveKeeps(up: seq<byte>, w: World, a: Step)
    requires WorldOk(up, w) && Can(up, w, JobMoves(a))
    ensures WorldOk(up, Next(up, w, JobMoves(a)))
  {
    var t := Next(up, w, JobMoves(a));
    StepKeeps(up, w.job, a);
    StepProjects(up, w.job, a);
    StepEvolves(up, w.job, a);
    if OpOf(w.job, a).Some? { ChangesBroadcast(w.job.sf, OpOf(w.job, a).value); }
    hide Inv, Enabled, Apply, OpOf, After, Broadcasts, Evolves, ReaderOk, Awaken;
    forall r | 0 <= r < |t.readers| ensures ReaderOk(t, r) {
      assert ReaderOk(w, r);
      ReaderKept(w, t, r);
    }
  }

  /** The error of a finished job is never the unexpected-EOF one, and without error it is whole. */
  lemma DoneMeans(up: seq<byte>, s: State)
    requires Inv(up, s) && s.sf.done && s.sf.err.None?
    ensures Complete(s.sf)
  {
  }

  lemma ReaderMoveKeeps(up: seq<byte>, w: World, e: Event)
    requires WorldOk(up, w) && Can(up, w, e) && !e.JobMoves? && !e.WakeFor?
    ensures WorldOk(up, Next(up, w, e))
  {
    var t := Next(up, w, e);
    var r := ReaderOf(e).value;
    assert ReaderOk(w, r);
    if e.CheckDone? && w.job.sf.done {
      NoUnexpectedEof(up, w.job, w.readers[r].pc.off);
    }
    hide Inv;
    forall q | 0 <= q < |t.readers| ensures ReaderOk(t, q) {
      assert ReaderOk(w, q);
    }
  }

  /** A byte still absent when the job is done means the job ended with an error of its own. */
  lemma NoUnexpectedEof(up: seq<byte>, s: State, off: int)
    requires Inv(up, s) && s.sf.done && 0 <= off < s.sf.size && off !in s.sf.present
    ensures s.sf.err.Some? && s.sf.err.value != UnexpectedEof
  {
    assert off in Range(0, s.sf.size);
  }

  lemma WakeKeeps(up: seq<byte>, w: World, r: nat)
    requires WorldOk(up, w) && Can(up, w, WakeFor(r))
    ensures WorldOk(up, Next(up, w, WakeFor(r)))
  {
    var t := Next(up, w, WakeFor(r));
    StepKeeps(up, w.job, WakeAll);
    hide Inv;
    forall q | 0 <= q < |t.readers| ensures ReaderOk(t, q) {
      assert ReaderOk(w, q);
    }
  }

  ghost predicate Start(up: seq<byte>, w: World) {
    && Init(up, w.job) && w.lock == None
    && forall r :: 0 <= r < |w.readers| ==> w.readers[r] == Reader(Out, false, false)
  }

  lemma {:induction false} WorldKeeps(up: seq<byte>, w: World, es: seq<Event>)
    requires Start(up, w) && Trace(up, w, es).Some?
    ensures WorldOk(up, Trace(up, w, es).value)
  {
    hide Inv, Can, Next, Init, ReaderOk;
    if es == [] {
      StartOk(up, w);
    } else {
      var n := |es| - 1;
      WorldKeeps(up, w, es[..n]);
      var t := Trace(up, w, es[..n]).value;
      match es[n]
      case JobMoves(a) => JobMoveKeeps(up, t, a);
      case WakeFor(r) => WakeKeeps(up, t, r);
      case _ => ReaderMoveKeeps(up, t, es[n]);
    }
  }

  lemma StartOk(up: seq<byte>, w: World)
    requires Start(up, w)
    ensures WorldOk(up, w)
  {
    InitHolds(up, w.job);
  }

  ghost predicate TracesTo(up: seq<byte>, w0: World, es: seq<Event>, w: World) {
    Start(up, w0) && Trace(up, w0, es) == Some(w)
  }

  /** Some trace of a fresh job and its readers ends in w. */
  ghost predicate Occurs(up: seq<byte>, w: World) {
    exists w0, es :: TracesTo(up, w0, es, w)
  }

  lemma OccurringOk(up: seq<byte>, w: World)
    requires Occurs(up, w)
    ensures WorldOk(up, w)
  {
    hide WorldOk, Start, Trace;
    var w0, es :| TracesTo(up, w0, es, w);
    WorldKeeps(up, w0, es);
  }

  /** No sleeper has missed what it waits for: in every reachable state a reader asleep in waitByte
      waits for a byte that is absent, of a file that is not done, and its context is live or a wake
      for it is due. Whether anything is left that would fetch the byte is another matter: see
      `Sleepers.SleepEndsIff`. */
  lemma NoWakeMissed(up: seq<byte>, w: World, r: nat)
    requires Occurs(up, w) && r < |w.readers| && w.readers[r].pc.Sleeping?
    ensures var x := w.readers[r];
      && 0 <= x.pc.off < |up| && x.pc.off !in w.job.sf.present && !w.job.sf.done
      && (x.ctxDone ==> x.wakeDue)
  {
    OccurringOk(up, w);
    assert ReaderOk(w, r);
  }

  /** waitByte never reports an unexpected end of file, in any run; and once a job has ended without
      error no reader is asleep or past its byte check, and that check succeeds for every offset. */
  lemma WaitSucceedsAfterSuccess(up: seq<byte>, w: World, r: nat)
    requires Occurs(up, w) && r < |w.readers|
    ensures w.readers[r].pc.Back? ==> w.readers[r].pc.err != Some(UnexpectedEof)
    ensures w.job.sf.done && w.job.sf.err.None? ==>
      && Complete(w.job.sf)
      && !w.readers[r].pc.AtCtx? && !w.readers[r].pc.AtDone? && !w.readers[r].pc.Sleeping?
      && (w.readers[r].pc.AtByte? ==> Next(up, w, CheckByte(r)).readers[r].pc == Back(w.readers[r].pc.off, None))
  {
    OccurringOk(up, w);
    assert ReaderOk(w, r);
    if w.job.sf.done && w.job.sf.err.None? {
      DoneMeans(up, w.job);
      assert forall o :: 0 <= o < w.job.sf.size ==> o in Range(0, w.job.sf.size);
    }
  }

  /** What each answer means, whoever gave it and whatever has happened since: the byte is there; or it
      lies outside the file; or the reader's context has ended; or the job is done with that error. */
  lemma AnswersMean(up: seq<byte>, w: World, r: nat)
    requires Occurs(up, w) && r < |w.readers| && w.readers[r].pc.Back?
    ensures Answered(w.job, w.readers[r], w.readers[r].pc.off, w.readers[r].pc.err)
  {
    OccurringOk(up, w);
    assert ReaderOk(w, r);
  }

  /** An answer is about the offset that was asked for, and nobody ends a reader's context but its own
      cancellation. */
  lemma KeepsOffset(up: seq<byte>, w: World, e: Event, r: nat)
    requires Can(up, w, e) && r < |w.readers| && !w.readers[r].pc.Out?
    ensures var x := Next(up, w, e).readers[r];
      && !x.pc.Out? && x.pc.off == (if e.Call? && e.r == r then e.off else w.readers[r].pc.off)
      && (x.ctxDone <==> w.readers[r].ctxDone || e == Cancel(r))
  {
    hide Enabled, Apply, OpOf, Complete;
  }

  /** A step that broadcasts, the job's or one on behalf of a reader, leaves nobody asleep: no reader,
      and not the filler. */
  lemma BroadcastWakesAll(up: seq<byte>, w: World, e: Event)
    requires Can(up, w, e)
    requires e.WakeFor? || (e.JobMoves? && OpOf(w.job, e.a).Some? && Broadcasts(OpOf(w.job, e.a).value))
    ensures var t := Next(up, w, e);
      t.job.driver != Asleep && forall r :: 0 <= r < |t.readers| ==> !t.readers[r].pc.Sleeping?
  {
  }
}
