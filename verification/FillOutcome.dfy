/** How a sparse job ends: exactly when runSparse succeeds, and what becomes of it. */
module FillOutcome {
  import opened Intervals
  import opened SparseSpec
  import opened FillProtocol
  import opened FillInvariant
  import opened FillTheorems

  /** A fetch of the filler, not one of a seek, ended with an error that is no cancellation. */
  ghost predicate FillerBroke(fills: seq<Fill>) {
    exists i :: 0 <= i < |fills| && BrokenFetch(fills[i])
  }

  predicate BrokenFetch(f: Fill) { !f.seek && f.phase == Over(Broken) }

  predicate CutShort(f: Fill) {
    f.phase == Unwinding(Cut) || f.phase == Leaving(Cut) || f.phase == Over(Cut)
  }

  /** The filler has left its loop. */
  predicate Late(d: Driver) { d.Closing? || d.Judging? || d.Returned? || d.Filed? || d.Ended? }

  ghost predicate Verdicts(s: State) {
    && (FillerBroke(s.fills) <==> s.driver == Failing || s.firstErr)
    && (s.firstErr || s.runCtxDone ==> Late(s.driver))
    && (s.firstErr || s.driver.Returned? || s.driver.Filed? || s.driver.Ended? ==> s.runCtxDone)
    && (Late(s.driver) ==> s.firstErr || s.jobCtxDone || Complete(s.sf))
    && (forall i :: 0 <= i < |s.fills| && CutShort(s.fills[i]) ==> s.jobCtxDone)
    && (s.driver.Returned? || s.driver.Filed? || s.driver.Ended? ==> s.driver.ok ==> !s.firstErr)
  }

  /** Which fetches of the filler have broken, after one fill has changed. */
  lemma BrokeSet(fills: seq<Fill>, i: nat, g: Fill)
    requires i < |fills| && !BrokenFetch(fills[i])
    ensures FillerBroke(fills[i := g]) <==> FillerBroke(fills) || BrokenFetch(g)
  {
    var now := fills[i := g];
    assert now[i] == g && forall j :: 0 <= j < |fills| && j != i ==> now[j] == fills[j];
    if FillerBroke(fills) {
      var j :| 0 <= j < |fills| && BrokenFetch(fills[j]);
      assert BrokenFetch(now[j]);
    }
    if FillerBroke(now) {
      var j :| 0 <= j < |now| && BrokenFetch(now[j]);
      assert j != i ==> BrokenFetch(fills[j]);
    }
    if BrokenFetch(g) { assert BrokenFetch(now[i]); }
  }

  lemma BrokeAppend(fills: seq<Fill>, more: seq<Fill>)
    requires forall i :: 0 <= i < |more| ==> more[i].phase == Queued
    ensures FillerBroke(fills + more) <==> FillerBroke(fills)
  {
    var now := fills + more;
    if FillerBroke(fills) {
      var j :| 0 <= j < |fills| && BrokenFetch(fills[j]);
      assert BrokenFetch(now[j]);
    }
    if FillerBroke(now) {
      var j :| 0 <= j < |now| && BrokenFetch(now[j]);
      assert j >= |fills| ==> now[j] == more[j - |fills|];
    }
  }

  /** What a fill's own step does to the filler and to the verdicts. */
  lemma FillEffects(up: seq<byte>, s: State, i: nat, a: Step)
    requires Enabled(up, s, a) && FillOf(a) == Some(i)
    ensures var t := Apply(up, s, a);
      && i < |s.fills| == |t.fills|
      && var f, g := s.fills[i], t.fills[i];
         && t.fills == s.fills[i := g] && g.seek == f.seek && Live(f)
         && (CutShort(g) ==> CutShort(f) || CtxDone(s, f))
         && (g.phase == Over(Broken) ==> a.Drop?)
         && t.jobCtxDone == s.jobCtxDone && t.runCtxDone == s.runCtxDone && t.firstErr == s.firstErr
         && (if a.Drop? && s.driver == Filling(i)
             then t.driver == (if g.phase == Over(Broken) then Failing else Checking)
             else t.driver == s.driver || (s.driver == Asleep && t.driver == Checking))
  {
    hide Overwrite, Bump, After, Complete, Aligned, Clamp, DriverStep, DriverApply, Broadcasts;
  }

  lemma FillVerdict(up: seq<byte>, s: State, i: nat, a: Step)
    requires Inv(up, s) && Verdicts(s) && Enabled(up, s, a) && FillOf(a) == Some(i)
    ensures Verdicts(Apply(up, s, a))
  {
    CompleteKept(up, s, a);
    OwnDriver(up, s, i);
    FillEffects(up, s, i, a);
    var t := Apply(up, s, a);
    BrokeSet(s.fills, i, t.fills[i]);
    hide Inv, FillerBroke, Enabled, Apply, Complete, CutShort;
    forall k | 0 <= k < |t.fills| && CutShort(t.fills[k]) ensures t.jobCtxDone {
      assert k != i ==> CutShort(s.fills[k]);
    }
  }

  lemma CompleteKept(up: seq<byte>, s: State, a: Step)
    requires Inv(up, s) && Enabled(up, s, a)
    ensures Complete(s.sf) ==> Complete(Apply(up, s, a).sf)
  {
    hide Inv, Enabled, Apply;
    StepEvolves(up, s, a);
  }

  lemma OwnDriver(up: seq<byte>, s: State, i: nat)
    requires Inv(up, s) && i < |s.fills|
    ensures Live(s.fills[i]) && !s.fills[i].seek ==> s.driver == Filling(i)
    ensures s.driver == Filling(i) ==> !s.fills[i].seek
  {
  }

  /** A step that is not a fill's own leaves the fills alone, and adds new ones at most. */
  lemma FillsAdded(s: State, a: Step) returns (more: seq<Fill>)
    requires DriverStep(s, a)
    ensures DriverApply(s, a).fills == s.fills + more
    ensures forall i :: 0 <= i < |more| ==> more[i].phase == Queued
  {
    hide Complete, IsReservation, IsLowest, After, Free, Broadcasts;
    more := DriverApply(s, a).fills[|s.fills|..];
  }

  lemma FillerVerdict(up: seq<byte>, s: State, a: Step)
    requires Inv(up, s) && Verdicts(s) && Enabled(up, s, a) && FillOf(a) == None
    ensures Verdicts(Apply(up, s, a))
  {
    CompleteKept(up, s, a);
    var more := FillsAdded(s, a);
    var t := Apply(up, s, a);
    BrokeAppend(s.fills, more);
    FillerMoved(s, a);
    hide Inv, FillerBroke, Enabled, Apply, DriverStep, DriverApply, Complete;
    assert forall k :: |s.fills| <= k < |t.fills| ==> t.fills[k] == more[k - |s.fills|];
    forall k | 0 <= k < |t.fills| && CutShort(t.fills[k]) ensures t.jobCtxDone {
      assert k < |s.fills| ==> CutShort(s.fills[k]);
    }
  }

  lemma FillerMoved(s: State, a: Step)
    requires DriverStep(s, a)
    ensures var t := DriverApply(s, a);
      && (s.jobCtxDone ==> t.jobCtxDone)
      && (t.firstErr <==> s.firstErr || (s.driver == Failing && a.SetErr?))
      && (t.driver == Failing <==> s.driver == Failing && !a.SetErr?)
      && (t.runCtxDone ==> s.runCtxDone || a.SetErr? || a.Judge?)
      && (s.driver == Failing && a.SetErr? ==> Late(t.driver))
      && (a.Judge? ==> Late(t.driver)) && (Late(s.driver) ==> Late(t.driver))
      && (Late(t.driver) ==> Late(s.driver) || t.firstErr || s.jobCtxDone || s.runCtxDone || Complete(s.sf))
      && (Late(t.driver) && (t.driver.Returned? || t.driver.Filed? || t.driver.Ended?) && t.driver.ok ==>
            (a.Judge? && !s.firstErr) ||
            ((s.driver.Returned? || s.driver.Filed? || s.driver.Ended?) && s.driver.ok))
      && (a.SetErr? ==> s.driver == Failing)
      && (s.runCtxDone || a.SetErr? || a.Judge? ==> t.runCtxDone)
      && (t.driver.Returned? || t.driver.Filed? || t.driver.Ended? ==>
            a.Judge? || s.driver.Returned? || s.driver.Filed? || s.driver.Ended?)
  {
    hide IsReservation, IsLowest, After, Free, Broadcasts;
  }

  lemma {:induction false} RunVerdicts(up: seq<byte>, s: State, steps: seq<Step>)
    requires Init(up, s) && Run(up, s, steps).Some?
    ensures Verdicts(Run(up, s, steps).value)
  {
    if steps != [] {
      hide Inv, Init, Enabled, Apply, Verdicts;
      var n := |steps| - 1;
      RunVerdicts(up, s, steps[..n]);
      InitHolds(up, s);
      RunKeeps(up, s, steps[..n]);
      var t := Run(up, s, steps[..n]).value;
      match FillOf(steps[n])
      case Some(i) => FillVerdict(up, t, i, steps[n]);
      case None => FillerVerdict(up, t, steps[n]);
    }
  }

  lemma ReachedVerdicts(up: seq<byte>, s: State)
    requires Reached(up, s)
    ensures Inv(up, s) && Verdicts(s)
  {
    hide Inv, Init, Run, Verdicts;
    Reachable(up, s);
    var s0, steps :| RunsTo(up, s0, steps, s);
    RunVerdicts(up, s0, steps);
  }

  /** runSparse returns nil if and only if every byte is present and no fetch of the filler broke;
      what befell the fetches of seeks does not matter. Otherwise a fetch of the filler broke or the
      job's context ended: the file is never found incomplete for any other reason. Its own context is
      cancelled either way. */
  lemma SucceedsIff(up: seq<byte>, s: State)
    requires Reached(up, s) && Enabled(up, s, Judge)
    ensures var t := Apply(up, s, Judge);
      && t.driver.Returned?
      && (t.driver.ok <==> Complete(s.sf) && !FillerBroke(s.fills))
      && (!t.driver.ok ==> FillerBroke(s.fills) || s.jobCtxDone)
      && t.runCtxDone
  {
    ReachedVerdicts(up, s);
  }

  /** A fetch is cut short only by the end of the job's context, be it the filler's or a seek's. */
  lemma CutByJobOnly(up: seq<byte>, s: State, i: nat)
    requires Reached(up, s) && i < |s.fills| && CutShort(s.fills[i])
    ensures s.jobCtxDone
  {
    ReachedVerdicts(up, s);
  }

  /** What has become of a verdict `ok` of runSparse after some steps, whatever they were. */
  ghost predicate Settled(ok: bool, steps: seq<Step>, t: State) {
    match t.driver
    case Returned(now) => now == ok && !t.entry && !t.sf.done && forall b :: File(b) !in steps
    case Filed(now) => TriedAs(ok, steps, now, t.entry) && !t.sf.done
    case Ended(now) => TriedAs(ok, steps, now, t.entry) && t.sf.done && (t.sf.err.None? <==> now)
    case _ => false
  }

  /** The entry was placed, and all is well, exactly if runSparse succeeded and the rename worked. */
  ghost predicate TriedAs(ok: bool, steps: seq<Step>, now: bool, entry: bool) {
    && (exists b :: File(b) in steps)
    && (forall b :: File(b) in steps ==> (now <==> ok && b) && (entry <==> ok && b))
  }

  /** After runSparse has returned a job is finalized once, and ends without error and with its entry
      in place if and only if runSparse succeeded and the rename worked. */
  lemma {:induction false} EndsAs(up: seq<byte>, s: State, steps: seq<Step>)
    requires Inv(up, s) && s.driver.Returned? && Run(up, s, steps).Some?
    ensures Settled(s.driver.ok, steps, Run(up, s, steps).value)
  {
    hide Inv, Enabled, Apply;
    if steps == [] {
      AtReturn(up, s);
    } else {
      var n := |steps| - 1;
      EndsAs(up, s, steps[..n]);
      RunKeeps(up, s, steps[..n]);
      assert steps == steps[..n] + [steps[n]];
      SettledStep(up, s.driver.ok, steps[..n], Run(up, s, steps[..n]).value, steps[n]);
    }
  }

  lemma AtReturn(up: seq<byte>, s: State)
    requires Inv(up, s) && s.driver.Returned?
    ensures Settled(s.driver.ok, [], s)
  {
  }

  lemma SettledStep(up: seq<byte>, ok: bool, steps: seq<Step>, s: State, a: Step)
    requires Inv(up, s) && Settled(ok, steps, s) && Enabled(up, s, a)
    ensures Settled(ok, steps + [a], Apply(up, s, a))
  {
    hide Shape, Ownership, Publication, Content, Tally, FillStep, Overwrite, Bump, IsReservation, IsLowest, Aligned;
    StepProjects(up, s, a);
    var t := Apply(up, s, a);
    assert forall b :: File(b) in steps + [a] <==> File(b) in steps || a == File(b);
    assert !a.File? ==> t.entry == s.entry;
  }

  // -------------------------------------------------------- how a single fetch ended

  /** What a fill that is leaving, or has left, answers. */
  function AnswerOf(f: Fill): Option<Result> {
    match f.phase
    case Unwinding(r) => Some(r)
    case Leaving(r) => Some(r)
    case Over(r) => Some(r)
    case _ => None
  }

  /** The steps of the i-th fill agree with how it ended: it ended as the step that made it leave said,
      broken where its write failed or found the file closed; and it has left only by such a step. */
  ghost predicate EndsAsToldBy(steps: seq<Step>, fills: seq<Fill>, i: nat) {
    if i >= |fills| then forall a :: a in steps ==> FillOf(a) != Some(i)
    else
      && (forall r :: Stop(i, r) in steps || Abandon(i, r) in steps ==> AnswerOf(fills[i]) == Some(r))
      && (PutFails(i) in steps ==> AnswerOf(fills[i]) == Some(Broken))
      && (forall r :: AnswerOf(fills[i]) == Some(r) ==>
            Stop(i, r) in steps || Abandon(i, r) in steps ||
            (r == Broken && (PutFails(i) in steps || Open(i) in steps)))
  }

  /** On every exit path fillRange answers what made it leave, and keeps to that answer. */
  lemma {:induction false} EndedAsTold(up: seq<byte>, s0: State, steps: seq<Step>, i: nat)
    requires Init(up, s0) && Run(up, s0, steps).Some?
    ensures EndsAsToldBy(steps, Run(up, s0, steps).value.fills, i)
  {
    hide EndsAsToldBy, Enabled, Apply;
    if steps == [] {
      ToldNothing(s0.fills, i);
    } else {
      var n := |steps| - 1;
      EndedAsTold(up, s0, steps[..n], i);
      assert steps == steps[..n] + [steps[n]];
      ToldStep(up, Run(up, s0, steps[..n]).value, steps[..n], steps[n], i);
    }
  }

  lemma ToldNothing(fills: seq<Fill>, i: nat)
    requires fills == []
    ensures EndsAsToldBy([], fills, i)
  {
  }

  lemma ToldStep(up: seq<byte>, s: State, steps: seq<Step>, a: Step, i: nat)
    requires EndsAsToldBy(steps, s.fills, i) && Enabled(up, s, a)
    ensures EndsAsToldBy(steps + [a], Apply(up, s, a).fills, i)
  {
    hide Enabled, Apply, AnswerOf;
    var t := Apply(up, s, a);
    assert forall b :: b in steps + [a] <==> b in steps || b == a;
    if FillOf(a) == Some(i) {
      OwnEnd(up, s, a, i);
      ToldOwn(steps, s.fills, t.fills, a, i);
    } else {
      OtherFills(up, s, a, i);
      NewFillNotEnded(t.fills, i);
      assert forall r :: a != Stop(i, r) && a != Abandon(i, r);
    }
  }

  lemma NewFillNotEnded(fills: seq<Fill>, i: nat)
    ensures i < |fills| && fills[i].phase == Queued ==> AnswerOf(fills[i]) == None
  {
  }

  lemma OtherFills(up: seq<byte>, s: State, a: Step, i: nat)
    requires Enabled(up, s, a) && FillOf(a) != Some(i)
    ensures var t := Apply(up, s, a);
      && (i < |s.fills| ==> i < |t.fills| && t.fills[i] == s.fills[i])
      && (|s.fills| <= i < |t.fills| ==> t.fills[i].phase == Queued)
  {
    match FillOf(a)
    case Some(k) =>
      FillEffects(up, s, k, a);
    case None =>
      var more := FillsAdded(s, a);
      assert |s.fills| <= i < |Apply(up, s, a).fills| ==> Apply(up, s, a).fills[i] == more[i - |s.fills|];
  }

  /** What a fill's own step makes of its answer. */
  predicate Answering(f: Fill, a: Step, g: Fill) {
    var was, now := AnswerOf(f), AnswerOf(g);
    match a
    case Stop(_, res) => was == None && now == Some(res)
    case Abandon(_, res) => was == None && now == Some(res)
    case PutFails(_) => was == None && now == Some(Broken)
    case Open(_) => was == None && (now == None || now == Some(Broken))
    case GiveBack(_) => was == now
    case Drop(_) => was == now
    case _ => was == None && now == None
  }

  lemma OwnEnd(up: seq<byte>, s: State, a: Step, i: nat)
    requires Enabled(up, s, a) && FillOf(a) == Some(i)
    ensures var t := Apply(up, s, a);
      i < |s.fills| == |t.fills| && Answering(s.fills[i], a, t.fills[i])
  {
    hide Overwrite, Bump, After, Clamp, Aligned, DriverStep, DriverApply;
  }

  lemma ToldOwn(steps: seq<Step>, before: seq<Fill>, after: seq<Fill>, a: Step, i: nat)
    requires EndsAsToldBy(steps, before, i) && FillOf(a) == Some(i)
    requires i < |before| == |after| && Answering(before[i], a, after[i])
    ensures EndsAsToldBy(steps + [a], after, i)
  {
    hide AnswerOf;
    assert forall b :: b in steps + [a] <==> b in steps || b == a;
  }

  // -------------------------------------------------------- after the writer is closed

  /** The i-th fill is inside a WriteAt that it was already inside in s. */
  predicate OldWrite(s: State, f: Fill, i: nat) {
    && i < |s.fills| && s.fills[i].phase.Writing?
    && f.iv == s.fills[i].iv && f.pos == s.fills[i].pos && f.phase.Writing? && f.phase.buf == s.fills[i].phase.buf
  }

  /** Once the writer is closed no write begins: whoever writes was inside that very write before. */
  lemma {:induction false} NoWriteOnceClosed(up: seq<byte>, s: State, steps: seq<Step>)
    requires Inv(up, s) && s.sf.closed && Run(up, s, steps).Some?
    ensures var t := Run(up, s, steps).value;
      && t.sf.closed
      && forall i :: 0 <= i < |t.fills| && t.fills[i].phase.Writing? ==> OldWrite(s, t.fills[i], i)
  {
    if steps != [] {
      hide Inv, Enabled, Apply, OldWrite;
      var n := |steps| - 1;
      NoWriteOnceClosed(up, s, steps[..n]);
      RunKeeps(up, s, steps[..n]);
      var t := Run(up, s, steps[..n]).value;
      StepEvolves(up, t, steps[n]);
      var u := Apply(up, t, steps[n]);
      forall i | 0 <= i < |u.fills| && u.fills[i].phase.Writing? ensures OldWrite(s, u.fills[i], i) {
        if FillOf(steps[n]) == Some(i) {
          SameWrite(up, t, steps[n], i);
          OldWriteAgain(s, t.fills[i], u.fills[i], i);
        } else {
          OtherFills(up, t, steps[n], i);
        }
      }
    }
  }

  lemma SameWrite(up: seq<byte>, s: State, a: Step, i: nat)
    requires Enabled(up, s, a) && FillOf(a) == Some(i) && s.sf.closed
    ensures var t := Apply(up, s, a);
      && i < |s.fills| == |t.fills|
      && (t.fills[i].phase.Writing? ==> OldWrite(s, t.fills[i], i))
  {
    hide Overwrite, Bump, After, Clamp, Aligned, DriverStep, DriverApply;
  }

  lemma OldWriteAgain(s: State, f: Fill, g: Fill, i: nat)
    requires OldWrite(s, f, i) && g.iv == f.iv && g.pos == f.pos && g.phase.Writing? && g.phase.buf == f.phase.buf
    ensures OldWrite(s, g, i)
  {
  }
}
