/** Particular schedules of FillProtocol: the filler can miss its wake-up, and an offset can be
    written twice. FillWakeups and FillTheorems have the exact conditions. */
module FillSchedules {
  import opened Intervals
  import opened SparseSpec
  import opened FillProtocol
  import opened FillInvariant
  import opened FillTheorems

  lemma {:induction false} RunConcat(up: seq<byte>, s: State, a: seq<Step>, b: seq<Step>)
    requires Run(up, s, a).Some?
    ensures Run(up, s, a + b) == Run(up, Run(up, s, a).value, b)
    decreases |b|
  {
    hide Enabled, Apply;
    if b == [] {
      assert a + b == a;
    } else {
      var n := |b| - 1;
      RunConcat(up, s, a, b[..n]);
      assert (a + b)[..|a + b| - 1] == a + b[..n] && (a + b)[|a + b| - 1] == b[n];
    }
  }

  lemma RunOne(up: seq<byte>, s: State, a: Step)
    requires Enabled(up, s, a)
    ensures Run(up, s, [a]) == Some(Apply(up, s, a))
  {
    assert [a][..0] == [];
    assert Run(up, s, [a][..0]) == Some(s);
  }

  lemma RunThen(up: seq<byte>, s: State, steps: seq<Step>, t: State, a: Step)
    requires Run(up, s, steps) == Some(t) && Enabled(up, t, a)
    ensures Run(up, s, steps + [a]) == Some(Apply(up, t, a))
  {
    RunOne(up, t, a);
    RunConcat(up, s, steps, [a]);
  }

  // -------------------------------------------------------- a job that has gone quiet

  /** A step that comes from outside: a reader asks for bytes, a context ends, or what watches a
      context wakes the sleepers. */
  predicate Outside(a: Step) { a.Seek? || a.CancelJob? || a.WakeAll? }

  /** A step whose critical section broadcasts. */
  predicate Rouses(s: State, a: Step) { OpOf(s, a).Some? && Broadcasts(OpOf(s, a).value) }

  /** Nothing is in flight, and the filler is asleep, or bound to fall asleep, or gone. */
  ghost predicate Quiet(s: State) {
    s.sf.inflight == {} &&
    (s.driver == Asleep || s.driver.Ended? ||
     (!s.jobCtxDone && !s.runCtxDone &&
      (s.driver == Napping || (s.driver == Reserving && forall o :: !Free(s.sf, o)))))
  }

  lemma QuietStep(up: seq<byte>, s: State, a: Step)
    requires Inv(up, s) && Quiet(s) && Enabled(up, s, a) && !Outside(a)
    ensures var t := Apply(up, s, a);
      Quiet(t) && !Rouses(s, a) && t.sf == s.sf && (s.driver == Asleep ==> t.driver == Asleep)
  {
    InflightIffLive(up, s);
    hide Shape, Ownership, Publication, Content, Tally;
    assert a.Lowest? ==> !Free(s.sf, a.iv.start);
  }

  /** A quiet job stays quiet by itself, and does nothing that would wake anyone. */
  lemma {:induction false} QuietStays(up: seq<byte>, s: State, steps: seq<Step>)
    requires Inv(up, s) && Quiet(s) && Run(up, s, steps).Some?
    requires forall k :: 0 <= k < |steps| ==> !Outside(steps[k])
    ensures var t := Run(up, s, steps).value;
      Quiet(t) && t.sf == s.sf && (s.driver == Asleep ==> t.driver == Asleep)
  {
    if steps != [] {
      hide Inv, Quiet, Enabled, Apply;
      var n := |steps| - 1;
      QuietStays(up, s, steps[..n]);
      RunKeeps(up, s, steps[..n]);
      QuietStep(up, Run(up, s, steps[..n]).value, steps[n]);
    }
  }

  // -------------------------------------------------------- one fill's full delivery

  /** Where a queued fill stands once its whole range has been read, written and shown. */
  ghost function Delivered(up: seq<byte>, s: State, i: nat): State
    requires i < |s.fills| && 0 <= s.fills[i].pos <= s.fills[i].iv.end <= |up|
  {
    var f := s.fills[i];
    var buf := up[f.pos..f.iv.end];
    SetFill(Touch(s, Publish(f.pos, f.iv.end)), i, f.(pos := f.iv.end, phase := Holding)).(
      disk := Overwrite(s.disk, f.pos, buf, 0, |buf|), hits := Bump(s.hits, f.pos, f.iv.end))
  }

  lemma SetTwice(s: State, i: nat, f: Fill, g: Fill)
    requires i < |s.fills|
    ensures SetFill(SetFill(s, i, f), i, g) == SetFill(s, i, g)
  {
    assert s.fills[i := f][i := g] == s.fills[i := g];
  }

  lemma ReadWhole(up: seq<byte>, s: State, i: nat)
    requires i < |s.fills| && s.fills[i].phase == Queued && !s.sf.closed
    requires 0 <= s.fills[i].pos < s.fills[i].iv.end <= |up|
    ensures var buf := up[s.fills[i].pos..s.fills[i].iv.end];
      Run(up, s, [Acquire(i), Read(i, buf), Open(i)]) == Some(SetPhase(s, i, Writing(buf, 0)))
  {
    hide Run;
    var f := s.fills[i];
    var buf := up[f.pos..f.iv.end];
    RunOne(up, s, Acquire(i));
    var t1, t2 := SetPhase(s, i, Holding), SetPhase(s, i, Got(buf));
    ReadStep(up, s, i, f);
    assert [Acquire(i)] + [Read(i, buf)] == [Acquire(i), Read(i, buf)];
    RunThen(up, s, [Acquire(i)], t1, Read(i, buf));
    assert [Acquire(i), Read(i, buf)] + [Open(i)] == [Acquire(i), Read(i, buf), Open(i)];
    RunThen(up, s, [Acquire(i), Read(i, buf)], t2, Open(i));
    SetTwice(s, i, f.(phase := Got(buf)), f.(phase := Writing(buf, 0)));
  }

  lemma ReadStep(up: seq<byte>, s: State, i: nat, f: Fill)
    requires i < |s.fills| && s.fills[i] == f && 0 <= f.pos < f.iv.end <= |up|
    ensures var t, a := SetPhase(s, i, Holding), Read(i, up[f.pos..f.iv.end]);
      Enabled(up, t, a) && Apply(up, t, a) == SetPhase(s, i, Got(up[f.pos..f.iv.end]))
  {
    var buf := up[f.pos..f.iv.end];
    assert Clamp(f.(phase := Holding), buf) == buf;
    SetTwice(s, i, f.(phase := Holding), f.(phase := Got(buf)));
  }

  ghost function OnDisk(up: seq<byte>, s: State, i: nat): State
    requires i < |s.fills| && 0 <= s.fills[i].pos <= s.fills[i].iv.end <= |up|
  {
    var f := s.fills[i];
    var buf := up[f.pos..f.iv.end];
    SetPhase(s, i, Writing(buf, |buf|)).(
      disk := Overwrite(s.disk, f.pos, buf, 0, |buf|), hits := Bump(s.hits, f.pos, f.iv.end))
  }

  lemma PutWhole(up: seq<byte>, s: State, i: nat)
    requires i < |s.fills| && 0 <= s.fills[i].pos < s.fills[i].iv.end <= |up|
    ensures var buf := up[s.fills[i].pos..s.fills[i].iv.end];
      Run(up, SetPhase(s, i, Writing(buf, 0)), [Put(i, |buf|)]) == Some(OnDisk(up, s, i))
  {
    hide Run;
    var f := s.fills[i];
    var buf := up[f.pos..f.iv.end];
    RunOne(up, SetPhase(s, i, Writing(buf, 0)), Put(i, |buf|));
    SetTwice(s, i, f.(phase := Writing(buf, 0)), f.(phase := Writing(buf, |buf|)));
  }

  lemma ShowRun(up: seq<byte>, t: State, i: nat, f: Fill)
    requires i < |t.fills| && t.fills[i] == f && f.pos <= f.iv.end
    requires f.phase.Writing? && f.phase.k == |f.phase.buf| == f.iv.end - f.pos
    ensures Run(up, t, [Show(i)]) ==
      Some(SetFill(Touch(t, Publish(f.pos, f.iv.end)), i, f.(pos := f.iv.end, phase := Holding)))
  {
    hide Run;
    RunOne(up, t, Show(i));
  }

  lemma ShowWhole(up: seq<byte>, s: State, i: nat)
    requires i < |s.fills| && 0 <= s.fills[i].pos < s.fills[i].iv.end <= |up|
    ensures Run(up, OnDisk(up, s, i), [Show(i)]) == Some(Delivered(up, s, i))
  {
    hide Run, Overwrite, Bump, After;
    var t := OnDisk(up, s, i);
    ShowRun(up, t, i, t.fills[i]);
    assert t.fills[i := Delivered(up, s, i).fills[i]] == Delivered(up, s, i).fills;
  }

  lemma DeliverRun(up: seq<byte>, s: State, i: nat) returns (steps: seq<Step>)
    requires i < |s.fills| && s.fills[i].phase == Queued && !s.sf.closed
    requires 0 <= s.fills[i].pos < s.fills[i].iv.end <= |up|
    ensures Run(up, s, steps) == Some(Delivered(up, s, i))
  {
    hide Run;
    var buf := up[s.fills[i].pos..s.fills[i].iv.end];
    ReadWhole(up, s, i);
    PutWhole(up, s, i);
    RunConcat(up, s, [Acquire(i), Read(i, buf), Open(i)], [Put(i, |buf|)]);
    ShowWhole(up, s, i);
    RunConcat(up, s, [Acquire(i), Read(i, buf), Open(i)] + [Put(i, |buf|)], [Show(i)]);
    steps := [Acquire(i), Read(i, buf), Open(i)] + [Put(i, |buf|)] + [Show(i)];
  }

  /** The way out of a fill that holds a slot. */
  lemma ExitRun(up: seq<byte>, s: State, i: nat, res: Result)
    requires i < |s.fills| && s.fills[i].pos <= s.fills[i].iv.end && s.fills[i].phase == Unwinding(res)
    requires s.driver != Filling(i) && s.driver != Asleep
    ensures Run(up, s, [GiveBack(i), Drop(i)]) ==
      Some(SetPhase(s.(sf := After(s.sf, Release(s.fills[i].iv))), i, Over(res)))
  {
    hide Run;
    var f := s.fills[i];
    var t := SetPhase(s, i, Leaving(res));
    RunOne(up, s, GiveBack(i));
    RunThen(up, s, [GiveBack(i)], t, Drop(i));
    SetTwice(s, i, f.(phase := Leaving(res)), f.(phase := Over(res)));
    assert [GiveBack(i)] + [Drop(i)] == [GiveBack(i), Drop(i)];
  }

  // -------------------------------------------------------- the filler misses its wake-up

  function Fresh(size: nat, chunk: int): State {
    State(Sparse(size, chunk, {}, {}, false, false, None), seq(size, _ => 0), [], Checking,
          false, false, false, false, seq(size, _ => 0), seq(size, _ => 0))
  }

  /** A seek takes the file's only byte, then the filler looks and finds nothing to reserve. */
  lemma SeekThenNothing(up: seq<byte>) returns (steps: seq<Step>, s: State)
    requires |up| == 1
    ensures Init(up, Fresh(1, 1)) && Run(up, Fresh(1, 1), steps) == Some(s)
    ensures s == Fresh(1, 1).(sf := s.sf, fills := [NewFill(Interval(0, 1), true)], driver := Napping)
    ensures s.sf == Fresh(1, 1).sf.(inflight := s.sf.inflight)
  {
    hide Run;
    var iv := Interval(0, 1);
    var s0 := Fresh(1, 1);
    WholeFileReservation(s0.sf, iv);
    RunOne(up, s0, Seek(0, [iv]));
    var s1 := Apply(up, s0, Seek(0, [iv]));
    assert NewFills([iv]) == [NewFill(iv, true)];
    assert 0 in Range(0, 1);
    RunThen(up, s0, [Seek(0, [iv])], s1, Check(false));
    var s2 := Apply(up, s1, Check(false));
    RunThen(up, s0, [Seek(0, [iv])] + [Check(false)], s2, NoLowest);
    s := Apply(up, s2, NoLowest);
    steps := [Seek(0, [iv])] + [Check(false)] + [NoLowest];
  }

  lemma WholeFileReservation(sf: Sparse, iv: Interval)
    requires sf.size > 0 && sf.present == {} == sf.inflight && iv == Interval(0, sf.size) && sf.chunk == sf.size
    ensures IsReservation(sf, 0, sf.chunk, [iv]) && IsLowest(sf, iv)
    ensures forall o :: !Free(After(sf, Reserve([iv])), o)
  {
    assert Bytes([iv]) == Range(0, sf.size) by { assert [iv][..0] == []; }
  }

  /** The fill that took it delivers it and ends, with the filler still about to sleep. */
  lemma LastFillEnds(up: seq<byte>) returns (steps: seq<Step>, s: State)
    requires |up| == 1
    ensures Init(up, Fresh(1, 1)) && Run(up, Fresh(1, 1), steps) == Some(s)
    ensures s.driver == Napping && !s.jobCtxDone && !s.runCtxDone && !s.sf.done && Complete(s.sf)
    ensures |s.fills| == 1 && !Live(s.fills[0])
  {
    hide Run;
    var s0 := Fresh(1, 1);
    var before, t := SeekThenNothing(up);
    var deliver := DeliverRun(up, t, 0);
    var s1 := Delivered(up, t, 0);
    RunConcat(up, s0, before, deliver);
    RunThen(up, s0, before + deliver, s1, Stop(0, Fine));
    var s2 := SetPhase(s1, 0, Unwinding(Fine));
    ExitRun(up, s2, 0, Fine);
    RunConcat(up, s0, before + deliver + [Stop(0, Fine)], [GiveBack(0), Drop(0)]);
    steps := before + deliver + [Stop(0, Fine)] + [GiveBack(0), Drop(0)];
    s := Run(up, s2, [GiveBack(0), Drop(0)]).value;
  }

  /** The check of runSparse and its sleep are not one critical section: a run in which the last
      fill ends between them leaves the filler asleep with every byte present, nothing in flight,
      and no way for the job to wake it by itself. */
  lemma FillerMissesWakeUp(up: seq<byte>) returns (steps: seq<Step>)
    requires |up| == 1
    ensures Init(up, Fresh(1, 1)) && Run(up, Fresh(1, 1), steps).Some?
    ensures var s := Run(up, Fresh(1, 1), steps).value;
      && s.driver == Asleep && Complete(s.sf) && !s.sf.done && Quiet(s)
      && forall more :: Run(up, s, more).Some? && (forall k :: 0 <= k < |more| ==> !Outside(more[k])) ==>
           Run(up, s, more).value.driver == Asleep
  {
    hide Run, Inv;
    var before, s := LastFillEnds(up);
    RunThen(up, Fresh(1, 1), before, s, Nap);
    steps := before + [Nap];
    var t := s.(driver := Asleep);
    assert RunsTo(up, Fresh(1, 1), steps, t);
    Reachable(up, t);
    InflightIffLive(up, t);
    assert forall i :: 0 <= i < |t.fills| ==> !Live(t.fills[i]);
    assert forall o :: o !in t.sf.inflight;
    forall more | Run(up, t, more).Some? && (forall k :: 0 <= k < |more| ==> !Outside(more[k]))
      ensures Run(up, t, more).value.driver == Asleep
    {
      QuietStays(up, t, more);
    }
  }

  // -------------------------------------------------------- an offset written twice

  function SeekState(taken: set<int>, phase: Phase, disk: seq<byte>, hits: seq<nat>, lost: seq<nat>): State {
    State(Sparse(2, 2, {}, taken, false, false, None), disk, [Fill(Interval(0, 2), 0, true, phase)], Checking,
          false, false, false, false, hits, lost)
  }

  /** A seek reserves both bytes of a file, reads them, and is about to write. */
  lemma SeekOpens(up: seq<byte>) returns (steps: seq<Step>)
    requires |up| == 2
    ensures Init(up, Fresh(2, 2))
    ensures Run(up, Fresh(2, 2), steps) == Some(SeekState(Range(0, 2), Writing(up[0..2], 0), [0, 0], [0, 0], [0, 0]))
  {
    hide Run;
    var s0, iv := Fresh(2, 2), Interval(0, 2);
    WholeFileReservation(s0.sf, iv);
    RunOne(up, s0, Seek(0, [iv]));
    var s1 := Apply(up, s0, Seek(0, [iv]));
    assert NewFills([iv]) == [NewFill(iv, true)];
    assert Bytes([iv]) == Range(0, 2) by { assert [iv][..0] == []; }
    assert s1 == SeekState(Range(0, 2), Queued, [0, 0], [0, 0], [0, 0]);
    ReadWhole(up, s1, 0);
    var open := [Acquire(0), Read(0, up[0..2]), Open(0)];
    RunConcat(up, s0, [Seek(0, [iv])], open);
    steps := [Seek(0, [iv])] + open;
    var s2 := SetPhase(s1, 0, Writing(up[0..2], 0));
    assert s2.fills == [Fill(iv, 0, true, Writing(up[0..2], 0))];
    assert s2 == SeekState(Range(0, 2), Writing(up[0..2], 0), [0, 0], [0, 0], [0, 0]);
  }

  /** Its WriteAt puts one byte of the two on disk and fails; the fill lets go of the range. */
  lemma HalfWriteFails(up: seq<byte>) returns (steps: seq<Step>, s: State)
    requires |up| == 2
    ensures Init(up, Fresh(2, 2)) && Run(up, Fresh(2, 2), steps) == Some(s)
    ensures s == SeekState({}, Over(Broken), [up[0], 0], [1, 0], [1, 0])
  {
    hide Run;
    var s0, buf, first := Fresh(2, 2), up[0..2], [up[0], 0];
    var readSteps := SeekOpens(up);
    var s2 := SeekState(Range(0, 2), Writing(buf, 0), [0, 0], [0, 0], [0, 0]);
    RunThen(up, s0, readSteps, s2, Put(0, 1));
    var s3 := SeekState(Range(0, 2), Writing(buf, 1), first, [1, 0], [0, 0]);
    assert Overwrite(s2.disk, 0, buf, 0, 1) == first && Bump([0, 0], 0, 1) == [1, 0];
    assert Apply(up, s2, Put(0, 1)) == s3;
    RunThen(up, s0, readSteps + [Put(0, 1)], s3, PutFails(0));
    var s4 := SeekState(Range(0, 2), Unwinding(Broken), first, [1, 0], [1, 0]);
    assert Apply(up, s3, PutFails(0)) == s4;
    ExitRun(up, s4, 0, Broken);
    RunConcat(up, s0, readSteps + [Put(0, 1)] + [PutFails(0)], [GiveBack(0), Drop(0)]);
    steps := readSteps + [Put(0, 1)] + [PutFails(0)] + [GiveBack(0), Drop(0)];
    s := Run(up, s4, [GiveBack(0), Drop(0)]).value;
  }

  /** So "written at most once" is false when a disk write fails half way: the filler's retry
      writes the same offset again. `WriteOnceIff` says exactly when it holds. */
  lemma OffsetWrittenTwice(up: seq<byte>) returns (steps: seq<Step>)
    requires |up| == 2
    ensures Init(up, Fresh(2, 2)) && Run(up, Fresh(2, 2), steps).Some?
    ensures var s := Run(up, Fresh(2, 2), steps).value; Complete(s.sf) && |s.hits| == 2 && s.hits[0] == 2
  {
    hide Run;
    var s0, iv := Fresh(2, 2), Interval(0, 2);
    var before, s := HalfWriteFails(up);
    assert 0 in Range(0, 2);
    RunThen(up, s0, before, s, Check(false));
    var s1 := Apply(up, s, Check(false));
    WholeFileReservation(s1.sf, iv);
    RunThen(up, s0, before + [Check(false)], s1, Lowest(iv));
    var s2 := Apply(up, s1, Lowest(iv));
    assert s2.fills[1] == NewFill(iv, false);
    var deliver := DeliverRun(up, s2, 1);
    RunConcat(up, s0, before + [Check(false)] + [Lowest(iv)], deliver);
    steps := before + [Check(false)] + [Lowest(iv)] + deliver;
  }
}
