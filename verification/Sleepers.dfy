/** Readers asleep in waitByte, in one of many jobs that share the fetch slots: exactly when such a
    sleep can end without anyone's help from outside. */
module Sleepers {
  import Intervals
  import opened SparseSpec
  import opened FillProtocol
  import opened FillInvariant
  import opened FillSchedules
  import opened FillSlots
  import opened FillWakeups
  import opened WaitByte

  /** All jobs of a manager, with the mutex and the readers of job j. */
  datatype Server = Server(m: Manager, j: nat, lock: Option<nat>, readers: seq<Reader>)

  /** Something happens to job j and its readers, or to another job. */
  datatype Happening = Here(e: Event) | There(v: Move)

  function WorldOf(x: Server): World
    requires x.j < |x.m.jobs|
  {
    World(x.m.jobs[x.j], x.lock, x.readers)
  }

  ghost predicate May(x: Server, h: Happening) {
    x.j < |x.m.jobs| == |x.m.ups| &&
    match h
    case Here(e) =>
      Can(x.m.ups[x.j], WorldOf(x), e) && (e.JobMoves? ==> Allowed(x.m, JobStep(x.j, e.a)))
    case There(v) => Allowed(x.m, v) && (v.JobStep? ==> v.j != x.j)
  }

  ghost function Happened(x: Server, h: Happening): Server
    requires May(x, h)
  {
    match h
    case Here(e) =>
      var w := Next(x.m.ups[x.j], WorldOf(x), e);
      Server(if e.JobMoves? then Moved(x.m, JobStep(x.j, e.a)) else x.m.(jobs := x.m.jobs[x.j := w.job]),
             x.j, w.lock, w.readers)
    case There(v) => x.(m := Moved(x.m, v))
  }

  ghost function Course(x: Server, hs: seq<Happening>): Option<Server> {
    if hs == [] then Some(x)
    else match Course(x, hs[..|hs| - 1])
      case Some(y) => if May(y, hs[|hs| - 1]) then Some(Happened(y, hs[|hs| - 1])) else None
      case None => None
  }

  /** Job j is fresh, whatever the other jobs have come to. */
  ghost predicate Opens(x: Server) {
    Arises(x.m) && x.j < |x.m.jobs| == |x.m.ups| && Start(x.m.ups[x.j], WorldOf(x))
  }

  ghost predicate CourseTo(x0: Server, hs: seq<Happening>, x: Server) { Opens(x0) && Course(x0, hs) == Some(x) }

  ghost predicate ComesAbout(x: Server) {
    exists x0, hs :: CourseTo(x0, hs, x)
  }

  // -------------------------------------------------------- the invariants of both sides hold together

  ghost predicate ServerOk(x: Server) {
    Arises(x.m) && x.j < |x.m.jobs| == |x.m.ups| && WorldOk(x.m.ups[x.j], WorldOf(x))
  }

  lemma WakeIsMove(x: Server, r: nat)
    requires May(x, Here(WakeFor(r)))
    ensures Allowed(x.m, JobStep(x.j, WakeAll))
    ensures Happened(x, Here(WakeFor(r))).m == Moved(x.m, JobStep(x.j, WakeAll))
  {
  }

  lemma ReaderLeavesJob(up: seq<byte>, w: World, e: Event)
    requires Can(up, w, e) && !e.JobMoves? && !e.WakeFor?
    ensures Next(up, w, e).job == w.job
  {
  }

  lemma ServerStep(x: Server, h: Happening)
    requires ServerOk(x) && May(x, h)
    ensures ServerOk(Happened(x, h)) && Happened(x, h).j == x.j
  {
    hide WorldOk, Arises, Can, Next, Init, Enabled, Apply;
    match h
    case Here(JobMoves(a)) =>
      JobMoveKeeps(x.m.ups[x.j], WorldOf(x), a);
      ArisesNext(x.m, JobStep(x.j, a));
      NextJob(x.m.ups[x.j], WorldOf(x), a);
    case Here(WakeFor(r)) =>
      WakeKeeps(x.m.ups[x.j], WorldOf(x), r);
      WakeIsMove(x, r);
      ArisesNext(x.m, JobStep(x.j, WakeAll));
    case Here(e) =>
      ReaderMoveKeeps(x.m.ups[x.j], WorldOf(x), e);
      ReaderLeavesJob(x.m.ups[x.j], WorldOf(x), e);
      assert x.m.jobs[x.j := x.m.jobs[x.j]] == x.m.jobs;
    case There(v) =>
      ArisesNext(x.m, v);
      assert WorldOf(Happened(x, h)) == WorldOf(x);
  }

  lemma NextJob(up: seq<byte>, w: World, a: Step)
    requires Can(up, w, JobMoves(a))
    ensures Enabled(up, w.job, a) && Next(up, w, JobMoves(a)).job == Apply(up, w.job, a)
    ensures Next(up, w, JobMoves(a)).lock == w.lock
    ensures Next(up, w, JobMoves(a)).readers == if Rouses(w.job, a) then AwakenAll(w.readers) else w.readers
  {
  }

  lemma {:induction false} CourseOk(x: Server, hs: seq<Happening>)
    requires ServerOk(x) && Course(x, hs).Some?
    ensures ServerOk(Course(x, hs).value) && Course(x, hs).value.j == x.j
  {
    hide ServerOk, May, Happened;
    if hs != [] {
      var n := |hs| - 1;
      CourseOk(x, hs[..n]);
      ServerStep(Course(x, hs[..n]).value, hs[n]);
    }
  }

  lemma ComesAboutOk(x: Server)
    requires ComesAbout(x)
    ensures ServerOk(x)
  {
    hide Course, Start, WorldOk;
    var x0, hs :| CourseTo(x0, hs, x);
    StartOk(x0.m.ups[x0.j], WorldOf(x0));
    CourseOk(x0, hs);
  }

  lemma ComesNext(x: Server, h: Happening)
    requires ComesAbout(x) && May(x, h)
    ensures ComesAbout(Happened(x, h))
  {
    hide Opens, May, Happened;
    var x0, hs :| CourseTo(x0, hs, x);
    assert (hs + [h])[..|hs|] == hs;
    assert CourseTo(x0, hs + [h], Happened(x, h));
  }

  lemma {:induction false} CourseConcat(x: Server, a: seq<Happening>, b: seq<Happening>)
    requires Course(x, a).Some?
    ensures Course(x, a + b) == Course(Course(x, a).value, b)
    decreases |b|
  {
    hide May, Happened;
    if b == [] {
      assert a + b == a;
    } else {
      var n := |b| - 1;
      CourseConcat(x, a, b[..n]);
      assert (a + b)[..|a + b| - 1] == a + b[..n] && (a + b)[|a + b| - 1] == b[n];
    }
  }

  lemma CourseOne(x: Server, h: Happening)
    requires May(x, h)
    ensures Course(x, [h]) == Some(Happened(x, h))
  {
    assert [h][..0] == [];
    assert Course(x, [h][..0]) == Some(x);
  }

  // -------------------------------------------------------- a sleep that can end

  /** Not a new request for bytes, nor the end of a context or the wake that follows it; other jobs
      do as they like. */
  predicate Inward(h: Happening) {
    h.Here? ==> !h.e.WakeFor? && (h.e.JobMoves? ==> !Outside(h.e.a))
  }

  predicate AllInward(hs: seq<Happening>) { forall k :: 0 <= k < |hs| ==> Inward(hs[k]) }

  ghost predicate AwakeAfter(x: Server, hs: seq<Happening>, r: nat) {
    Course(x, hs).Some? && r < |Course(x, hs).value.readers| && !Course(x, hs).value.readers[r].pc.Sleeping?
  }

  ghost predicate CanEnd(x: Server, r: nat) {
    exists hs :: AllInward(hs) && AwakeAfter(x, hs, r)
  }

  function Checks(pc: Pc, q: nat): Event {
    if pc.AtByte? then CheckByte(q) else if pc.AtCtx? then CheckCtx(q) else CheckDone(q)
  }

  function ChecksLeft(pc: Pc): nat {
    match pc case AtByte(_) => 3 case AtCtx(_) => 2 case AtDone(_) => 1 case _ => 0
  }

  /** Whoever holds the mutex finishes his checks and lets go of it. */
  lemma {:induction false} Unlock(x: Server, r: nat) returns (hs: seq<Happening>, y: Server)
    requires ServerOk(x) && r < |x.readers| && x.readers[r].pc.Sleeping?
    ensures Course(x, hs) == Some(y) && AllInward(hs) && ServerOk(y)
    ensures y.m == x.m && y.j == x.j && y.lock == None && r < |y.readers| && y.readers[r] == x.readers[r]
    decreases if x.lock.Some? && x.lock.value < |x.readers| then ChecksLeft(x.readers[x.lock.value].pc) else 0
  {
    hide Arises, Course, May, Happened, Inv;
    if x.lock == None {
      hs, y := [], x;
      CourseNone(x);
    } else {
      var q := x.lock.value;
      var h, t := CheckStep(x, r);
      CourseOne(x, h);
      var rest;
      rest, y := Unlock(t, r);
      CourseConcat(x, [h], rest);
      hs := [h] + rest;
    }
  }

  lemma CourseNone(x: Server)
    ensures Course(x, []) == Some(x)
  {
  }

  lemma CheckStep(x: Server, r: nat) returns (h: Happening, y: Server)
    requires ServerOk(x) && r < |x.readers| && x.readers[r].pc.Sleeping? && x.lock.Some?
    ensures May(x, h) && Inward(h) && y == Happened(x, h) && ServerOk(y)
    ensures y.m == x.m && y.j == x.j && r < |y.readers| == |x.readers| && y.readers[r] == x.readers[r]
    ensures var q := x.lock.value;
      q < |x.readers| && ChecksLeft(x.readers[q].pc) > 0
      && (y.lock == None || (y.lock == x.lock && ChecksLeft(y.readers[q].pc) < ChecksLeft(x.readers[q].pc)))
  {
    var q := x.lock.value;
    var w := WorldOf(x);
    assert q < |x.readers|;
    assert ReaderOk(w, q);
    h := Here(Checks(x.readers[q].pc, q));
    hide Arises, WorldOk, Init, Enabled, Apply;
    ServerStep(x, h);
    y := Happened(x, h);
    assert x.m.jobs[x.j := x.m.jobs[x.j]] == x.m.jobs;
  }

  /** Moves of the manager seen by the readers of job j while the mutex is free. */
  lemma {:induction false} Lift(x: Server, r: nat, vs: seq<Move>) returns (hs: seq<Happening>, y: Server)
    requires x.lock == None && x.j < |x.m.jobs| == |x.m.ups| && r < |x.readers|
    requires Moves(x.m, vs).Some? && Within(x.j, vs)
    requires x.readers[r].pc.Sleeping? || x.readers[r].pc.Trying?
    ensures Course(x, hs) == Some(y) && AllInward(hs)
    ensures y.m == Moves(x.m, vs).value && y.lock == None && y.j == x.j < |y.m.jobs| == |y.m.ups|
    ensures r < |y.readers| && (y.readers[r].pc.Sleeping? || y.readers[r].pc.Trying?)
  {
    hide Allowed, Moved, May, Happened;
    if vs == [] {
      hs, y := [], x;
    } else {
      var n := |vs| - 1;
      var t;
      hs, t := Lift(x, r, vs[..n]);
      assert Inner(x.j, vs[n]);
      var h;
      h, y := LiftOne(t, r, vs[n]);
      assert (hs + [h])[..|hs|] == hs;
      hs := hs + [h];
    }
  }

  lemma LiftOne(x: Server, r: nat, v: Move) returns (h: Happening, y: Server)
    requires x.lock == None && x.j < |x.m.jobs| == |x.m.ups| && r < |x.readers|
    requires Allowed(x.m, v) && Inner(x.j, v)
    requires x.readers[r].pc.Sleeping? || x.readers[r].pc.Trying?
    ensures May(x, h) && Inward(h) && y == Happened(x, h)
    ensures y.m == Moved(x.m, v) && y.lock == None && y.j == x.j < |y.m.jobs| == |y.m.ups|
    ensures r < |y.readers| && (y.readers[r].pc.Sleeping? || y.readers[r].pc.Trying?)
    ensures v.JobStep? && v.j == x.j && Rouses(x.m.jobs[x.j], v.a) ==> !y.readers[r].pc.Sleeping?
  {
    hide Init, Enabled, Apply, OpOf;
    if v.JobStep? && v.j == x.j {
      h := Here(JobMoves(v.a));
      NextJob(x.m.ups[x.j], WorldOf(x), v.a);
    } else {
      h := There(v);
    }
    y := Happened(x, h);
  }

  /** In a quiet job a reader's sleep goes on. */
  lemma QuietSleepStep(x: Server, r: nat, h: Happening)
    requires ServerOk(x) && r < |x.readers| && x.readers[r].pc.Sleeping? && Quiet(x.m.jobs[x.j])
    requires May(x, h) && Inward(h)
    ensures var y := Happened(x, h);
      && y.j == x.j < |y.m.jobs| && Quiet(y.m.jobs[x.j])
      && r < |y.readers| && y.readers[r].pc.Sleeping?
  {
    ServerStep(x, h);
    assert WorldOk(x.m.ups[x.j], WorldOf(x));
    hide Arises, Quiet, Inv, Init, Enabled, Apply, OpOf;
    var up, w := x.m.ups[x.j], WorldOf(x);
    if h.Here? {
      if h.e.JobMoves? {
        NextJob(up, w, h.e.a);
        QuietStep(up, w.job, h.e.a);
      } else {
        ReaderLeavesJob(up, w, h.e);
      }
    }
  }

  lemma {:induction false} QuietSleep(x: Server, r: nat, hs: seq<Happening>)
    requires ServerOk(x) && r < |x.readers| && x.readers[r].pc.Sleeping? && Quiet(x.m.jobs[x.j])
    requires Course(x, hs).Some? && AllInward(hs)
    ensures var y := Course(x, hs).value;
      && ServerOk(y) && y.j == x.j && Quiet(y.m.jobs[x.j])
      && r < |y.readers| && y.readers[r].pc.Sleeping?
  {
    hide Arises, WorldOk, Quiet, May, Happened;
    if hs != [] {
      var n := |hs| - 1;
      QuietSleep(x, r, hs[..n]);
      var y := Course(x, hs[..n]).value;
      assert Inward(hs[n]);
      ServerStep(y, hs[n]);
      QuietSleepStep(y, r, hs[n]);
    }
  }

  lemma RousedReader(x: Server, r: nat)
    requires ServerOk(x) && r < |x.readers| && x.readers[r].pc.Sleeping? && CanRouse(x.m, x.j)
    ensures CanEnd(x, r)
  {
    hide Arises, WorldOk, Course, May, Happened, Moves, Allowed, Moved, Rouses;
    var vs, a :| Within(x.j, vs) && !Outside(a) && EndsIn(x.m, vs, x.j, a);
    var unlock, u := Unlock(x, r);
    var lifted, t := Lift(u, r, vs);
    CourseConcat(x, unlock, lifted);
    var h, y := LiftOne(t, r, JobStep(x.j, a));
    CourseOne(t, h);
    CourseConcat(x, unlock + lifted, [h]);
    assert AwakeAfter(x, unlock + lifted + [h], r);
  }

  /** A reader's sleep can end without a new seek, the end of a context or the wake that follows it,
      if and only if something of the file is in flight, or the filler is neither asleep nor bound to
      fall asleep. */
  lemma SleepEndsIff(x: Server, r: nat)
    requires ComesAbout(x) && x.m.cap > 0 && r < |x.readers| && x.readers[r].pc.Sleeping?
    ensures x.j < |x.m.jobs|
    ensures var s := x.m.jobs[x.j];
      CanEnd(x, r) <==>
        s.sf.inflight != {} ||
        !(s.driver == Asleep || (s.driver == Napping && !s.jobCtxDone && !s.runCtxDone))
  {
    ComesAboutOk(x);
    SleeperQuiet(x, r);
    RousedIff(x.m, x.j);
    hide ComesAbout, ServerOk, Course, CanRouse, Quiet;
    if Quiet(x.m.jobs[x.j]) {
      forall hs | AllInward(hs) ensures !AwakeAfter(x, hs, r) {
        if Course(x, hs).Some? { QuietSleep(x, r, hs); }
      }
    } else {
      RousedReader(x, r);
    }
  }

  /** With a reader asleep the file lacks a byte and is not done. */
  lemma SleeperQuiet(x: Server, r: nat)
    requires ServerOk(x) && r < |x.readers| && x.readers[r].pc.Sleeping?
    ensures var s := x.m.jobs[x.j];
      Quiet(s) <==>
        (s.sf.inflight == {} && (s.driver == Asleep || (s.driver == Napping && !s.jobCtxDone && !s.runCtxDone)))
  {
    var w := WorldOf(x);
    assert ReaderOk(w, r);
    assert w.job.sf.inflight == {} ==> Free(w.job.sf, x.readers[r].pc.off);
    hide Shape, Ownership, Publication, Content, Tally;
  }

  // -------------------------------------------------------- a reader left behind

  /** A one-byte job alone in its manager, watched by one reader, the mutex free. */
  function Lone(up: seq<byte>, cap: nat, taken: int, s: State, pc: Pc): Server {
    Server(Manager([up], [s], taken, cap), 0, None, [Reader(pc, false, false)])
  }

  /** The job after a seek has taken the byte: where its fill and the filler stand. */
  function AfterSeek(inflight: set<int>, phase: Phase, driver: Driver): State {
    State(Sparse(1, 1, {}, inflight, false, false, None), [0], [Fill(Intervals.Interval(0, 1), 0, true, phase)],
          driver, false, false, false, false, [0], [0])
  }

  lemma LoneStep(up: seq<byte>, cap: nat, taken: int, s: State, a: Step, pc: Pc)
    requires ComesAbout(Lone(up, cap, taken, s, pc)) && !pc.Sleeping?
    requires Enabled(up, s, a) && (a.Acquire? ==> taken < cap)
    ensures ComesAbout(Lone(up, cap, taken + (if a.Acquire? then 1 else 0) - (if a.GiveBack? then 1 else 0),
                            Apply(up, s, a), pc))
  {
    hide ComesAbout, Enabled, Apply, OpOf;
    var x := Lone(up, cap, taken, s, pc);
    var h := Here(JobMoves(a));
    NextJob(up, WorldOf(x), a);
    ComesNext(x, h);
    assert Happened(x, h).readers == x.readers;
    assert x.m.jobs[0 := Apply(up, s, a)] == [Apply(up, s, a)];
  }

  lemma LoneBegins(up: seq<byte>, cap: nat)
    requires |up| == 1
    ensures ComesAbout(Lone(up, cap, 0, Fresh(1, 1), Out))
  {
    var m0 := Manager([], [], 0, cap);
    var v := StartJob(up, Fresh(1, 1));
    MovesOne(m0, v);
    assert MovesTo(m0, [v], Moved(m0, v));
    var x := Lone(up, cap, 0, Fresh(1, 1), Out);
    assert x.m == Moved(m0, v);
    assert CourseTo(x, [], x);
  }

  lemma LoneEvent(up: seq<byte>, cap: nat, taken: int, s: State, x: Server, e: Event, y: Server)
    requires ComesAbout(x) && x.m == y.m == Lone(up, cap, taken, s, Out).m && x.j == y.j == 0
    requires !e.JobMoves? && !e.WakeFor? && Can(up, WorldOf(x), e)
    requires Next(up, WorldOf(x), e) == WorldOf(y)
    ensures ComesAbout(y)
  {
    hide ComesAbout, Can, Next;
    ComesNext(x, Here(e));
    assert x.m.jobs[0 := s] == [s];
  }

  /** The reader asks for the byte, finds it absent, and sleeps. */
  lemma LoneSleeps(up: seq<byte>, cap: nat, taken: int, s: State)
    requires ComesAbout(Lone(up, cap, taken, s, Out))
    requires s.sf.size == 1 && s.sf.present == {} && !s.sf.done
    ensures ComesAbout(Lone(up, cap, taken, s, Sleeping(0)))
  {
    hide ComesAbout;
    var x0 := Lone(up, cap, taken, s, Out);
    var x1 := Lone(up, cap, taken, s, Trying(0));
    var x2 := Lone(up, cap, taken, s, AtByte(0)).(lock := Some(0));
    var x3 := Lone(up, cap, taken, s, AtCtx(0)).(lock := Some(0));
    var x4 := Lone(up, cap, taken, s, AtDone(0)).(lock := Some(0));
    LoneEvent(up, cap, taken, s, x0, Call(0, 0), x1);
    LoneEvent(up, cap, taken, s, x1, Lock(0), x2);
    LoneEvent(up, cap, taken, s, x2, CheckByte(0), x3);
    LoneEvent(up, cap, taken, s, x3, CheckCtx(0), x4);
    LoneEvent(up, cap, taken, s, x4, CheckDone(0), Lone(up, cap, taken, s, Sleeping(0)));
  }

  /** The seek takes the byte and the filler, finding nothing to reserve, is about to sleep. */
  lemma SeekTakesAll(up: seq<byte>, cap: nat)
    requires |up| == 1
    ensures ComesAbout(Lone(up, cap, 0, AfterSeek({0}, Queued, Napping), Out))
  {
    hide ComesAbout;
    var iv := Intervals.Interval(0, 1);
    LoneBegins(up, cap);
    WholeFileReservation(Fresh(1, 1).sf, iv);
    assert Intervals.Bytes([iv]) == {0} by { assert [iv][..0] == []; assert Intervals.Range(0, 1) == {0}; }
    var s1 := AfterSeek({0}, Queued, Checking);
    assert NewFills([iv]) == [NewFill(iv, true)];
    LoneStep(up, cap, 0, Fresh(1, 1), Seek(0, [iv]), Out);
    assert Apply(up, Fresh(1, 1), Seek(0, [iv])) == s1;
    assert !Complete(s1.sf) by { assert 0 in Intervals.Range(0, 1); }
    LoneStep(up, cap, 0, s1, Check(false), Out);
    LoneStep(up, cap, 0, AfterSeek({0}, Queued, Reserving), NoLowest, Out);
  }

  /** Steps of the one fill that change its phase only. */
  lemma PhaseStep(up: seq<byte>, p: Phase, a: Step, q: Phase)
    requires (p == Queued && a == Acquire(0) && q == Holding)
      || (p == Holding && a == Stop(0, Broken) && q == Unwinding(Broken))
      || (p == Unwinding(Broken) && a == GiveBack(0) && q == Leaving(Broken))
    ensures var s := AfterSeek({0}, p, Napping);
      Enabled(up, s, a) && Apply(up, s, a) == AfterSeek({0}, q, Napping)
  {
    var s := AfterSeek({0}, p, Napping);
    assert s.fills[0 := s.fills[0].(phase := q)] == AfterSeek({0}, q, Napping).fills;
  }

  lemma DropStep(up: seq<byte>)
    ensures var s := AfterSeek({0}, Leaving(Broken), Napping);
      Enabled(up, s, Drop(0)) && Apply(up, s, Drop(0)) == AfterSeek({}, Over(Broken), Napping)
  {
    var s := AfterSeek({0}, Leaving(Broken), Napping);
    assert {0} - Intervals.Range(0, 1) == {};
    assert s.fills[0 := s.fills[0].(phase := Over(Broken))] == AfterSeek({}, Over(Broken), Napping).fills;
  }

  /** Its one fetch fails, and gives back slot and reservation. */
  lemma SeekFetchFails(up: seq<byte>, cap: nat)
    requires |up| == 1 && cap > 0
    ensures ComesAbout(Lone(up, cap, 0, AfterSeek({}, Over(Broken), Napping), Out))
  {
    hide ComesAbout, Enabled, Apply, AfterSeek, Lone;
    SeekTakesAll(up, cap);
    PhaseStep(up, Queued, Acquire(0), Holding);
    LoneStep(up, cap, 0, AfterSeek({0}, Queued, Napping), Acquire(0), Out);
    PhaseStep(up, Holding, Stop(0, Broken), Unwinding(Broken));
    LoneStep(up, cap, 1, AfterSeek({0}, Holding, Napping), Stop(0, Broken), Out);
    PhaseStep(up, Unwinding(Broken), GiveBack(0), Leaving(Broken));
    LoneStep(up, cap, 1, AfterSeek({0}, Unwinding(Broken), Napping), GiveBack(0), Out);
    DropStep(up);
    LoneStep(up, cap, 0, AfterSeek({0}, Leaving(Broken), Napping), Drop(0), Out);
  }

  /** A reader can be left behind: after one failed seek fetch it waits for a byte that is free, in an
      unfinished file, every context live, with the filler asleep; and nothing but a new seek or the
      end of a context can end its sleep. */
  lemma ReaderLeftBehind(up: seq<byte>, cap: nat) returns (x: Server)
    requires |up| == 1 && cap > 0
    ensures ComesAbout(x) && x.m.cap == cap && x.j == 0 && |x.m.jobs| == 1
    ensures x.readers == [Reader(Sleeping(0), false, false)] && !CanEnd(x, 0)
    ensures var s := x.m.jobs[0];
      && Free(s.sf, 0) && s.sf.inflight == {} && s.driver == Asleep
      && !s.sf.done && !s.jobCtxDone && !s.runCtxDone
  {
    hide ComesAbout, CanEnd;
    SeekFetchFails(up, cap);
    var s := AfterSeek({}, Over(Broken), Napping);
    LoneSleeps(up, cap, 0, s);
    x := Lone(up, cap, 0, s, Sleeping(0));
    var y := Lone(up, cap, 0, s.(driver := Asleep), Sleeping(0));
    ComesNext(x, Here(JobMoves(Nap)));
    assert Happened(x, Here(JobMoves(Nap))) == y;
    x := y;
    SleepEndsIff(x, 0);
  }
}
