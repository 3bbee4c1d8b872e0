/** What can still wake the sleepers of a job, with all jobs sharing the semaphore of fetch slots. */
module FillWakeups {
  import opened Intervals
  import opened SparseSpec
  import opened FillProtocol
  import opened FillInvariant
  import opened FillTheorems
  import opened FillSchedules
  import opened FillSlots

  ghost predicate MovesTo(m0: Manager, vs: seq<Move>, m: Manager) {
    m0.ups == [] && m0.jobs == [] && m0.taken == 0 && Moves(m0, vs) == Some(m)
  }

  /** Some run of all jobs together, from an empty manager, ends in m. */
  ghost predicate Arises(m: Manager) {
    exists m0, vs :: MovesTo(m0, vs, m)
  }

  ghost predicate Good(m: Manager) {
    SlotsOk(m) && forall j :: 0 <= j < |m.jobs| ==> Inv(m.ups[j], m.jobs[j])
  }

  lemma ArisesGood(m: Manager)
    requires Arises(m)
    ensures Good(m)
  {
    hide Inv, Moves;
    var m0, vs :| MovesTo(m0, vs, m);
    SlotsNeverExceeded(m0, vs);
    JobsKeepInvariant(m0, vs);
  }

  lemma GoodMove(m: Manager, v: Move)
    requires Good(m) && Allowed(m, v)
    ensures Good(Moved(m, v))
  {
    hide Inv, Init, Enabled, Apply, SlotsOk;
    MoveKeepsSlots(m, v);
    assert |m.ups| == |m.jobs| && |Moved(m, v).ups| == |Moved(m, v).jobs|;
    match v
    case StartJob(up, job) => InitHolds(up, job);
    case JobStep(j, a) => StepKeeps(m.ups[j], m.jobs[j], a);
  }

  lemma {:induction false} MovesConcat(m: Manager, a: seq<Move>, b: seq<Move>)
    requires Moves(m, a).Some?
    ensures Moves(m, a + b) == Moves(Moves(m, a).value, b)
    decreases |b|
  {
    hide Allowed, Moved;
    if b == [] {
      assert a + b == a;
    } else {
      var n := |b| - 1;
      MovesConcat(m, a, b[..n]);
      assert (a + b)[..|a + b| - 1] == a + b[..n] && (a + b)[|a + b| - 1] == b[n];
    }
  }

  lemma MovesOne(m: Manager, v: Move)
    requires Allowed(m, v)
    ensures Moves(m, [v]) == Some(Moved(m, v))
  {
    assert [v][..0] == [];
    assert Moves(m, [v][..0]) == Some(m);
  }

  // -------------------------------------------------------- a fill on its way out

  function Distance(f: Fill): nat {
    match f.phase
    case Got(_) => 6
    case Queued => 5
    case Writing(_, _) => 4
    case Holding => 3
    case Unwinding(_) => 2
    case Leaving(_) => 1
    case Over(_) => 0
  }

  function TowardsExit(f: Fill, i: nat): Step {
    match f.phase
    case Got(_) => Open(i)
    case Queued => Acquire(i)
    case Holding => Stop(i, Broken)
    case Writing(buf, k) => if k < |buf| then PutFails(i) else Show(i)
    case Unwinding(_) => GiveBack(i)
    case Leaving(_) => Drop(i)
    case Over(_) => Drop(i)
  }

  lemma ExitStep(up: seq<byte>, s: State, i: nat)
    requires Shape(up, s) && i < |s.fills| && Live(s.fills[i])
    ensures var f := s.fills[i];
      var a := TowardsExit(f, i);
      && Enabled(up, s, a) && FillOf(a) == Some(i)
      && (a.Acquire? <==> f.phase.Queued?) && (a.GiveBack? <==> f.phase.Unwinding?)
      && (a.Drop? <==> f.phase.Leaving?) && (a.Drop? ==> Rouses(s, a))
  {
    assert FillOk(up, s.sf, s.fills[i]);
  }

  /** How close to its end a fill is after a step towards it. */
  predicate Nearer(f: Fill, g: Fill) {
    && Live(g) && Distance(g) < Distance(f) && !g.phase.Queued?
    && (HoldsSlot(f) && !f.phase.Unwinding? ==> HoldsSlot(g))
  }

  lemma ExitNearer(up: seq<byte>, s: State, i: nat)
    requires i < |s.fills| && Live(s.fills[i]) && !s.fills[i].phase.Leaving?
    requires Enabled(up, s, TowardsExit(s.fills[i], i))
    ensures var t := Apply(up, s, TowardsExit(s.fills[i], i));
      i < |t.fills| && Nearer(s.fills[i], t.fills[i])
  {
    hide Overwrite, Bump, After, Broadcasts, Complete, IsReservation, IsLowest, Free, DriverStep, DriverApply, Aligned;
    var f := s.fills[i];
    var a := TowardsExit(f, i);
    assert FillOf(a) == Some(i);
    var g := FillApply(up, s, i, a).fills[i];
    match f.phase
    case Got(buf) => assert g.phase == Unwinding(Broken) || g.phase == Writing(buf, 0);
    case Queued => assert g.phase == Holding;
    case Writing(_, _) => assert g.phase == Holding || g.phase == Unwinding(Broken);
    case Holding => assert g.phase == Unwinding(Broken);
    case Unwinding(res) => assert g.phase == Leaving(res);
  }

  /** Only the i-th fill of job j has moved. */
  ghost predicate StepsOut(m: Manager, j: nat, i: nat, t: Manager) {
    && j < |m.jobs| == |t.jobs| && i < |m.jobs[j].fills| == |t.jobs[j].fills|
    && t.cap == m.cap
    && (forall k :: 0 <= k < |m.jobs| && k != j ==> t.jobs[k] == m.jobs[k])
    && t.jobs[j].fills == m.jobs[j].fills[i := t.jobs[j].fills[i]]
  }

  lemma ExitMove(m: Manager, j: nat, i: nat) returns (v: Move, t: Manager)
    requires Good(m) && j < |m.jobs| && i < |m.jobs[j].fills| && Live(m.jobs[j].fills[i])
    requires m.jobs[j].fills[i].phase.Queued? ==> m.taken < m.cap
    requires !m.jobs[j].fills[i].phase.Leaving?
    ensures v == JobStep(j, TowardsExit(m.jobs[j].fills[i], i)) && ByFill(v)
    ensures Allowed(m, v) && t == Moved(m, v) && Good(t) && StepsOut(m, j, i, t)
    ensures Nearer(m.jobs[j].fills[i], t.jobs[j].fills[i])
    ensures m.jobs[j].fills[i].phase.Unwinding? ==> t.taken == m.taken - 1
  {
    var up, s := m.ups[j], m.jobs[j];
    v := JobStep(j, TowardsExit(s.fills[i], i));
    assert Shape(up, s) by { assert Inv(up, s); }
    hide Inv, SlotsOk;
    ExitStep(up, s, i);
    ExitNearer(up, s, i);
    hide Enabled, Apply, TowardsExit, Nearer;
    t := Moved(m, v);
    GoodMove(m, v);
    FillStepSets(up, s, i, v.a);
  }

  // -------------------------------------------------------- a slot becomes free

  lemma {:induction false} SomeHolder(fills: seq<Fill>) returns (i: nat)
    requires Holders(fills) > 0
    ensures i < |fills| && HoldsSlot(fills[i])
  {
    var n := |fills| - 1;
    if HoldsSlot(fills[n]) { i := n; } else { i := SomeHolder(fills[..n]); }
  }

  lemma {:induction false} SomeJobHolds(jobs: seq<State>) returns (j: nat, i: nat)
    requires AllHolders(jobs) > 0
    ensures j < |jobs| && i < |jobs[j].fills| && HoldsSlot(jobs[j].fills[i])
  {
    var n := |jobs| - 1;
    if Holders(jobs[n].fills) > 0 {
      j := n;
      i := SomeHolder(jobs[n].fills);
    } else {
      j, i := SomeJobHolds(jobs[..n]);
    }
  }

  ghost predicate ByFill(v: Move) { v.JobStep? && FillOf(v.a).Some? }

  ghost predicate ByFills(vs: seq<Move>) { forall k :: 0 <= k < |vs| ==> ByFill(vs[k]) }

  lemma HolderMoves(f: Fill)
    requires HoldsSlot(f)
    ensures Live(f) && !f.phase.Queued? && !f.phase.Leaving?
  {
  }

  lemma Bystander(m: Manager, k: nat, h: nat, t: Manager, j: nat, i: nat)
    requires StepsOut(m, k, h, t) && j < |m.jobs| && i < |m.jobs[j].fills| && (j, i) != (k, h)
    ensures j < |t.jobs| && i < |t.jobs[j].fills| && t.jobs[j].fills[i] == m.jobs[j].fills[i]
  {
  }

  /** A fill holding a slot can give it back, and the i-th fill of job j waits meanwhile. */
  lemma {:induction false} GiveUpSlot(m: Manager, k: nat, h: nat, j: nat, i: nat) returns (vs: seq<Move>, t: Manager)
    requires Good(m) && k < |m.jobs| && h < |m.jobs[k].fills| && HoldsSlot(m.jobs[k].fills[h])
    requires j < |m.jobs| && i < |m.jobs[j].fills| && (j, i) != (k, h)
    ensures Moves(m, vs) == Some(t) && ByFills(vs) && Good(t) && t.taken < t.cap == m.cap
    ensures j < |t.jobs| && i < |t.jobs[j].fills| && t.jobs[j].fills[i] == m.jobs[j].fills[i]
    decreases Distance(m.jobs[k].fills[h])
  {
    hide Inv, Moves, Allowed, Moved, TowardsExit, HoldsSlot, Live, Distance, StepsOut, AllHolders;
    HolderMoves(m.jobs[k].fills[h]);
    var v, u := ExitMove(m, k, h);
    Bystander(m, k, h, u, j, i);
    MovesOne(m, v);
    assert k < |u.jobs| && h < |u.jobs[k].fills| && u.cap == m.cap by { OutShape(m, k, h, u); }
    if m.jobs[k].fills[h].phase.Unwinding? {
      vs, t := [v], u;
    } else {
      var rest;
      rest, t := GiveUpSlot(u, k, h, j, i);
      MovesConcat(m, [v], rest);
      vs := [v] + rest;
    }
  }

  lemma OutShape(m: Manager, k: nat, h: nat, t: Manager)
    requires StepsOut(m, k, h, t)
    ensures k < |t.jobs| && h < |t.jobs[k].fills| && t.cap == m.cap
  {
  }

  // -------------------------------------------------------- a broadcast comes

  /** After the moves `vs` job j can take the step a, whose critical section broadcasts. */
  ghost predicate EndsIn(m: Manager, vs: seq<Move>, j: nat, a: Step) {
    Moves(m, vs).Some? &&
    var t := Moves(m, vs).value;
    j < |t.jobs| && Allowed(t, JobStep(j, a)) && Rouses(t.jobs[j], a)
  }

  lemma EndsLater(m: Manager, first: seq<Move>, vs: seq<Move>, j: nat, a: Step)
    requires Moves(m, first).Some? && EndsIn(Moves(m, first).value, vs, j, a)
    ensures EndsIn(m, first + vs, j, a)
  {
    MovesConcat(m, first, vs);
  }

  /** As long as a fill of the job is live, fills alone can bring a broadcast about: a fill that waits
      for a slot gets one, since whoever holds them can give them back. */
  lemma {:induction false} LiveFillRouses(m: Manager, j: nat, i: nat) returns (vs: seq<Move>, a: Step)
    requires Good(m) && m.cap > 0 && j < |m.jobs| && i < |m.jobs[j].fills| && Live(m.jobs[j].fills[i])
    ensures ByFills(vs) && FillOf(a).Some? && EndsIn(m, vs, j, a)
    decreases Distance(m.jobs[j].fills[i]), if m.taken < m.cap then 0 else 1
  {
    hide Inv, Moves, Allowed, Moved, TowardsExit, HoldsSlot, Live, Distance, StepsOut, AllHolders, EndsIn;
    var f := m.jobs[j].fills[i];
    if f.phase.Leaving? {
      vs, a := [], Drop(i);
      LeavingRouses(m, j, i);
    } else {
      var first, t;
      if f.phase.Queued? && m.taken == m.cap {
        var k, h := SomeJobHolds(m.jobs);
        QueuedHoldsNone(f);
        first, t := GiveUpSlot(m, k, h, j, i);
      } else {
        var v;
        v, t := ExitMove(m, j, i);
        OutShape(m, j, i, t);
        first := [v];
        MovesOne(m, v);
      }
      var rest;
      rest, a := LiveFillRouses(t, j, i);
      EndsLater(m, first, rest, j, a);
      vs := first + rest;
    }
  }

  lemma QueuedHoldsNone(f: Fill)
    requires f.phase.Queued?
    ensures !HoldsSlot(f)
  {
  }

  lemma LeavingRouses(m: Manager, j: nat, i: nat)
    requires Good(m) && j < |m.jobs| && i < |m.jobs[j].fills| && m.jobs[j].fills[i].phase.Leaving?
    ensures EndsIn(m, [], j, Drop(i))
  {
    assert Shape(m.ups[j], m.jobs[j]) by { assert Inv(m.ups[j], m.jobs[j]); }
    ExitStep(m.ups[j], m.jobs[j], i);
  }

  // -------------------------------------------------------- the filler, with nothing in flight

  /** The least free byte begins a piece the filler can reserve. */
  lemma LowestExists(sf: Sparse) returns (iv: Interval)
    requires sf.chunk > 0 && exists o :: Free(sf, o)
    ensures IsLowest(sf, iv)
  {
    var o :| Free(sf, o);
    var lo := 0;
    while !Free(sf, lo)
      invariant 0 <= lo <= o && forall p :: 0 <= p < lo ==> !Free(sf, p)
      decreases o - lo
    {
      lo := lo + 1;
    }
    var hi := lo + 1;
    while hi - lo < sf.chunk && Free(sf, hi)
      invariant lo < hi <= sf.size && hi - lo <= sf.chunk && forall p :: lo <= p < hi ==> Free(sf, p)
      decreases sf.size - hi
    {
      hi := hi + 1;
    }
    iv := Interval(lo, hi);
  }

  /** What the filler does next where it has nothing to reserve. */
  ghost function FillerNext(s: State): Step {
    match s.driver
    case Checking => Check(s.jobCtxDone || s.runCtxDone || Complete(s.sf))
    case Reserving => NoLowest
    case Napping => Nap
    case Failing => SetErr
    case Closing => CloseFile
    case Judging => Judge
    case Returned(_) => File(false)
    case _ => Finish(0)
  }

  /** How many steps it is from a broadcast. */
  ghost function Rank(s: State): nat {
    match s.driver
    case Reserving => if exists o :: Free(s.sf, o) then 4 else 7
    case Napping => 6
    case Checking => 5
    case Judging => 3
    case Returned(_) => 2
    case Failing => 2
    case _ => 1
  }

  ghost predicate CanReserve(s: State) { s.driver == Reserving && exists o :: Free(s.sf, o) }

  lemma FillerMoves(up: seq<byte>, s: State)
    requires Inv(up, s) && !Quiet(s) && s.sf.inflight == {} && !CanReserve(s)
    ensures var a := FillerNext(s);
      && Enabled(up, s, a) && !Outside(a) && FillOf(a) == None
      && (Rouses(s, a) ||
          var t := Apply(up, s, a); t.sf == s.sf && !Quiet(t) && Rank(t) < Rank(s))
  {
    InflightIffLive(up, s);
    hide Shape, Ownership, Publication, Content, Tally;
    if s.driver == Checking && !Complete(s.sf) {
      var o :| o in Range(0, s.sf.size) && o !in s.sf.present;
      assert Free(s.sf, o);
    }
  }

  // -------------------------------------------------------- exactly when a job can rouse itself

  /** Anything but a step of job j from outside: other jobs, and readers of theirs, do as they like. */
  predicate Inner(j: nat, v: Move) { v.JobStep? && v.j == j ==> !Outside(v.a) }

  predicate Within(j: nat, vs: seq<Move>) { forall k :: 0 <= k < |vs| ==> Inner(j, vs[k]) }

  lemma FillsWithin(j: nat, vs: seq<Move>)
    requires ByFills(vs)
    ensures Within(j, vs)
  {
    forall k | 0 <= k < |vs| ensures Inner(j, vs[k]) {
      assert ByFill(vs[k]);
    }
  }

  lemma ReserveMove(m: Manager, j: nat) returns (v: Move, t: Manager)
    requires Good(m) && j < |m.jobs| && CanReserve(m.jobs[j])
    ensures Inner(j, v) && Allowed(m, v) && t == Moved(m, v) && Good(t) && t.cap == m.cap
    ensures j < |t.jobs| && |t.jobs[j].fills| > 0 && Live(t.jobs[j].fills[|t.jobs[j].fills| - 1])
  {
    assert Inv(m.ups[j], m.jobs[j]);
    hide Ownership, Publication, Content, Tally;
    var iv := LowestExists(m.jobs[j].sf);
    v := JobStep(j, Lowest(iv));
    GoodMove(m, v);
    t := Moved(m, v);
  }

  lemma FillerMove(m: Manager, j: nat) returns (v: Move, t: Manager)
    requires Good(m) && j < |m.jobs| && !Quiet(m.jobs[j]) && m.jobs[j].sf.inflight == {} && !CanReserve(m.jobs[j])
    ensures v.JobStep? && v.j == j && !Outside(v.a) && Allowed(m, v) && t == Moved(m, v) && Good(t) && t.cap == m.cap
    ensures j < |t.jobs|
    ensures Rouses(m.jobs[j], v.a) ||
      (t.jobs[j].sf == m.jobs[j].sf && !Quiet(t.jobs[j]) && Rank(t.jobs[j]) < Rank(m.jobs[j]))
  {
    assert Inv(m.ups[j], m.jobs[j]);
    hide Inv, Enabled, Apply, Rouses, Quiet, Rank, FillerNext, CanReserve;
    FillerMoves(m.ups[j], m.jobs[j]);
    v := JobStep(j, FillerNext(m.jobs[j]));
    GoodMove(m, v);
    t := Moved(m, v);
  }

  /** With nothing in flight the filler itself brings a broadcast about, unless the job is quiet. */
  lemma {:induction false} FillerRouses(m: Manager, j: nat) returns (vs: seq<Move>, a: Step)
    requires Good(m) && m.cap > 0 && j < |m.jobs| && !Quiet(m.jobs[j]) && m.jobs[j].sf.inflight == {}
    ensures Within(j, vs) && !Outside(a) && EndsIn(m, vs, j, a)
    decreases Rank(m.jobs[j])
  {
    hide Good, Allowed, Moved, Rank, EndsIn, CanReserve, Quiet, Moves;
    var v, t, rest;
    if CanReserve(m.jobs[j]) {
      v, t := ReserveMove(m, j);
      rest, a := LiveFillRouses(t, j, |t.jobs[j].fills| - 1);
      FillsWithin(j, rest);
    } else {
      v, t := FillerMove(m, j);
      if Rouses(m.jobs[j], v.a) {
        vs, a := [], v.a;
        EndsNow(m, j, a);
        return;
      }
      rest, a := FillerRouses(t, j);
    }
    MovesOne(m, v);
    EndsLater(m, [v], rest, j, a);
    vs := [v] + rest;
  }

  lemma EndsNow(m: Manager, j: nat, a: Step)
    requires j < |m.jobs| && Allowed(m, JobStep(j, a)) && Rouses(m.jobs[j], a)
    ensures EndsIn(m, [], j, a)
  {
  }

  /** Whatever the other jobs do, a quiet job stays as it is. */
  lemma {:induction false} QuietThroughout(m: Manager, j: nat, vs: seq<Move>)
    requires Good(m) && j < |m.jobs| && Quiet(m.jobs[j]) && Within(j, vs) && Moves(m, vs).Some?
    ensures var t := Moves(m, vs).value;
      && Good(t) && j < |t.jobs| && Quiet(t.jobs[j]) && t.jobs[j].sf == m.jobs[j].sf
      && (m.jobs[j].driver == Asleep ==> t.jobs[j].driver == Asleep)
  {
    if vs != [] {
      hide Good, Allowed, Moved, Quiet;
      var n := |vs| - 1;
      QuietThroughout(m, j, vs[..n]);
      var t := Moves(m, vs[..n]).value;
      assert Inner(j, vs[n]);
      GoodMove(t, vs[n]);
      QuietMove(t, j, vs[n]);
    }
  }

  lemma QuietMove(m: Manager, j: nat, v: Move)
    requires Good(m) && j < |m.jobs| && Quiet(m.jobs[j]) && Inner(j, v) && Allowed(m, v)
    ensures var t := Moved(m, v);
      && j < |t.jobs| && Quiet(t.jobs[j]) && t.jobs[j].sf == m.jobs[j].sf
      && (m.jobs[j].driver == Asleep ==> t.jobs[j].driver == Asleep)
      && (v.JobStep? && v.j == j ==> !Rouses(m.jobs[j], v.a))
  {
    hide Inv, Quiet, Enabled, Apply, Rouses, Init;
    if v.JobStep? && v.j == j { QuietStep(m.ups[j], m.jobs[j], v.a); }
  }

  /** Some run in which nobody asks for bytes of job j and none of its contexts ends makes it broadcast. */
  ghost predicate CanRouse(m: Manager, j: nat) {
    exists vs, a :: Within(j, vs) && !Outside(a) && EndsIn(m, vs, j, a)
  }

  /** A job can by itself come to wake its sleepers, filler or readers, if and only if it is not quiet. */
  lemma RousedIff(m: Manager, j: nat)
    requires Arises(m) && m.cap > 0 && j < |m.jobs|
    ensures CanRouse(m, j) <==> !Quiet(m.jobs[j])
  {
    ArisesGood(m);
    assert Inv(m.ups[j], m.jobs[j]);
    hide Good, Inv, EndsIn;
    if Quiet(m.jobs[j]) {
      forall vs, a | Within(j, vs) && !Outside(a) ensures !EndsIn(m, vs, j, a) {
        NeverRoused(m, j, vs, a);
      }
    } else if m.jobs[j].sf.inflight == {} {
      var vs, a := FillerRouses(m, j);
    } else {
      var i := SomeLive(m.ups[j], m.jobs[j]);
      var vs, a := LiveFillRouses(m, j, i);
      FillsWithin(j, vs);
      assert !Outside(a);
    }
  }

  lemma SomeLive(up: seq<byte>, s: State) returns (i: nat)
    requires Inv(up, s) && s.sf.inflight != {}
    ensures i < |s.fills| && Live(s.fills[i])
  {
    InflightIffLive(up, s);
    assert (forall o :: o !in s.sf.inflight) ==> s.sf.inflight == {};
    i :| i < |s.fills| && Live(s.fills[i]);
  }

  lemma NeverRoused(m: Manager, j: nat, vs: seq<Move>, a: Step)
    requires Good(m) && j < |m.jobs| && Quiet(m.jobs[j]) && Within(j, vs) && !Outside(a)
    ensures !EndsIn(m, vs, j, a)
  {
    hide Good, Quiet, Allowed, Moved, Moves;
    if EndsIn(m, vs, j, a) {
      QuietThroughout(m, j, vs);
      QuietMove(Moves(m, vs).value, j, JobStep(j, a));
    }
  }

  /** Some run of fills alone, of whatever jobs, wakes the filler of job j. */
  ghost predicate FillsWake(m: Manager, j: nat) {
    exists vs :: ByFills(vs) && WakesFiller(m, j, vs)
  }

  ghost predicate WakesFiller(m: Manager, j: nat, vs: seq<Move>) {
    Moves(m, vs).Some? && j < |Moves(m, vs).value.jobs| && Moves(m, vs).value.jobs[j].driver != Asleep
  }

  /** A sleeping filler can be woken by fills, of its own job and of those that share the slots, if
      and only if something of its own job is in flight; else nothing but a seek or the end of a
      context will. */
  lemma FillerWokenIff(m: Manager, j: nat)
    requires Arises(m) && m.cap > 0 && j < |m.jobs| && m.jobs[j].driver == Asleep
    ensures FillsWake(m, j) <==> m.jobs[j].sf.inflight != {}
    ensures m.jobs[j].sf.inflight == {} ==> forall vs :: Within(j, vs) ==> !WakesFiller(m, j, vs)
  {
    ArisesGood(m);
    assert Inv(m.ups[j], m.jobs[j]);
    hide Good, Inv, EndsIn, Moves;
    if m.jobs[j].sf.inflight == {} {
      forall vs | Within(j, vs) ensures !WakesFiller(m, j, vs) {
        if Moves(m, vs).Some? { QuietThroughout(m, j, vs); }
      }
      forall vs | ByFills(vs) ensures !WakesFiller(m, j, vs) {
        FillsWithin(j, vs);
      }
    } else {
      var i := SomeLive(m.ups[j], m.jobs[j]);
      var vs, a := LiveFillRouses(m, j, i);
      RousingWakes(m, j, vs, a);
      assert ByFills(vs + [JobStep(j, a)]);
      assert WakesFiller(m, j, vs) || WakesFiller(m, j, vs + [JobStep(j, a)]);
    }
  }

  lemma RousingWakes(m: Manager, j: nat, vs: seq<Move>, a: Step)
    requires EndsIn(m, vs, j, a) && FillOf(a).Some?
    ensures WakesFiller(m, j, vs) || WakesFiller(m, j, vs + [JobStep(j, a)])
  {
    var t := Moves(m, vs).value;
    MovesOne(t, JobStep(j, a));
    MovesConcat(m, vs, [JobStep(j, a)]);
    RousedAwake(t.ups[j], t.jobs[j], a);
  }

  lemma RousedAwake(up: seq<byte>, s: State, a: Step)
    requires Enabled(up, s, a) && Rouses(s, a)
    ensures Apply(up, s, a).driver != Asleep
  {
  }

  /** What the filler could check before it falls asleep: with its contexts live it goes to sleep,
      and then fills can wake it if and only if something was in flight. */
  lemma NapStrands(m: Manager, j: nat)
    requires Arises(m) && m.cap > 0 && j < |m.jobs|
    requires m.jobs[j].driver == Napping && !m.jobs[j].jobCtxDone && !m.jobs[j].runCtxDone
    ensures Allowed(m, JobStep(j, Nap))
    ensures var t := Moved(m, JobStep(j, Nap));
      && t.jobs[j].driver == Asleep
      && (FillsWake(t, j) <==> m.jobs[j].sf.inflight != {})
  {
    ArisesGood(m);
    assert Inv(m.ups[j], m.jobs[j]);
    hide Ownership, Publication, Content, Tally, FillsWake;
    var t := Moved(m, JobStep(j, Nap));
    ArisesNext(m, JobStep(j, Nap));
    FillerWokenIff(t, j);
  }

  lemma ArisesNext(m: Manager, v: Move)
    requires Arises(m) && Allowed(m, v)
    ensures Arises(Moved(m, v))
  {
    hide Allowed, Moved;
    var m0, vs :| MovesTo(m0, vs, m);
    MovesOne(m, v);
    MovesConcat(m0, vs, [v]);
    assert MovesTo(m0, vs + [v], Moved(m, v));
  }

  /** The end of the job's context rescues a job that has gone quiet: once what watches the context has
      called wake, a filler asleep is up again and the job can bring itself to an end. */
  lemma CancelRescues(m: Manager, j: nat)
    requires Arises(m) && m.cap > 0 && j < |m.jobs| && m.jobs[j].driver == Asleep
    ensures Moves(m, [JobStep(j, CancelJob), JobStep(j, WakeAll)]).Some?
    ensures var t := Moves(m, [JobStep(j, CancelJob), JobStep(j, WakeAll)]).value;
      j < |t.jobs| && t.jobs[j].driver == Checking && t.jobs[j].jobCtxDone && CanRouse(t, j)
  {
    hide Enabled, CanRouse, Arises;
    var v, u := JobStep(j, CancelJob), JobStep(j, WakeAll);
    ArisesGood(m);
    CancelEnabled(m.ups[j], m.jobs[j]);
    MovesOne(m, v);
    ArisesNext(m, v);
    var t := Moved(m, v);
    CancelEnabled(t.ups[j], t.jobs[j]);
    MovesOne(t, u);
    MovesConcat(m, [v], [u]);
    assert [v] + [u] == [v, u];
    ArisesNext(t, u);
    RousedIff(Moved(t, u), j);
  }

  lemma CancelEnabled(up: seq<byte>, s: State)
    ensures Enabled(up, s, CancelJob) && Enabled(up, s, WakeAll)
    ensures Apply(up, s, CancelJob) == s.(jobCtxDone := true)
    ensures Apply(up, s, WakeAll) == s.(driver := if s.driver == Asleep then Checking else s.driver)
  {
  }
}
