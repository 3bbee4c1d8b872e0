/** All sparse jobs of one JobManager, sharing its semaphore of fetch slots. */
module FillSlots {
  import opened SparseSpec
  import opened FillProtocol
  import opened FillInvariant

  /** `taken` counts the tokens in the manager's channel, whose capacity is `cap`. */
  datatype Manager = Manager(ups: seq<seq<byte>>, jobs: seq<State>, taken: int, cap: nat)

  datatype Move = StartJob(up: seq<byte>, job: State) | JobStep(j: nat, a: Step)

  ghost predicate Allowed(m: Manager, v: Move) {
    |m.ups| == |m.jobs| &&
    match v
    case StartJob(up, job) => Init(up, job)
    case JobStep(j, a) => j < |m.jobs| && Enabled(m.ups[j], m.jobs[j], a) && (a.Acquire? ==> m.taken < m.cap)
  }

  ghost function Moved(m: Manager, v: Move): Manager
    requires Allowed(m, v)
  {
    match v
    case StartJob(up, job) => m.(ups := m.ups + [up], jobs := m.jobs + [job])
    case JobStep(j, a) =>
      m.(jobs := m.jobs[j := Apply(m.ups[j], m.jobs[j], a)],
         taken := m.taken + (if a.Acquire? then 1 else 0) - (if a.GiveBack? then 1 else 0))
  }

  ghost function Moves(m: Manager, vs: seq<Move>): Option<Manager> {
    if vs == [] then Some(m)
    else match Moves(m, vs[..|vs| - 1])
      case Some(t) => if Allowed(t, vs[|vs| - 1]) then Some(Moved(t, vs[|vs| - 1])) else None
      case None => None
  }

  function Holders(fills: seq<Fill>): nat {
    if fills == [] then 0 else Holders(fills[..|fills| - 1]) + if HoldsSlot(fills[|fills| - 1]) then 1 else 0
  }

  function AllHolders(jobs: seq<State>): nat {
    if jobs == [] then 0 else AllHolders(jobs[..|jobs| - 1]) + Holders(jobs[|jobs| - 1].fills)
  }

  ghost predicate SlotsOk(m: Manager) {
    && |m.ups| == |m.jobs|
    && m.taken == AllHolders(m.jobs) <= m.cap
  }

  lemma {:induction false} HoldersSet(fills: seq<Fill>, i: nat, f: Fill)
    requires i < |fills|
    ensures Holders(fills[i := f]) + (if HoldsSlot(fills[i]) then 1 else 0)
         == Holders(fills) + (if HoldsSlot(f) then 1 else 0)
  {
    var n := |fills| - 1;
    if i == n {
      assert fills[i := f][..n] == fills[..n];
    } else {
      HoldersSet(fills[..n], i, f);
      assert fills[i := f][..n] == fills[..n][i := f];
    }
  }

  lemma {:induction false} HoldersQueued(fills: seq<Fill>, more: seq<Fill>)
    requires forall i :: 0 <= i < |more| ==> more[i].phase == Queued
    ensures Holders(fills + more) == Holders(fills)
    decreases |more|
  {
    if more == [] {
      assert fills + more == fills;
    } else {
      HoldersQueued(fills, more[..|more| - 1]);
      assert (fills + more)[..|fills + more| - 1] == fills + more[..|more| - 1];
    }
  }

  lemma {:induction false} AllHoldersSet(jobs: seq<State>, j: nat, s: State)
    requires j < |jobs|
    ensures AllHolders(jobs[j := s]) + Holders(jobs[j].fills) == AllHolders(jobs) + Holders(s.fills)
  {
    var n := |jobs| - 1;
    if j == n {
      assert jobs[j := s][..n] == jobs[..n];
    } else {
      AllHoldersSet(jobs[..n], j, s);
      assert jobs[j := s][..n] == jobs[..n][j := s];
    }
  }

  /** A step takes one slot, gives one back, or leaves the holders alone. */
  lemma StepHolders(up: seq<byte>, s: State, a: Step)
    requires Enabled(up, s, a)
    ensures Holders(Apply(up, s, a).fills) ==
      Holders(s.fills) + (if a.Acquire? then 1 else 0) - (if a.GiveBack? then 1 else 0)
  {
    var t := Apply(up, s, a);
    match FillOf(a)
    case Some(i) =>
      FillStepSets(up, s, i, a);
      HoldersSet(s.fills, i, t.fills[i]);
    case None =>
      var more := t.fills[|s.fills|..];
      assert t.fills == s.fills + more;
      HoldersQueued(s.fills, more);
  }

  lemma FillStepSets(up: seq<byte>, s: State, i: nat, a: Step)
    requires Enabled(up, s, a) && FillOf(a) == Some(i)
    ensures var t := Apply(up, s, a);
      && i < |t.fills| == |s.fills| && t.fills == s.fills[i := t.fills[i]]
      && (HoldsSlot(t.fills[i]) <==> (HoldsSlot(s.fills[i]) || a.Acquire?) && !a.GiveBack?)
      && (a.Acquire? ==> !HoldsSlot(s.fills[i])) && (a.GiveBack? ==> HoldsSlot(s.fills[i]))
  {
  }

  lemma MoveKeepsSlots(m: Manager, v: Move)
    requires SlotsOk(m) && Allowed(m, v)
    ensures SlotsOk(Moved(m, v))
  {
    match v
    case StartJob(up, job) =>
      assert (m.jobs + [job])[..|m.jobs|] == m.jobs;
    case JobStep(j, a) =>
      StepHolders(m.ups[j], m.jobs[j], a);
      AllHoldersSet(m.jobs, j, Apply(m.ups[j], m.jobs[j], a));
  }

  /** Over any run of all jobs together, the fills holding a slot are exactly the tokens taken, and
      never more than the capacity. */
  lemma {:induction false} SlotsNeverExceeded(m: Manager, vs: seq<Move>)
    requires m.ups == [] && m.jobs == [] && m.taken == 0 && Moves(m, vs).Some?
    ensures var t := Moves(m, vs).value; t.taken == AllHolders(t.jobs) <= m.cap && t.cap == m.cap && SlotsOk(t)
  {
    hide Allowed, Moved;
    if vs != [] {
      var n := |vs| - 1;
      SlotsNeverExceeded(m, vs[..n]);
      var t := Moves(m, vs[..n]).value;
      MoveKeepsSlots(t, vs[n]);
      CapFixed(t, vs[n]);
    }
  }

  lemma CapFixed(m: Manager, v: Move)
    requires Allowed(m, v)
    ensures Moved(m, v).cap == m.cap
  {
  }

  /** Sharing slots only restricts a job: each job on its own still takes only steps of FillProtocol. */
  lemma {:induction false} JobsKeepInvariant(m: Manager, vs: seq<Move>)
    requires m.ups == [] && m.jobs == [] && Moves(m, vs).Some?
    ensures var t := Moves(m, vs).value;
      |t.ups| == |t.jobs| && forall j :: 0 <= j < |t.jobs| ==> Inv(t.ups[j], t.jobs[j])
  {
    hide Inv, Init, Enabled, Apply;
    if vs != [] {
      var n := |vs| - 1;
      JobsKeepInvariant(m, vs[..n]);
      var t := Moves(m, vs[..n]).value;
      match vs[n]
      case StartJob(up, job) => InitHolds(up, job);
      case JobStep(j, a) => StepKeeps(t.ups[j], t.jobs[j], a);
    }
  }
}
