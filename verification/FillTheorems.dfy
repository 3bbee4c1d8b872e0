/** What the invariant of FillProtocol gives over whole runs. */
module FillTheorems {
  import opened Intervals
  import opened SparseSpec
  import opened FillProtocol
  import opened FillInvariant

  ghost predicate RunsTo(up: seq<byte>, s0: State, steps: seq<Step>, s: State) {
    Init(up, s0) && Run(up, s0, steps) == Some(s)
  }

  /** Some run from a fresh job ends in s. */
  ghost predicate Reached(up: seq<byte>, s: State) {
    exists s0, steps :: RunsTo(up, s0, steps, s)
  }

  lemma Reachable(up: seq<byte>, s: State)
    requires Reached(up, s)
    ensures Inv(up, s)
  {
    hide Inv, Init, Run;
    var s0, steps :| RunsTo(up, s0, steps, s);
    InitHolds(up, s0);
    RunKeeps(up, s0, steps);
  }

  // -------------------------------------------------------- no byte is orphaned

  /** The i-th fill, and no other, has o reserved and has yet to publish it. */
  ghost predicate SoleFetcher(s: State, i: int, o: int) {
    && 0 <= i < |s.fills| && Owns(s.fills[i], o) && s.fills[i].pos <= o
    && forall j :: 0 <= j < |s.fills| && j != i ==> !Owns(s.fills[j], o)
  }

  /** In every reachable state each offset of the file is present, or open to be reserved, or being
      fetched by exactly one live fill; never two of these. */
  lemma EveryByteAccounted(up: seq<byte>, s: State, o: int)
    requires Reached(up, s) && 0 <= o < |up|
    ensures
      && (o in s.sf.present || Free(s.sf, o) || exists i :: SoleFetcher(s, i, o))
      && !(o in s.sf.present && Free(s.sf, o))
      && (forall i :: SoleFetcher(s, i, o) ==> o !in s.sf.present && !Free(s.sf, o))
  {
    Reachable(up, s);
    if o !in s.sf.present && !Free(s.sf, o) {
      assert OwnedBySome(s.fills, o);
      var i :| 0 <= i < |s.fills| && Owns(s.fills[i], o);
      OwnExclusive(s, i);
      assert Wrote(s.fills[i], o) ==> WrittenBySome(s.fills, o);
      assert SoleFetcher(s, i, o);
    }
    forall i | SoleFetcher(s, i, o) ensures o !in s.sf.present && !Free(s.sf, o) {
      assert OwnedBySome(s.fills, o);
    }
  }

  /** Something is in flight exactly while some fill is live. */
  lemma InflightIffLive(up: seq<byte>, s: State)
    requires Inv(up, s)
    ensures (exists o :: o in s.sf.inflight) <==> (exists i :: 0 <= i < |s.fills| && Live(s.fills[i]))
  {
    if o :| o in s.sf.inflight {
      assert OwnedBySome(s.fills, o);
    }
    if i :| 0 <= i < |s.fills| && Live(s.fills[i]) {
      assert FillOk(up, s.sf, s.fills[i]);
      assert Owns(s.fills[i], s.fills[i].iv.start);
      assert OwnedBySome(s.fills, s.fills[i].iv.start);
    }
  }

  // -------------------------------------------------------- one step seen from outside

  /** Each step changes the shared file by the critical section `OpOf` names, and by nothing else. */
  lemma StepProjects(up: seq<byte>, s: State, a: Step)
    requires Enabled(up, s, a)
    ensures Apply(up, s, a).sf == match OpOf(s, a) case Some(op) => After(s.sf, op) case None => s.sf
  {
  }

  /** Along any run bytes are only ever added and flags only ever raised. */
  lemma {:induction false} RunEvolves(up: seq<byte>, s: State, steps: seq<Step>)
    requires Inv(up, s) && Run(up, s, steps).Some?
    ensures Evolves(s.sf, Run(up, s, steps).value.sf)
  {
    if steps != [] {
      hide Inv, Evolves, Enabled, Apply;
      var n := |steps| - 1;
      RunEvolves(up, s, steps[..n]);
      var t := Run(up, s, steps[..n]).value;
      RunKeeps(up, s, steps[..n]);
      StepEvolves(up, t, steps[n]);
      EvolvesTransitive(s.sf, t.sf, Apply(up, t, steps[n]).sf);
    }
  }

  lemma StepEvolves(up: seq<byte>, s: State, a: Step)
    requires Enabled(up, s, a)
    ensures Evolves(s.sf, Apply(up, s, a).sf)
  {
    StepProjects(up, s, a);
    if OpOf(s, a).Some? { OpEvolves(s.sf, OpOf(s, a).value); }
  }

  /** Publication safety: in every reachable state, a write to disk pending or not, an offset
      shown to readers already holds the upstream's byte. */
  lemma PublishedIsUpstream(up: seq<byte>, s: State)
    requires Reached(up, s)
    ensures |s.disk| == |up| && s.sf.present <= Range(0, |up|)
      && forall o :: o in s.sf.present ==> s.disk[o] == up[o]
  {
    Reachable(up, s);
    forall o | o in s.sf.present ensures 0 <= o < |up| {
      assert WrittenBySome(s.fills, o);
      var i :| 0 <= i < |s.fills| && Wrote(s.fills[i], o);
      assert FillOk(up, s.sf, s.fills[i]);
    }
  }

  /** What a fill has reserved and not published, no step of another changes. */
  lemma OwnRangeUntouched(up: seq<byte>, s: State, i: nat, a: Step)
    requires Inv(up, s) && i < |s.fills| && Live(s.fills[i]) && Enabled(up, s, a) && FillOf(a) != Some(i)
    ensures var t := Apply(up, s, a);
      && i < |t.fills| && t.fills[i] == s.fills[i]
      && (forall o :: s.fills[i].pos <= o < s.fills[i].iv.end ==>
            o in t.sf.inflight && o !in t.sf.present && 0 <= o < |t.disk| && t.disk[o] == s.disk[o])
  {
    StepKeeps(up, s, a);
    OthersStay(up, s, i, a);
    hide Publication, Content, Tally, Driving, Enabled, Apply;
    var t := Apply(up, s, a);
    assert FillOk(up, s.sf, s.fills[i]);
    OwnPart(up, t, i);
    OwnInFlight(t, i);
  }

  /** The bytes a fill has reserved and not published. */
  ghost predicate Kept(s: State, i: nat, t: State) {
    && i < |s.fills| && i < |t.fills| && t.fills[i] == s.fills[i]
    && forall o :: s.fills[i].pos <= o < s.fills[i].iv.end ==>
         && o in t.sf.inflight && o !in t.sf.present
         && 0 <= o < |t.disk| == |s.disk| && t.disk[o] == s.disk[o]
  }

  /** However the others run, a live fill finds what it has reserved and not published as it left it. */
  lemma {:induction false} OwnRangeKept(up: seq<byte>, s: State, i: nat, steps: seq<Step>)
    requires Inv(up, s) && i < |s.fills| && Live(s.fills[i]) && Run(up, s, steps).Some?
    requires forall k :: 0 <= k < |steps| ==> FillOf(steps[k]) != Some(i)
    ensures Kept(s, i, Run(up, s, steps).value)
  {
    hide Inv, Enabled, Apply;
    if steps == [] {
      KeptSelf(up, s, i);
    } else {
      var n := |steps| - 1;
      OwnRangeKept(up, s, i, steps[..n]);
      var t := Run(up, s, steps[..n]).value;
      RunKeeps(up, s, steps[..n]);
      KeptSelf(up, t, i);
      OwnRangeUntouched(up, t, i, steps[n]);
      StepKeeps(up, t, steps[n]);
      KeptSelf(up, Apply(up, t, steps[n]), i);
    }
  }

  lemma KeptSelf(up: seq<byte>, s: State, i: nat)
    requires Inv(up, s) && i < |s.fills| && Live(s.fills[i])
    ensures Kept(s, i, s) && |s.disk| == |up|
  {
    assert FillOk(up, s.sf, s.fills[i]);
    OwnPart(up, s, i);
    OwnInFlight(s, i);
  }

  lemma OthersStay(up: seq<byte>, s: State, i: nat, a: Step)
    requires Inv(up, s) && i < |s.fills| && Enabled(up, s, a) && FillOf(a) != Some(i)
    ensures var t := Apply(up, s, a);
      && i < |t.fills| && t.fills[i] == s.fills[i] && |t.disk| == |up|
      && (forall o :: Owns(s.fills[i], o) && 0 <= o < |up| ==> t.disk[o] == s.disk[o])
  {
    hide Ownership, Publication, Content, Tally, Driving;
    if a.Put? { PutElsewhere(up, s, i, a); }
  }

  lemma OwnInFlight(s: State, i: nat)
    requires Ownership(s) && i < |s.fills|
    ensures forall o :: Owns(s.fills[i], o) ==> o in s.sf.inflight
  {
    forall o | Owns(s.fills[i], o) ensures OwnedBySome(s.fills, o) {}
  }

  lemma PutElsewhere(up: seq<byte>, s: State, i: nat, a: Step)
    requires Shape(up, s) && Ownership(s) && i < |s.fills| && a.Put? && a.i != i && Enabled(up, s, a)
    ensures forall o :: Owns(s.fills[i], o) && 0 <= o < |up| ==> Apply(up, s, a).disk[o] == s.disk[o]
  {
    var g := s.fills[a.i];
    assert FillOk(up, s.sf, g);
    OwnExclusive(s, i);
    forall o | Owns(s.fills[i], o) ensures !Owns(g, o) {
      assert Owns(g, o) ==> OthersOwn(s.fills, i, o);
    }
    assert forall o :: g.pos <= o < g.iv.end ==> Owns(g, o);
  }

  // -------------------------------------------------------- after completion

  /** Once every byte is present no step writes to disk: not that of a fill still queued,
      not that of one still holding a slot. */
  lemma NoWriteOnceComplete(up: seq<byte>, s: State, a: Step)
    requires Inv(up, s) && Complete(s.sf) && Enabled(up, s, a)
    ensures !a.Put? && !a.PutFails? && !a.Show?
    ensures var t := Apply(up, s, a); t.disk == s.disk && t.hits == s.hits && t.lost == s.lost && Complete(t.sf)
  {
    match FillOf(a)
    case Some(i) =>
      assert FillOk(up, s.sf, s.fills[i]);
      var f := s.fills[i];
      if Live(f) && f.pos < f.iv.end {
        assert f.pos in Range(0, s.sf.size);
        assert Owns(f, f.pos);
      }
    case None =>
  }

  lemma {:induction false} CompleteIsFinal(up: seq<byte>, s: State, steps: seq<Step>)
    requires Inv(up, s) && Complete(s.sf) && Run(up, s, steps).Some?
    ensures var t := Run(up, s, steps).value; Complete(t.sf) && t.disk == s.disk && t.hits == s.hits
  {
    if steps != [] {
      var n := |steps| - 1;
      CompleteIsFinal(up, s, steps[..n]);
      RunKeeps(up, s, steps[..n]);
      NoWriteOnceComplete(up, Run(up, s, steps[..n]).value, steps[n]);
    }
  }

  /** A job whose runSparse returned nil has the upstream's bytes on disk, and whatever happens
      afterwards, late seeks and queued fills included, the finalized entry keeps them. */
  lemma FinishedFileIsUpstream(up: seq<byte>, s: State, later: seq<Step>)
    requires Reached(up, s) && Run(up, s, later).Some?
    requires s.entry || (s.driver.Returned? && s.driver.ok) || (s.sf.done && s.sf.err.None?)
    ensures s.disk == up && Run(up, s, later).value.disk == up
  {
    Reachable(up, s);
    assert Complete(s.sf);
    assert forall o :: 0 <= o < |up| ==> o in Range(0, |up|) && s.disk[o] == up[o];
    CompleteIsFinal(up, s, later);
  }

  // -------------------------------------------------------- write accounting

  function Sum(c: seq<nat>): nat {
    if c == [] then 0 else Sum(c[..|c| - 1]) + c[|c| - 1]
  }

  lemma {:induction false} SumDiffers(c: seq<nat>, d: seq<nat>, extra: set<int>)
    requires |c| == |d| && extra <= Range(0, |c|)
    requires forall o :: 0 <= o < |c| ==> c[o] == d[o] + if o in extra then 1 else 0
    ensures Sum(c) == Sum(d) + |extra|
  {
    if c == [] {
      assert extra == {};
    } else {
      var n := |c| - 1;
      SumDiffers(c[..n], d[..n], extra - {n});
      if n !in extra { assert extra - {n} == extra; }
    }
  }

  /** The offsets a write in progress has put on disk and not yet shown. */
  ghost function PendingSet(s: State): set<int> {
    set o | o in Range(0, s.sf.size) && PendingInSome(s.fills, o)
  }

  /** Conservation: the bytes ever written to disk are the bytes present, the bytes of writes in
      progress, and the bytes of writes that failed half way. */
  lemma WritesConserved(up: seq<byte>, s: State)
    requires Reached(up, s)
    ensures
      && Sum(s.hits) == Sum(s.lost) + |s.sf.present| + |PendingSet(s)|
      && (Complete(s.sf) ==> Sum(s.hits) == Sum(s.lost) + |up|)
  {
    hide Ownership, Publication, Content, Tally, Driving, PendingInSome;
    Reachable(up, s);
    PublishedIsUpstream(up, s);
    PendingAbsent(up, s);
    HitsCounted(up, s);
    if Complete(s.sf) {
      assert s.sf.present == Range(0, |up|) && PendingSet(s) == {};
      RangeSize(0, |up|);
    }
  }

  lemma HitsCounted(up: seq<byte>, s: State)
    requires Shape(up, s) && Tally(s) && s.sf.present <= Range(0, |up|) && s.sf.present !! PendingSet(s)
    ensures Sum(s.hits) == Sum(s.lost) + |s.sf.present| + |PendingSet(s)|
  {
    hide PendingInSome;
    SumDiffers(s.hits, s.lost, s.sf.present + PendingSet(s));
  }

  lemma PendingAbsent(up: seq<byte>, s: State)
    requires Inv(up, s)
    ensures s.sf.present !! PendingSet(s)
  {
    forall o | o in PendingSet(s) ensures o !in s.sf.present {
      var i :| 0 <= i < |s.fills| && Pending(s.fills[i], o);
      assert FillOk(up, s.sf, s.fills[i]);
      assert Owns(s.fills[i], o);
    }
  }

  /** The one write an offset has seen, if any, was of a WriteAt that failed, and nothing has
      written the offset since. */
  ghost predicate LostOnceOnly(s: State, o: int)
    requires 0 <= o < |s.lost|
  {
    s.lost[o] > 0 ==> s.lost[o] == 1 && o !in s.sf.present && !PendingInSome(s.fills, o)
  }

  /** In every state of every run, finished or failed or still going: no offset has been written to
      disk twice, if and only if no offset put on disk by a WriteAt that then failed was written again. */
  lemma WriteOnceIff(up: seq<byte>, s: State)
    requires Reached(up, s)
    ensures
      && |s.hits| == |s.lost| == |up|
      && ((forall o :: 0 <= o < |up| ==> s.hits[o] <= 1) <==> (forall o :: 0 <= o < |up| ==> LostOnceOnly(s, o)))
  {
    Reachable(up, s);
    hide Ownership, Publication, Content, Driving, PendingInSome;
    forall o | 0 <= o < |up| ensures s.hits[o] <= 1 <==> LostOnceOnly(s, o) {
    }
  }

  /** Each offset of a finished file was written exactly once, if and only if no WriteAt failed
      after putting some of its bytes on disk; otherwise once more for each such failure. */
  lemma WrittenExactlyOnceIff(up: seq<byte>, s: State)
    requires Reached(up, s) && Complete(s.sf)
    ensures
      && |s.hits| == |s.lost| == |up|
      && (forall o :: 0 <= o < |up| ==> s.hits[o] == 1 + s.lost[o])
      && ((forall o :: 0 <= o < |up| ==> s.hits[o] == 1) <==> (forall o :: 0 <= o < |up| ==> s.lost[o] == 0))
  {
    Reachable(up, s);
    assert forall o :: 0 <= o < |up| ==> o in Range(0, |up|) && s.hits[o] == 1 + s.lost[o];
  }

  function PublishedBy(fills: seq<Fill>): int {
    if fills == [] then 0
    else PublishedBy(fills[..|fills| - 1]) + (fills[|fills| - 1].pos - fills[|fills| - 1].iv.start)
  }

  /** The bytes present are exactly the bytes the fills have published, each counted once. */
  lemma PresentIsPublished(up: seq<byte>, s: State)
    requires Reached(up, s)
    ensures |s.sf.present| == PublishedBy(s.fills)
  {
    hide Ownership, Content, Tally, Driving, WrittenBySome;
    Reachable(up, s);
    StartsBelow(up, s);
    var all := PublishedSize(s.fills);
    var present := s.sf.present;
    assert forall o :: o in all <==> o in present;
    assert all == present;
  }

  lemma StartsBelow(up: seq<byte>, s: State)
    requires Shape(up, s)
    ensures forall i :: 0 <= i < |s.fills| ==> s.fills[i].iv.start <= s.fills[i].pos
  {
    assert forall i :: 0 <= i < |s.fills| ==> FillOk(up, s.sf, s.fills[i]);
  }

  lemma {:induction false} PublishedSize(fills: seq<Fill>) returns (all: set<int>)
    requires forall i :: 0 <= i < |fills| ==> fills[i].iv.start <= fills[i].pos
    requires forall i, j, o :: 0 <= i < j < |fills| && Wrote(fills[i], o) ==> !Wrote(fills[j], o)
    ensures forall o :: o in all <==> WrittenBySome(fills, o)
    ensures |all| == PublishedBy(fills)
  {
    if fills == [] {
      all := {};
    } else {
      var n := |fills| - 1;
      var f := fills[n];
      var init := PublishedSize(fills[..n]);
      all := init + Range(f.iv.start, f.pos);
      AppendSome(fills[..n], f);
      assert fills[..n] + [f] == fills;
      forall o | o in init ensures o !in Range(f.iv.start, f.pos) {
        var i :| 0 <= i < n && Wrote(fills[..n][i], o);
        assert Wrote(fills[i], o) && !Wrote(fills[n], o);
      }
      RangeSize(f.iv.start, f.pos);
      assert init !! Range(f.iv.start, f.pos);
    }
  }

  // -------------------------------------------------------- slots and reservations

  /** Which of its acquire, give-back and release steps a fill has behind it. */
  ghost predicate Ledger(steps: seq<Step>, fills: seq<Fill>, i: nat) {
    var m := multiset(steps);
    if i >= |fills| then m[Acquire(i)] == m[GiveBack(i)] == m[Drop(i)] == 0
    else
      && (fills[i].phase.Queued? ==> m[Acquire(i)] == m[GiveBack(i)] == 0)
      && (HoldsSlot(fills[i]) ==> m[Acquire(i)] == 1 && m[GiveBack(i)] == 0)
      && (!HoldsSlot(fills[i]) ==> m[Acquire(i)] == m[GiveBack(i)] <= 1)
      && m[Drop(i)] == (if Live(fills[i]) then 0 else 1)
  }

  /** On every exit path a fill gives back the slot it took once, and releases its reservation once. */
  lemma {:induction false} ReleasedOnce(up: seq<byte>, s0: State, steps: seq<Step>, i: nat)
    requires Init(up, s0) && Run(up, s0, steps).Some?
    ensures Ledger(steps, Run(up, s0, steps).value.fills, i)
  {
    hide Ledger, Enabled, Apply;
    if steps == [] {
      LedgerEmpty(s0.fills, i);
    } else {
      var n := |steps| - 1;
      ReleasedOnce(up, s0, steps[..n], i);
      assert steps == steps[..n] + [steps[n]];
      LedgerStep(up, Run(up, s0, steps[..n]).value, steps[..n], steps[n], i);
    }
  }

  lemma LedgerEmpty(fills: seq<Fill>, i: nat)
    requires fills == []
    ensures Ledger([], fills, i)
  {
  }

  lemma LedgerStep(up: seq<byte>, s: State, steps: seq<Step>, a: Step, i: nat)
    requires Ledger(steps, s.fills, i) && Enabled(up, s, a)
    ensures Ledger(steps + [a], Apply(up, s, a).fills, i)
  {
    var t := Apply(up, s, a);
    assert multiset(steps + [a]) == multiset(steps) + multiset{a};
    if FillOf(a) == Some(i) {
      LedgerOwn(up, s, steps, a, i);
    } else {
      assert i < |s.fills| ==> t.fills[i] == s.fills[i];
      assert |s.fills| <= i < |t.fills| ==> t.fills[i].phase == Queued;
    }
  }

  lemma LedgerOwn(up: seq<byte>, s: State, steps: seq<Step>, a: Step, i: nat)
    requires Ledger(steps, s.fills, i) && Enabled(up, s, a) && FillOf(a) == Some(i)
    ensures Ledger(steps + [a], Apply(up, s, a).fills, i)
  {
    assert multiset(steps + [a]) == multiset(steps) + multiset{a};
    var g := Apply(up, s, a).fills[i];
    assert |Apply(up, s, a).fills| == |s.fills|;
  }

  /** A fill that holds a slot still owns its whole reservation. */
  lemma SlotHolderOwns(up: seq<byte>, s: State, i: nat)
    requires Reached(up, s) && i < |s.fills| && HoldsSlot(s.fills[i])
    ensures Range(s.fills[i].iv.start, s.fills[i].iv.end) <= s.sf.inflight
  {
    Reachable(up, s);
    forall o | o in Range(s.fills[i].iv.start, s.fills[i].iv.end) ensures o in s.sf.inflight {
      assert Owns(s.fills[i], o);
      assert OwnedBySome(s.fills, o);
    }
  }
}
