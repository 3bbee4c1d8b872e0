/** How many fetches the sequential filler makes. */
module FetchBound {
  import opened Intervals
  import opened SparseSpec
  import opened FillProtocol
  import opened FillInvariant
  import opened FillTheorems

  predicate In(f: Fill, o: int) { f.iv.start <= o < f.iv.end }

  /** Every fill that is over delivered its whole range. */
  ghost predicate FullDelivery(fills: seq<Fill>) {
    forall i :: 0 <= i < |fills| && !Live(fills[i]) ==> fills[i].pos == fills[i].iv.end
  }

  ghost predicate Apart(fills: seq<Fill>) {
    forall i, j, o :: 0 <= i < j < |fills| && In(fills[i], o) ==> !In(fills[j], o)
  }

  /** Everything below a range the filler took is taken. */
  ghost predicate Upward(s: State) {
    forall i, o :: 0 <= i < |s.fills| && !s.fills[i].seek && 0 <= o < s.fills[i].iv.start ==> !Free(s.sf, o)
  }

  ghost predicate SeekStartsAt(fills: seq<Fill>, o: int) {
    exists j :: 0 <= j < |fills| && fills[j].seek && fills[j].iv.start == o
  }

  predicate Short(f: Fill, chunk: int) { !f.seek && f.iv.end - f.iv.start < chunk }

  /** A filler range short of a chunk ends at the end of the file or where a seek's range begins. */
  ghost predicate ShortEndsAtSeek(size: int, chunk: int, fills: seq<Fill>) {
    forall i :: 0 <= i < |fills| && Short(fills[i], chunk) ==>
      fills[i].iv.end == size || SeekStartsAt(fills, fills[i].iv.end)
  }

  ghost predicate Tidy(s: State) {
    Apart(s.fills) && Upward(s) && ShortEndsAtSeek(s.sf.size, s.sf.chunk, s.fills)
  }

  /** No byte ever reserved is free again while fetches deliver what they were asked for. */
  lemma TakenStaysTaken(up: seq<byte>, s: State, i: int, o: int)
    requires Inv(up, s) && FullDelivery(s.fills) && 0 <= i < |s.fills| && In(s.fills[i], o)
    ensures !Free(s.sf, o)
  {
    if Live(s.fills[i]) {
      assert Owns(s.fills[i], o) && OwnedBySome(s.fills, o);
    } else {
      assert Wrote(s.fills[i], o) && WrittenBySome(s.fills, o);
    }
  }

  lemma FreeShrinks(up: seq<byte>, s: State, a: Step, o: int)
    requires Inv(up, s) && Enabled(up, s, a) && FullDelivery(Apply(up, s, a).fills)
    requires Free(Apply(up, s, a).sf, o)
    ensures Free(s.sf, o)
  {
    StepProjects(up, s, a);
    if a.Drop? {
      var f := s.fills[a.i];
      var t := Apply(up, s, a);
      assert !Live(t.fills[a.i]) && t.fills[a.i].pos == f.pos && t.fills[a.i].iv == f.iv;
      hide Enabled, Apply, Ownership, Content, Tally, Driving;
      assert o in Range(f.iv.start, f.iv.end) ==> Wrote(f, o);
      assert Wrote(f, o) ==> WrittenBySome(s.fills, o);
    }
  }

  /** A fill's own step touches no other fill, and keeps its range. */
  lemma FillKeepsRange(up: seq<byte>, s: State, i: nat, a: Step)
    requires Enabled(up, s, a) && FillOf(a) == Some(i)
    ensures var t := Apply(up, s, a);
      && i < |s.fills| == |t.fills| && t.fills == s.fills[i := t.fills[i]] && Live(s.fills[i])
      && t.fills[i].iv == s.fills[i].iv && t.fills[i].seek == s.fills[i].seek
  {
    hide Overwrite, Bump, After, Clamp, Aligned, Complete, Broadcasts, CtxDone, DriverStep, DriverApply;
  }

  /** Any other step leaves the fills there are as they are; only reservations add some. */
  lemma DriverKeepsFills(s: State, a: Step)
    requires DriverStep(s, a)
    ensures var t := DriverApply(s, a);
      && |s.fills| <= |t.fills| && (forall i :: 0 <= i < |s.fills| ==> t.fills[i] == s.fills[i])
      && (!a.Seek? && !a.Lowest? ==> |t.fills| == |s.fills|)
  {
    hide IsReservation, IsLowest, Complete, Broadcasts, After, Free;
  }

  lemma DeliveryBefore(up: seq<byte>, s: State, a: Step)
    requires Enabled(up, s, a) && FullDelivery(Apply(up, s, a).fills)
    ensures FullDelivery(s.fills)
  {
    if FillOf(a).Some? { FillKeepsRange(up, s, FillOf(a).value, a); } else { DriverKeepsFills(s, a); }
    hide Enabled, Apply, DriverApply, Live;
    var t := Apply(up, s, a);
    assert forall i :: 0 <= i < |s.fills| && !Live(s.fills[i]) ==> t.fills[i] == s.fills[i];
  }

  ghost predicate FreshFills(s: State, t: State, a: Step) {
    && |s.fills| <= |t.fills|
    && (forall i :: 0 <= i < |s.fills| ==> t.fills[i].iv == s.fills[i].iv && t.fills[i].seek == s.fills[i].seek)
    && t.sf.size == s.sf.size && t.sf.chunk == s.sf.chunk
    && (forall i, o :: |s.fills| <= i < |t.fills| && In(t.fills[i], o) ==> Free(s.sf, o))
    && (forall i, j, o :: |s.fills| <= i < j < |t.fills| && In(t.fills[i], o) ==> !In(t.fills[j], o))
    && (forall i :: |s.fills| <= i < |t.fills| && !t.fills[i].seek ==> a.Lowest? && t.fills[i].iv == a.iv)
  }

  /** The ranges of old fills are unchanged, and the new fills are a reservation's pieces. */
  lemma FillsGrow(up: seq<byte>, s: State, a: Step)
    requires Enabled(up, s, a)
    ensures FreshFills(s, Apply(up, s, a), a)
  {
    match a
    case Seek(off, out) => SeekGrows(up, s, off, out);
    case Lowest(iv) => LowestGrows(up, s, iv);
    case _ => OthersGrow(up, s, a);
  }

  lemma SeekGrows(up: seq<byte>, s: State, off: int, out: seq<Interval>)
    requires Enabled(up, s, Seek(off, out))
    ensures FreshFills(s, Apply(up, s, Seek(off, out)), Seek(off, out))
  {
    hide Bytes, Complete;
    var t := Apply(up, s, Seek(off, out));
    assert forall i :: |s.fills| <= i < |t.fills| ==> t.fills[i] == NewFill(out[i - |s.fills|], true);
  }

  lemma LowestGrows(up: seq<byte>, s: State, iv: Interval)
    requires Enabled(up, s, Lowest(iv))
    ensures FreshFills(s, Apply(up, s, Lowest(iv)), Lowest(iv))
  {
  }

  lemma OthersGrow(up: seq<byte>, s: State, a: Step)
    requires Enabled(up, s, a) && !a.Seek? && !a.Lowest?
    ensures FreshFills(s, Apply(up, s, a), a)
  {
    if FillOf(a).Some? { FillKeepsRange(up, s, FillOf(a).value, a); } else { DriverKeepsFills(s, a); }
    StepEvolves(up, s, a);
    hide Enabled, Apply, DriverApply, In, Free;
  }

  lemma LowestEnds(up: seq<byte>, s: State, iv: Interval)
    requires Inv(up, s) && Tidy(s) && FullDelivery(s.fills) && IsLowest(s.sf, iv)
    ensures iv.end - iv.start < s.sf.chunk ==> iv.end == s.sf.size || SeekStartsAt(s.fills, iv.end)
  {
    var e := iv.end;
    if e - iv.start < s.sf.chunk && e != s.sf.size {
      assert Free(s.sf, e - 1) && !Free(s.sf, e);
      var j := TakenBy(up, s, e);
      assert !In(s.fills[j], e - 1) by {
        if In(s.fills[j], e - 1) { TakenStaysTaken(up, s, j, e - 1); }
      }
      assert s.fills[j].iv.start == e;
      assert s.fills[j].seek;
    }
  }

  lemma TakenBy(up: seq<byte>, s: State, o: int) returns (j: int)
    requires Inv(up, s) && 0 <= o < s.sf.size && !Free(s.sf, o)
    ensures 0 <= j < |s.fills| && In(s.fills[j], o)
  {
    if o in s.sf.inflight {
      assert OwnedBySome(s.fills, o);
      j :| 0 <= j < |s.fills| && Owns(s.fills[j], o);
    } else {
      assert WrittenBySome(s.fills, o);
      j :| 0 <= j < |s.fills| && Wrote(s.fills[j], o);
      assert FillOk(up, s.sf, s.fills[j]);
    }
  }

  lemma TidyKept(up: seq<byte>, s: State, a: Step)
    requires Inv(up, s) && Tidy(s) && Enabled(up, s, a) && FullDelivery(Apply(up, s, a).fills)
    ensures Tidy(Apply(up, s, a))
  {
    hide Inv, Enabled, Apply, FullDelivery;
    var t := Apply(up, s, a);
    DeliveryBefore(up, s, a);
    FillsGrow(up, s, a);
    forall i, o | 0 <= i < |s.fills| && In(s.fills[i], o) ensures !Free(s.sf, o) { TakenStaysTaken(up, s, i, o); }
    forall o | Free(t.sf, o) ensures Free(s.sf, o) { FreeShrinks(up, s, a, o); }
    ApartKept(s, t);
    if a.Lowest? {
      LowestDriver(up, s, a);
      LowestEnds(up, s, a.iv);
    }
    UpwardKept(s, t, a);
    ShortKept(s, t, a);
  }

  lemma LowestDriver(up: seq<byte>, s: State, a: Step)
    requires a.Lowest? && Enabled(up, s, a)
    ensures IsLowest(s.sf, a.iv)
  {
  }

  lemma ApartKept(s: State, t: State)
    requires Apart(s.fills) && |s.fills| <= |t.fills|
    requires forall i :: 0 <= i < |s.fills| ==> t.fills[i].iv == s.fills[i].iv
    requires forall i, o :: |s.fills| <= i < |t.fills| && In(t.fills[i], o) ==> Free(s.sf, o)
    requires forall i, o :: 0 <= i < |s.fills| && In(s.fills[i], o) ==> !Free(s.sf, o)
    requires forall i, j, o :: |s.fills| <= i < j < |t.fills| && In(t.fills[i], o) ==> !In(t.fills[j], o)
    ensures Apart(t.fills)
  {
    hide Free;
    forall i, j, o | 0 <= i < j < |t.fills| && In(t.fills[i], o) ensures !In(t.fills[j], o) {
      if j < |s.fills| {
        assert In(s.fills[i], o);
        assert !In(s.fills[j], o);
      } else if i < |s.fills| {
        assert In(s.fills[i], o);
        assert !Free(s.sf, o);
      }
    }
  }

  lemma UpwardKept(s: State, t: State, a: Step)
    requires Upward(s) && |s.fills| <= |t.fills|
    requires forall i :: 0 <= i < |s.fills| ==> t.fills[i].iv == s.fills[i].iv && t.fills[i].seek == s.fills[i].seek
    requires forall o :: Free(t.sf, o) ==> Free(s.sf, o)
    requires forall i :: |s.fills| <= i < |t.fills| && !t.fills[i].seek ==> a.Lowest? && t.fills[i].iv == a.iv
    requires a.Lowest? ==> IsLowest(s.sf, a.iv)
    ensures Upward(t)
  {
    forall i, o | 0 <= i < |t.fills| && !t.fills[i].seek && 0 <= o < t.fills[i].iv.start ensures !Free(t.sf, o) {
      assert i < |s.fills| ==> o < s.fills[i].iv.start;
      assert !Free(s.sf, o);
    }
  }

  lemma ShortKept(s: State, t: State, a: Step)
    requires ShortEndsAtSeek(s.sf.size, s.sf.chunk, s.fills) && |s.fills| <= |t.fills|
    requires t.sf.size == s.sf.size && t.sf.chunk == s.sf.chunk
    requires forall i :: 0 <= i < |s.fills| ==> t.fills[i].iv == s.fills[i].iv && t.fills[i].seek == s.fills[i].seek
    requires forall i :: |s.fills| <= i < |t.fills| && !t.fills[i].seek ==> a.Lowest? && t.fills[i].iv == a.iv
    requires a.Lowest? && a.iv.end - a.iv.start < s.sf.chunk ==>
               a.iv.end == s.sf.size || SeekStartsAt(s.fills, a.iv.end)
    ensures ShortEndsAtSeek(t.sf.size, t.sf.chunk, t.fills)
  {
    forall i | 0 <= i < |t.fills| && Short(t.fills[i], t.sf.chunk)
      ensures t.fills[i].iv.end == t.sf.size || SeekStartsAt(t.fills, t.fills[i].iv.end)
    {
      var e := t.fills[i].iv.end;
      assert i < |s.fills| ==> Short(s.fills[i], s.sf.chunk);
      if e != t.sf.size {
        assert SeekStartsAt(s.fills, e);
        var j :| 0 <= j < |s.fills| && s.fills[j].seek && s.fills[j].iv.start == e;
        assert t.fills[j].seek && t.fills[j].iv.start == e;
      }
    }
  }

  lemma {:induction false} TidyRun(up: seq<byte>, s0: State, steps: seq<Step>)
    requires Init(up, s0) && Run(up, s0, steps).Some? && FullDelivery(Run(up, s0, steps).value.fills)
    ensures Tidy(Run(up, s0, steps).value)
  {
    hide Inv, Enabled, Apply, Tidy;
    if steps == [] {
      TidyInit(up, s0);
    } else {
      var n := |steps| - 1;
      var s := Run(up, s0, steps[..n]).value;
      DeliveryBefore(up, s, steps[n]);
      TidyRun(up, s0, steps[..n]);
      assert RunsTo(up, s0, steps[..n], s);
      Reachable(up, s);
      TidyKept(up, s, steps[n]);
    }
  }

  lemma TidyInit(up: seq<byte>, s: State)
    requires Init(up, s)
    ensures Tidy(s)
  {
  }

  // -------------------------------------------------------- counting

  function Fillers(fills: seq<Fill>): nat {
    if fills == [] then 0 else Fillers(fills[..|fills| - 1]) + if fills[|fills| - 1].seek then 0 else 1
  }

  function Shorts(fills: seq<Fill>, chunk: int): nat {
    if fills == [] then 0 else Shorts(fills[..|fills| - 1], chunk) + if Short(fills[|fills| - 1], chunk) then 1 else 0
  }

  predicate Whole(f: Fill, chunk: int) { !f.seek && !Short(f, chunk) }

  function Wholes(fills: seq<Fill>, chunk: int): nat {
    if fills == [] then 0 else Wholes(fills[..|fills| - 1], chunk) + if Whole(fills[|fills| - 1], chunk) then 1 else 0
  }

  function Seeks(fills: seq<Fill>): nat {
    if fills == [] then 0 else Seeks(fills[..|fills| - 1]) + if fills[|fills| - 1].seek then 1 else 0
  }

  /** The chunk-long ranges of the filler, laid side by side. */
  lemma {:induction false} WholeChunks(fills: seq<Fill>, size: int, chunk: int) returns (cover: set<int>)
    requires chunk > 0 && Apart(fills)
    requires forall i :: 0 <= i < |fills| ==>
               0 <= fills[i].iv.start < fills[i].iv.end <= size && fills[i].iv.end - fills[i].iv.start <= chunk
    ensures |cover| == Wholes(fills, chunk) * chunk
    ensures cover <= Range(0, size)
    ensures forall o :: o in cover ==> exists i :: 0 <= i < |fills| && In(fills[i], o)
  {
    if fills == [] {
      cover := {};
    } else {
      var n := |fills| - 1;
      var f := fills[n];
      var old' := WholeChunks(fills[..n], size, chunk);
      cover := old';
      forall o | o in old' ensures !In(f, o) && exists i :: 0 <= i < |fills| && In(fills[i], o) {
        var i :| 0 <= i < n && In(fills[..n][i], o);
        assert In(fills[i], o);
      }
      if Whole(f, chunk) {
        var new' := Range(f.iv.start, f.iv.end);
        RangeSize(f.iv.start, f.iv.end);
        assert forall o :: o in new' ==> In(fills[n], o);
        assert old' !! new';
        cover := old' + new';
        OneMore(Wholes(fills[..n], chunk), chunk);
      }
    }
  }

  /** The ends of the short ranges are all different. */
  lemma {:induction false} ShortEnds(fills: seq<Fill>, chunk: int) returns (ends: set<int>)
    requires Apart(fills) && forall i :: 0 <= i < |fills| ==> fills[i].iv.start < fills[i].iv.end
    ensures |ends| == Shorts(fills, chunk)
    ensures forall e :: e in ends ==> exists i :: 0 <= i < |fills| && Short(fills[i], chunk) && fills[i].iv.end == e
  {
    if fills == [] {
      ends := {};
    } else {
      var n := |fills| - 1;
      ends := ShortEnds(fills[..n], chunk);
      forall e | e in ends
        ensures exists i :: 0 <= i < |fills| && Short(fills[i], chunk) && fills[i].iv.end == e
        ensures e != fills[n].iv.end
      {
        var i :| 0 <= i < n && Short(fills[..n][i], chunk) && fills[..n][i].iv.end == e;
        assert In(fills[i], e - 1) && !In(fills[n], e - 1);
      }
      if Short(fills[n], chunk) { ends := ends + {fills[n].iv.end}; }
    }
  }

  lemma {:induction false} SeekStarts(fills: seq<Fill>) returns (starts: set<int>)
    ensures |starts| <= Seeks(fills)
    ensures forall o :: o in starts <==> SeekStartsAt(fills, o)
  {
    if fills == [] {
      starts := {};
    } else {
      var n := |fills| - 1;
      starts := SeekStarts(fills[..n]);
      forall o
        ensures SeekStartsAt(fills, o) <==> SeekStartsAt(fills[..n], o) || (fills[n].seek && fills[n].iv.start == o)
      {
        if SeekStartsAt(fills[..n], o) {
          var j :| 0 <= j < n && fills[..n][j].seek && fills[..n][j].iv.start == o;
          assert fills[j].seek;
        }
        if SeekStartsAt(fills, o) {
          var j :| 0 <= j < |fills| && fills[j].seek && fills[j].iv.start == o;
          assert j < n ==> fills[..n][j] == fills[j];
        }
      }
      if fills[n].seek { starts := starts + {fills[n].iv.start}; }
    }
  }

  lemma SubsetSize(a: set<int>, b: set<int>)
    requires a <= b
    ensures |a| <= |b|
  {
    var rest := b - a;
    assert b == a + rest;
  }

  lemma Quotient(n: nat, chunk: int, size: int)
    requires chunk > 0 && n * chunk <= size
    ensures n <= size / chunk
  {
    if n > size / chunk { MulMonotone(size / chunk + 1, n, chunk); }
  }

  lemma MulMonotone(a: int, b: int, c: int)
    requires a <= b && 0 <= c
    ensures a * c <= b * c
  {
  }

  lemma OneMore(a: int, c: int)
    ensures (a + 1) * c == a * c + c
  {
  }

  /** If every fetch delivered the range it was asked for, the filler has made at most
      size/chunk + 1 fetches, plus one for each interval reserved by a seek. */
  lemma FillerFetchesBounded(up: seq<byte>, s: State)
    requires Reached(up, s) && FullDelivery(s.fills)
    ensures s.sf.chunk > 0 && Fillers(s.fills) <= |up| / s.sf.chunk + Seeks(s.fills) + 1
  {
    hide Init, Run, Tidy;
    var s0, steps :| RunsTo(up, s0, steps, s);
    TidyRun(up, s0, steps);
    Reachable(up, s);
    CountFillers(up, s);
  }

  lemma CountFillers(up: seq<byte>, s: State)
    requires Shape(up, s) && Tidy(s)
    ensures s.sf.chunk > 0 && Fillers(s.fills) <= |up| / s.sf.chunk + Seeks(s.fills) + 1
  {
    hide Apart, Upward;
    var fills, chunk := s.fills, s.sf.chunk;
    forall i | 0 <= i < |fills|
      ensures 0 <= fills[i].iv.start < fills[i].iv.end <= |up| && fills[i].iv.end - fills[i].iv.start <= chunk
    {
      assert FillOk(up, s.sf, fills[i]);
    }
    CountWholes(fills, |up|, chunk);
    CountShorts(fills, |up|, chunk);
    FillersSplit(fills, chunk);
  }

  lemma CountWholes(fills: seq<Fill>, size: nat, chunk: int)
    requires chunk > 0 && Apart(fills)
    requires forall i :: 0 <= i < |fills| ==>
               0 <= fills[i].iv.start < fills[i].iv.end <= size && fills[i].iv.end - fills[i].iv.start <= chunk
    ensures Wholes(fills, chunk) <= size / chunk
  {
    var cover := WholeChunks(fills, size, chunk);
    SubsetSize(cover, Range(0, size));
    RangeSize(0, size);
    Quotient(Wholes(fills, chunk), chunk, size);
  }

  lemma CountShorts(fills: seq<Fill>, size: nat, chunk: int)
    requires Apart(fills) && ShortEndsAtSeek(size, chunk, fills)
    requires forall i :: 0 <= i < |fills| ==> fills[i].iv.start < fills[i].iv.end
    ensures Shorts(fills, chunk) <= Seeks(fills) + 1
  {
    var ends := ShortEnds(fills, chunk);
    var starts := SeekStarts(fills);
    forall e | e in ends ensures e in starts + {size} {
      var i :| 0 <= i < |fills| && Short(fills[i], chunk) && fills[i].iv.end == e;
    }
    SubsetSize(ends, starts + {size});
  }

  lemma {:induction false} FillersSplit(fills: seq<Fill>, chunk: int)
    ensures Fillers(fills) == Wholes(fills, chunk) + Shorts(fills, chunk)
  {
    if fills != [] { FillersSplit(fills[..|fills| - 1], chunk); }
  }

  // -------------------------------------------------------- progress

  function Productive(fills: seq<Fill>): nat {
    if fills == [] then 0
    else Productive(fills[..|fills| - 1]) + if fills[|fills| - 1].pos > fills[|fills| - 1].iv.start then 1 else 0
  }

  /** Whatever short reads, retries and failures occur, fetches that yield a byte are no more than
      the bytes present: a file of n bytes is filled by at most n of them. */
  lemma ProductiveBounded(up: seq<byte>, s: State)
    requires Reached(up, s)
    ensures Productive(s.fills) <= |s.sf.present| <= |up|
  {
    hide Ownership, Publication, Content, Tally, Driving, Reached;
    PresentIsPublished(up, s);
    PublishedIsUpstream(up, s);
    Reachable(up, s);
    StartsBelow(up, s);
    ProductivePublished(s.fills);
    SubsetSize(s.sf.present, Range(0, |up|));
    RangeSize(0, |up|);
  }

  lemma {:induction false} ProductivePublished(fills: seq<Fill>)
    requires forall i :: 0 <= i < |fills| ==> fills[i].iv.start <= fills[i].pos
    ensures Productive(fills) <= PublishedBy(fills)
  {
    if fills != [] { ProductivePublished(fills[..|fills| - 1]); }
  }

  /** A termination measure for the filler: from the reservation of a range to any later state in
      which that fetch has yielded a byte, the number of bytes missing strictly falls, whatever seek
      fills do meanwhile. */
  lemma FillerFetchShrinksMissing(up: seq<byte>, s: State, iv: Interval, steps: seq<Step>)
    requires Inv(up, s) && Enabled(up, s, Lowest(iv))
    requires Run(up, Apply(up, s, Lowest(iv)), steps).Some?
    requires var t := Run(up, Apply(up, s, Lowest(iv)), steps).value;
      |s.fills| < |t.fills| && t.fills[|s.fills|].iv == iv && t.fills[|s.fills|].pos > iv.start
    ensures var t := Run(up, Apply(up, s, Lowest(iv)), steps).value;
      t.sf.size - |t.sf.present| < s.sf.size - |s.sf.present|
  {
    var s1 := Apply(up, s, Lowest(iv));
    StepKeeps(up, s, Lowest(iv));
    var t := Run(up, s1, steps).value;
    RunEvolves(up, s1, steps);
    RunKeeps(up, s1, steps);
    hide Enabled, Apply, Ownership, Content, Tally, Driving;
    assert Wrote(t.fills[|s.fills|], iv.start) && WrittenBySome(t.fills, iv.start);
    FreeStart(up, s, iv);
    SubsetSize(s.sf.present + {iv.start}, t.sf.present);
  }

  lemma FreeStart(up: seq<byte>, s: State, iv: Interval)
    requires Enabled(up, s, Lowest(iv))
    ensures iv.start !in s.sf.present
    ensures s.sf.present == Apply(up, s, Lowest(iv)).sf.present && s.sf.size == Apply(up, s, Lowest(iv)).sf.size
  {
    assert Free(s.sf, iv.start);
  }
}
