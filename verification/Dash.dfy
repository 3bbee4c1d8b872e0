/** A live DASH timeline turned into an HLS media playlist (server/dash.go), from the parsed
    SegmentTimeline on. */
module Dash {
  import opened SparseSpec

  const TWO64 := 0x1_0000_0000_0000_0000

  /** One <S> entry: explicit start time, duration, repeat count. Times are 64-bit unsigned. */
  datatype Entry = Entry(t: Option<nat>, d: nat, r: int)

  datatype Seg = Seg(number: nat, time: nat, d: nat)

  function Repeats(s: Entry): nat { if s.r < 0 then 1 else s.r + 1 }

  // -------------------------------------------------------- the expansion, in closed form

  /** How many segments the first i entries expand to. */
  function First(tl: seq<Entry>, i: nat): nat
    requires i <= |tl|
  {
    if i == 0 then 0 else First(tl, i - 1) + Repeats(tl[i - 1])
  }

  /** The start time of entry i, without wrap-around: its own t, or where the entry before it ends. */
  function Base(tl: seq<Entry>, i: nat): nat
    requires i <= |tl|
  {
    if i < |tl| && tl[i].t.Some? then tl[i].t.value
    else if i == 0 then 0
    else Base(tl, i - 1) + Repeats(tl[i - 1]) * tl[i - 1].d
  }

  /** Segment q of entry i. */
  function SegAt(tl: seq<Entry>, start: nat, i: nat, q: nat): Seg
    requires i < |tl|
  {
    Seg((start + First(tl, i) + q) % TWO64, (Base(tl, i) + q * tl[i].d) % TWO64, tl[i].d)
  }

  ghost predicate Holds(tl: seq<Entry>, start: nat, out: seq<Seg>, i: nat, q: nat)
    requires i < |tl|
  {
    First(tl, i) + q < |out| && out[First(tl, i) + q] == SegAt(tl, start, i, q)
  }

  /** The first `upto` entries are expanded, each to its segments in turn, and nothing else. */
  ghost predicate Expands(tl: seq<Entry>, start: nat, upto: nat, out: seq<Seg>)
    requires upto <= |tl|
  {
    && |out| == First(tl, upto)
    && forall i, q :: 0 <= i < upto && 0 <= q < Repeats(tl[i]) ==> Holds(tl, start, out, i, q)
  }

  lemma AddMod(x: int, y: int)
    ensures (x % TWO64 + y) % TWO64 == (x + y) % TWO64
  {
    var q := x / TWO64;
    assert x == q * TWO64 + x % TWO64;
    AddMultiple(x % TWO64 + y, q);
  }

  lemma AddMultiple(x: int, q: int)
    ensures (x + q * TWO64) % TWO64 == x % TWO64
  {
    var k := x / TWO64;
    assert x + q * TWO64 == (k + q) * TWO64 + x % TWO64;
  }

  lemma {:induction false} FirstMonotone(tl: seq<Entry>, i: nat, j: nat)
    requires i <= j <= |tl|
    ensures First(tl, i) <= First(tl, j)
  {
    if i < j { FirstMonotone(tl, i, j - 1); }
  }

  /** timelineSegments: numbers and times are kept in 64-bit unsigned variables. */
  method TimelineSegments(tl: seq<Entry>, start: nat) returns (out: seq<Seg>)
    requires start < TWO64 && forall i :: 0 <= i < |tl| ==> tl[i].t.Some? ==> tl[i].t.value < TWO64
    ensures Expands(tl, start, |tl|, out)
  {
    out := [];
    var num, t := start, 0;
    for k := 0 to |tl|
      invariant Expands(tl, start, k, out)
      invariant num == (start + First(tl, k)) % TWO64
      invariant t == (if k == 0 then 0 else (Base(tl, k - 1) + Repeats(tl[k - 1]) * tl[k - 1].d) % TWO64)
    {
      if tl[k].t.Some? { t := tl[k].t.value; }
      var more;
      more, num, t := Repeat(tl, start, k, num, t);
      ExpandsMore(tl, start, k, out, more);
      out := out + more;
    }
  }

  /** The inner loop: one entry, repeated. */
  method Repeat(tl: seq<Entry>, ghost start: nat, k: nat, num0: nat, t0: nat) returns (more: seq<Seg>, num: nat, t: nat)
    requires k < |tl|
    requires num0 == (start + First(tl, k)) % TWO64 && t0 == Base(tl, k) % TWO64
    ensures |more| == Repeats(tl[k]) && forall q :: 0 <= q < |more| ==> more[q] == SegAt(tl, start, k, q)
    ensures num == (start + First(tl, k + 1)) % TWO64
    ensures t == (Base(tl, k) + Repeats(tl[k]) * tl[k].d) % TWO64
  {
    hide First, Base;
    var s := tl[k];
    var reps := if s.r < 0 then 0 else s.r;
    more, num, t := [], num0, t0;
    var i := 0;
    while i <= reps
      invariant 0 <= i <= reps + 1 == Repeats(s) && |more| == i
      invariant forall q :: 0 <= q < i ==> more[q] == SegAt(tl, start, k, q)
      invariant num == (start + First(tl, k) + i) % TWO64
      invariant t == (Base(tl, k) + i * s.d) % TWO64
    {
      more := more + [Seg(num, t, s.d)];
      NextSeg(start + First(tl, k), Base(tl, k), i, s.d);
      t := (t + s.d) % TWO64;
      num := (num + 1) % TWO64;
      i := i + 1;
    }
    FirstNext(tl, k);
  }

  lemma FirstNext(tl: seq<Entry>, k: nat)
    requires k < |tl|
    ensures First(tl, k + 1) == First(tl, k) + Repeats(tl[k])
  {
  }

  lemma NextSeg(n: nat, base: nat, i: nat, d: nat)
    ensures ((n + i) % TWO64 + 1) % TWO64 == (n + (i + 1)) % TWO64
    ensures ((base + i * d) % TWO64 + d) % TWO64 == (base + (i + 1) * d) % TWO64
  {
    AddMod(n + i, 1);
    AddMod(base + i * d, d);
    assert (i + 1) * d == i * d + d;
  }

  lemma ExpandsMore(tl: seq<Entry>, start: nat, k: nat, before: seq<Seg>, more: seq<Seg>)
    requires k < |tl| && Expands(tl, start, k, before)
    requires |more| == Repeats(tl[k])
    requires forall q :: 0 <= q < |more| ==> more[q] == SegAt(tl, start, k, q)
    ensures Expands(tl, start, k + 1, before + more)
  {
    forall i, q | 0 <= i < k + 1 && 0 <= q < Repeats(tl[i]) ensures Holds(tl, start, before + more, i, q) {
      if i < k { assert Holds(tl, start, before, i, q); }
    }
  }

  // -------------------------------------------------------- consequences

  lemma {:induction false} EntryOf(tl: seq<Entry>, k: nat, n: nat) returns (i: nat, q: nat)
    requires n <= |tl| && k < First(tl, n)
    ensures i < n && q < Repeats(tl[i]) && k == First(tl, i) + q
  {
    if First(tl, n - 1) <= k {
      i, q := n - 1, k - First(tl, n - 1);
    } else {
      i, q := EntryOf(tl, k, n - 1);
    }
  }

  /** The whole expansion: one segment for each repeat, numbered consecutively from the start number. */
  lemma NumberedConsecutively(tl: seq<Entry>, start: nat, out: seq<Seg>, k: nat)
    requires Expands(tl, start, |tl|, out) && k < |out|
    ensures out[k].number == (start + k) % TWO64
    ensures start + |out| <= TWO64 ==> out[k].number == start + k
  {
    var i, q := EntryOf(tl, k, |tl|);
    assert Holds(tl, start, out, i, q);
  }

  /** A segment starts where the one before it ends, unless it is the first of an entry that states
      its own time, and then it starts there; the very first starts at 0 unless its entry states a
      time. It is segment q of entry i. */
  lemma RunningSum(tl: seq<Entry>, start: nat, out: seq<Seg>, k: nat) returns (i: nat, q: nat)
    requires Expands(tl, start, |tl|, out) && k < |out|
    ensures i < |tl| && q < Repeats(tl[i]) && k == First(tl, i) + q && out[k].d == tl[i].d
    ensures out[k].time == (if q == 0 && tl[i].t.Some? then tl[i].t.value
                            else if k == 0 then 0
                            else out[k - 1].time + out[k - 1].d) % TWO64
    ensures k == 0 ==> i == 0 && q == 0
  {
    hide First, SegAt, Base;
    i, q := EntryOf(tl, k, |tl|);
    assert Holds(tl, start, out, i, q);
    StartsAt(tl, start, i, q);
    EntryStarts(tl, i);
    if q > 0 {
      assert Holds(tl, start, out, i, q - 1);
      StartsAt(tl, start, i, q - 1);
    } else if i > 0 {
      assert Holds(tl, start, out, i - 1, Repeats(tl[i - 1]) - 1);
      StartsAt(tl, start, i - 1, Repeats(tl[i - 1]) - 1);
      FirstNext(tl, i - 1);
    }
  }

  /** The first segment of the first entry is the first; those of later entries are not. */
  lemma EntryStarts(tl: seq<Entry>, i: nat)
    requires i < |tl|
    ensures First(tl, i) == 0 <==> i == 0
  {
    if i > 0 { FirstMonotone(tl, 1, i); }
  }

  lemma StartsAt(tl: seq<Entry>, start: nat, i: nat, q: nat)
    requires i < |tl|
    ensures var s := SegAt(tl, start, i, q);
      && s.d == tl[i].d
      && (q > 0 ==> s.time == (SegAt(tl, start, i, q - 1).time + tl[i].d) % TWO64)
      && (q == 0 && tl[i].t.Some? ==> s.time == tl[i].t.value % TWO64)
      && (q == 0 && tl[i].t == None && i == 0 ==> s.time == 0)
      && (q == 0 && tl[i].t == None && i > 0 ==>
            s.time == (SegAt(tl, start, i - 1, Repeats(tl[i - 1]) - 1).time + tl[i - 1].d) % TWO64)
  {
    if q > 0 {
      NextSeg(start + First(tl, i), Base(tl, i), q - 1, tl[i].d);
    } else if tl[i].t == None && i > 0 {
      NextSeg(start + First(tl, i - 1), Base(tl, i - 1), Repeats(tl[i - 1]) - 1, tl[i - 1].d);
    }
  }

  /** The repeats beyond the first of each entry; a negative count asks for none. */
  function Extra(tl: seq<Entry>): nat {
    if tl == [] then 0 else Extra(tl[..|tl| - 1]) + if tl[|tl| - 1].r > 0 then tl[|tl| - 1].r else 0
  }

  /** The expansion has a segment for each entry and one more for each of its repeats. */
  lemma HowMany(tl: seq<Entry>, start: nat, out: seq<Seg>)
    requires Expands(tl, start, |tl|, out)
    ensures |out| == |tl| + Extra(tl)
  {
    assert tl[..|tl|] == tl;
    CountTo(tl, |tl|);
  }

  lemma {:induction false} CountTo(tl: seq<Entry>, n: nat)
    requires n <= |tl|
    ensures First(tl, n) == n + Extra(tl[..n])
  {
    if n > 0 {
      CountTo(tl, n - 1);
      assert tl[..n][..n - 1] == tl[..n - 1];
    }
  }

  // -------------------------------------------------------- the target duration

  function Ceil(x: real): int { if x == x.Floor as real then x.Floor else x.Floor + 1 }

  function Seconds(d: nat, timescale: nat): real
    requires timescale > 0
  {
    d as real / timescale as real
  }

  /** A duration in seconds is the number of ticks over the ticks of a second. */
  lemma SecondsAreTicks(d: nat, timescale: nat)
    requires timescale > 0
    ensures Seconds(d, timescale) * timescale as real == d as real
  {
  }

  /** m is x to the nearest thousandth, in thousandths, ties either way. */
  predicate Rounds(x: real, m: int) {
    x * 1000.0 - 0.5 <= m as real <= x * 1000.0 + 0.5
  }

  datatype Playlist = Playlist(target: int, sequence: nat, segs: seq<Seg>)

  datatype Outcome = NoSegments | Made(playlist: Playlist)

  /** The arithmetic of dashToHLS over exact rationals: the longest duration gives the target. */
  method DashToHls(tl: seq<Entry>, startNumber: Option<nat>, timescale0: nat) returns (r: Outcome)
    requires startNumber.Some? ==> startNumber.value < 0x1_0000_0000
    requires forall i :: 0 <= i < |tl| ==> tl[i].t.Some? ==> tl[i].t.value < TWO64
    ensures r == NoSegments <==> tl == []
    ensures r.Made? ==>
      var start := if startNumber.Some? then startNumber.value else 1;
      var timescale := if timescale0 == 0 then 1 else timescale0;
      && r.playlist.sequence == start && r.playlist.segs != [] && r.playlist.segs[0].number == start
      && Expands(tl, start, |tl|, r.playlist.segs)
      && LeastTarget(r.playlist.segs, timescale, r.playlist.target)
  {
    var timescale := if timescale0 == 0 then 1 else timescale0;
    var start := if startNumber.Some? then startNumber.value else 1;
    var segs := TimelineSegments(tl, start);
    if |tl| > 0 { FirstMonotone(tl, 1, |tl|); }
    if segs == [] { return NoSegments; }
    var maxDur := 0.0;
    for k := 0 to |segs|
      invariant maxDur >= 0.0
      invariant forall j :: 0 <= j < k ==> Seconds(segs[j].d, timescale) <= maxDur
      invariant maxDur == 0.0 || exists j :: 0 <= j < k && Seconds(segs[j].d, timescale) == maxDur
    {
      var d := Seconds(segs[k].d, timescale);
      if d > maxDur { maxDur := d; }
    }
    NumberedConsecutively(tl, start, segs, 0);
    return Made(Playlist(Ceil(maxDur), start, segs));
  }

  /** The least whole number of seconds that no segment exceeds. */
  ghost predicate LeastTarget(segs: seq<Seg>, timescale: nat, target: int)
    requires timescale > 0
  {
    && target >= 0
    && (forall k :: 0 <= k < |segs| ==> Seconds(segs[k].d, timescale) <= target as real)
    && (target > 0 ==> exists k :: 0 <= k < |segs| && Seconds(segs[k].d, timescale) > (target - 1) as real)
  }

  /** Every EXTINF, a duration rounded to milliseconds, is at most the target duration; and so is
      the duration rounded to a whole second (section 4.3.3.1 of RFC 8216). */
  lemma RoundedWithinTarget(segs: seq<Seg>, timescale: nat, target: int, k: nat, millis: int, whole: int)
    requires timescale > 0 && LeastTarget(segs, timescale, target) && k < |segs|
    requires Rounds(Seconds(segs[k].d, timescale), millis)
    requires Seconds(segs[k].d, timescale) - 0.5 <= whole as real <= Seconds(segs[k].d, timescale) + 0.5
    ensures millis <= 1000 * target && whole <= target
  {
    var x := Seconds(segs[k].d, timescale);
    assert x <= target as real;
    assert millis as real <= (1000 * target) as real + 0.5;
  }
}
