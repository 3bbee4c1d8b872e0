/** Sorted, merged lists of half-open byte ranges, and the plain set of offsets they stand for. */
module Intervals {

  datatype Interval = Interval(start: int, end: int)

  /** The offsets a <= o < b. */
  function Range(a: int, b: int): (r: set<int>)
    ensures forall o :: o in r <==> a <= o < b
  {
    set o | a <= o < b && Within(o, a, b)
  }

  predicate Within(o: int, a: int, b: int) { a <= o < b }

  lemma {:induction false} RangeSize(a: int, b: int)
    requires a <= b
    ensures |Range(a, b)| == b - a
    decreases b - a
  {
    if a < b {
      RangeSize(a, b - 1);
      assert Range(a, b) == Range(a, b - 1) + {b - 1};
    } else {
      assert Range(a, b) == {};
    }
  }

  /** The offsets a list of ranges stands for. */
  function Bytes(items: seq<Interval>): set<int> {
    if items == [] then {}
    else Bytes(items[..|items| - 1]) + Range(items[|items| - 1].start, items[|items| - 1].end)
  }

  ghost predicate Has(items: seq<Interval>, o: int) {
    exists i :: 0 <= i < |items| && items[i].start <= o < items[i].end
  }

  /** Sorted, non-empty, non-overlapping and non-adjacent. */
  ghost predicate Canonical(items: seq<Interval>) {
    && (forall i :: 0 <= i < |items| ==> items[i].start < items[i].end)
    && (forall i, j :: 0 <= i < j < |items| ==> items[i].end < items[j].start)
  }

  function Total(items: seq<Interval>): int {
    if items == [] then 0
    else Total(items[..|items| - 1]) + (items[|items| - 1].end - items[|items| - 1].start)
  }

  lemma BytesSnoc(items: seq<Interval>, it: Interval)
    ensures Bytes(items + [it]) == Bytes(items) + Range(it.start, it.end)
  {
    assert (items + [it])[..|items|] == items;
  }

  /** An offset is denoted exactly when some stored range contains it. */
  lemma {:induction false} BytesHas(items: seq<Interval>)
    ensures forall o :: o in Bytes(items) <==> Has(items, o)
  {
    if items != [] {
      var n := |items| - 1;
      BytesHas(items[..n]);
      forall o ensures o in Bytes(items) <==> Has(items, o) {
        if o in Bytes(items) {
          if o in Bytes(items[..n]) {
            assert Has(items[..n], o);
            var i :| 0 <= i < n && items[..n][i].start <= o < items[..n][i].end;
            assert items[i].start <= o < items[i].end;
          } else {
            assert items[n].start <= o < items[n].end;
          }
        }
        if Has(items, o) {
          var i :| 0 <= i < |items| && items[i].start <= o < items[i].end;
          if i < n {
            assert items[..n][i].start <= o < items[..n][i].end;
            assert Has(items[..n], o);
          }
        }
      }
    }
  }

  /** A merged list leaves the offset just past, and just before, each of its ranges out. */
  lemma EdgesAbsent(items: seq<Interval>, i: int)
    requires Canonical(items) && 0 <= i < |items|
    ensures items[i].end !in Bytes(items)
    ensures items[i].start - 1 !in Bytes(items)
  {
    BytesHas(items);
    var before, after := items[i].start - 1, items[i].end;
    forall j | 0 <= j < |items|
      ensures !(items[j].start <= before < items[j].end) && !(items[j].start <= after < items[j].end)
    {
      assert j < i ==> items[j].end < items[i].start;
      assert i < j ==> items[i].end < items[j].start;
    }
    assert !Has(items, before) && !Has(items, after);
  }

  /** In a merged list, a run of denoted offsets lies inside one stored range. */
  lemma RunInOne(items: seq<Interval>, a: int, b: int) returns (i: int)
    requires Canonical(items) && a < b && Range(a, b) <= Bytes(items)
    ensures 0 <= i < |items| && items[i].start <= a && b <= items[i].end
  {
    BytesHas(items);
    assert a in Range(a, b);
    assert Has(items, a);
    i :| 0 <= i < |items| && items[i].start <= a < items[i].end;
    if items[i].end < b {
      assert items[i].end in Range(a, b);
      EdgesAbsent(items, i);
    }
  }

  /** Canonical form: a set of offsets has one merged list only. */
  lemma {:induction false} CanonicalUnique(a: seq<Interval>, b: seq<Interval>)
    requires Canonical(a) && Canonical(b) && Bytes(a) == Bytes(b)
    ensures a == b
    decreases |a|
  {
    if a != [] { FirstHeld(a); }
    if b != [] { FirstHeld(b); }
    if a != [] {
      var m, n := |a| - 1, |b| - 1;
      assert a[m] == b[n] by { LastFits(a, b); LastFits(b, a); }
      assert Canonical(a[..m]) && Canonical(b[..n]) && Bytes(a[..m]) == Bytes(b[..n]) by { InitBytes(a); InitBytes(b); }
      CanonicalUnique(a[..m], b[..n]);
      assert a == a[..m] + [a[m]] && b == b[..n] + [b[n]];
    }
  }

  /** The lists an empty set passes through when ranges are added one by one: each is canonical and
      denotes the union, which is what IntervalSet.Add is proved to do. */
  ghost predicate Additions(rs: seq<Interval>, lists: seq<seq<Interval>>) {
    && |lists| == |rs| + 1 && lists[0] == []
    && (forall k :: 0 <= k < |lists| ==> Canonical(lists[k]))
    && (forall k :: 0 <= k < |rs| ==> Bytes(lists[k + 1]) == Bytes(lists[k]) + Range(rs[k].start, rs[k].end))
  }

  /** Ranges added in any order leave the same merged list. */
  lemma AddOrderIrrelevant(rs: seq<Interval>, qs: seq<Interval>, a: seq<seq<Interval>>, b: seq<seq<Interval>>)
    requires multiset(rs) == multiset(qs) && Additions(rs, a) && Additions(qs, b)
    ensures a[|rs|] == b[|qs|]
  {
    AdditionsBytes(rs, a);
    AdditionsBytes(qs, b);
    SameBytes(rs, qs);
    SameBytes(qs, rs);
    CanonicalUnique(a[|rs|], b[|qs|]);
  }

  lemma {:induction false} AdditionsBytes(rs: seq<Interval>, lists: seq<seq<Interval>>)
    requires Additions(rs, lists)
    ensures Bytes(lists[|rs|]) == Bytes(rs)
  {
    if rs != [] {
      var n := |rs| - 1;
      AdditionsBytes(rs[..n], lists[..n + 1]);
      assert rs == rs[..n] + [rs[n]];
      BytesSnoc(rs[..n], rs[n]);
    }
  }

  lemma SameBytes(rs: seq<Interval>, qs: seq<Interval>)
    requires multiset(rs) == multiset(qs)
    ensures Bytes(rs) <= Bytes(qs)
  {
    BytesHas(rs);
    BytesHas(qs);
    forall o | Has(rs, o) ensures Has(qs, o) {
      var i :| 0 <= i < |rs| && rs[i].start <= o < rs[i].end;
      assert rs[i] in multiset(qs);
      var j :| 0 <= j < |qs| && qs[j] == rs[i];
    }
  }

  lemma FirstHeld(a: seq<Interval>)
    requires Canonical(a) && a != []
    ensures a[0].start in Bytes(a)
  {
    BytesHas(a);
    assert Has(a, a[0].start);
  }

  lemma LastFits(a: seq<Interval>, b: seq<Interval>)
    requires Canonical(a) && Canonical(b) && a != [] && b != [] && Bytes(a) == Bytes(b)
    ensures var x, y := a[|a| - 1], b[|b| - 1]; y.start <= x.start && x.end <= y.end
  {
    var x, y := a[|a| - 1], b[|b| - 1];
    assert forall k :: 0 <= k < |b| - 1 ==> b[k].end < y.start;
    BytesHas(a);
    forall o | o in Range(x.start, x.end) ensures o in Bytes(b) { assert Has(a, o); }
    var i := RunInOne(b, x.start, x.end);
    BelowLast(a);
    assert y.start in Bytes(b) by {
      BytesHas(b);
      assert Has(b, y.start);
    }
  }

  lemma BelowLast(a: seq<Interval>)
    requires Canonical(a) && a != []
    ensures forall o :: o in Bytes(a) ==> o < a[|a| - 1].end
  {
    BytesHas(a);
    forall o | Has(a, o) ensures o < a[|a| - 1].end {
      var i :| 0 <= i < |a| && a[i].start <= o < a[i].end;
      assert i < |a| - 1 ==> a[i].end < a[|a| - 1].start;
    }
  }

  lemma InitBytes(a: seq<Interval>)
    requires Canonical(a) && a != []
    ensures Canonical(a[..|a| - 1])
    ensures Bytes(a[..|a| - 1]) == Bytes(a) - Range(a[|a| - 1].start, a[|a| - 1].end)
  {
    var m := |a| - 1;
    BytesHas(a[..m]);
    forall o | o in Bytes(a[..m]) ensures o !in Range(a[m].start, a[m].end) {
      assert Has(a[..m], o);
      var i :| 0 <= i < m && a[..m][i].start <= o < a[..m][i].end;
      assert a[i].end < a[m].start;
    }
  }

  /** The byte count of a merged list is the number of offsets it denotes. */
  lemma {:induction false} TotalIsCardinality(items: seq<Interval>)
    requires Canonical(items)
    ensures Total(items) == |Bytes(items)|
  {
    if items != [] {
      InitBytes(items);
      TotalIsCardinality(items[..|items| - 1]);
      var last := items[|items| - 1];
      assert Bytes(items) == Bytes(items[..|items| - 1]) + Range(last.start, last.end);
      assert Bytes(items[..|items| - 1]) !! Range(last.start, last.end);
      RangeSize(last.start, last.end);
    }
  }

  function Last(items: seq<Interval>): Interval
    requires items != []
  {
    items[|items| - 1]
  }

  lemma Empty()
    ensures Canonical([]) && Bytes([]) == {}
  {
  }

  lemma Snoc(items: seq<Interval>, it: Interval)
    requires Canonical(items) && it.start < it.end
    requires items == [] || Last(items).end < it.start
    ensures Canonical(items + [it])
    ensures forall o :: o in Bytes(items + [it]) <==> o in Bytes(items) || it.start <= o < it.end
  {
    hide Bytes;
    BytesSnoc(items, it);
    SnocCanonical(items, it);
  }

  lemma SnocCanonical(items: seq<Interval>, it: Interval)
    requires Canonical(items) && it.start < it.end
    requires items == [] || Last(items).end < it.start
    ensures Canonical(items + [it])
  {
    var all := items + [it];
    forall i, j | 0 <= i < j < |all| ensures all[i].end < all[j].start {
      assert i < |items| - 1 ==> items[i].end < Last(items).start;
    }
  }

  lemma Next(xs: seq<Interval>, k: int)
    requires Canonical(xs) && 0 <= k < |xs|
    ensures xs[k].start < xs[k].end && (k > 0 ==> xs[k - 1].start < xs[k - 1].end < xs[k].start)
    ensures Bytes(xs[..k + 1]) == Bytes(xs[..k]) + Range(xs[k].start, xs[k].end)
  {
    assert xs[..k + 1] == xs[..k] + [xs[k]];
    BytesSnoc(xs[..k], xs[k]);
  }

  /** What the ranges from the k-th on denote. */
  lemma Later(xs: seq<Interval>, k: int)
    requires Canonical(xs) && 0 <= k <= |xs|
    ensures forall o :: o in Bytes(xs[..k]) ==> o in Bytes(xs)
    ensures forall o :: o in Bytes(xs) && o !in Bytes(xs[..k]) ==> k < |xs| && xs[k].start <= o
    ensures k > 0 ==> forall o :: o in Bytes(xs) && o !in Bytes(xs[..k]) ==> xs[k - 1].end < o
  {
    hide Bytes;
    BytesHas(xs);
    BytesHas(xs[..k]);
    forall o | Has(xs, o)
      ensures Has(xs[..k], o) || (k < |xs| && xs[k].start <= o && (k > 0 ==> xs[k - 1].end < o))
    {
      var i :| 0 <= i < |xs| && xs[i].start <= o < xs[i].end;
      if i < k { assert xs[..k][i] == xs[i]; }
    }
    forall o | Has(xs[..k], o) ensures Has(xs, o) {
      var i :| 0 <= i < k && xs[..k][i].start <= o < xs[..k][i].end;
      assert xs[i].start <= o;
    }
  }

  /** The ranges of [start, end) that `items` does not hold, as a merged list. */
  ghost predicate IsMissing(items: seq<Interval>, start: int, end: int, gaps: seq<Interval>) {
    Canonical(gaps) && Bytes(gaps) == Range(start, end) - Bytes(items)
  }

  /** What is held of a range and what is missing of it add up to its length. */
  lemma HeldPlusMissing(items: seq<Interval>, start: int, end: int, gaps: seq<Interval>)
    requires Canonical(items) && start <= end && IsMissing(items, start, end, gaps)
    ensures |Bytes(items) * Range(start, end)| + Total(gaps) == end - start
  {
    TotalIsCardinality(gaps);
    RangeSize(start, end);
    var held := Bytes(items) * Range(start, end);
    assert held + Bytes(gaps) == Range(start, end);
    assert held !! Bytes(gaps);
  }

  // The output of `Add` once the new range is in its place.
  ghost predicate AddPlaced(xs: seq<Interval>, k: int, end: int, out: seq<Interval>)
    requires 0 <= k <= |xs|
  {
    k > 0 && end < xs[k - 1].start && out != [] && Last(out) == xs[k - 1]
  }

  // The output of `Add` before that: it ends short of the new range, which has
  // absorbed the range met last or not reached it.
  ghost predicate AddWaiting(xs: seq<Interval>, k: int, start: int, out: seq<Interval>)
    requires 0 <= k <= |xs|
  {
    && (out != [] ==> k > 0 && Last(out).end < start && Last(out).end <= xs[k - 1].end)
    && (k > 0 && start <= xs[k - 1].end ==> start <= xs[k - 1].start)
  }

  /** A stored set of byte ranges (server/sparse.go, type intervalSet). */
  class IntervalSet {
    var items: seq<Interval>

    ghost predicate Valid() reads this { Canonical(items) }

    ghost function Held(): set<int> reads this { Bytes(items) }

    constructor ()
      ensures Valid() && Held() == {} && fresh(this)
    {
      items := [];
    }

    method Add(start0: int, end0: int)
      requires Valid()
      modifies this
      ensures Valid() && Held() == old(Held()) + Range(start0, end0)
    {
      hide Bytes, Canonical;
      if start0 >= end0 { return; }
      var start, end, out, inserted := start0, end0, [], false;
      var k := 0;
      var xs := items;
      Empty();
      assert xs[..0] == [];
      while k < |xs|
        invariant 0 <= k <= |xs| && Canonical(out)
        invariant start <= start0 < end0 <= end
        invariant inserted ==> AddPlaced(xs, k, end, out)
        invariant !inserted ==> AddWaiting(xs, k, start, out)
        invariant forall o :: o in Bytes(xs[..k]) || start0 <= o < end0 <==>
                              o in Bytes(out) || (!inserted && start <= o < end)
      {
        var it := xs[k];
        Next(xs, k);
        if it.end < start {
          Snoc(out, it);
          out := out + [it];
        } else if it.start > end {
          if !inserted {
            Snoc(out, Interval(start, end));
            out := out + [Interval(start, end)];
            inserted := true;
          }
          Snoc(out, it);
          out := out + [it];
        } else {
          if it.start < start { start := it.start; }
          if it.end > end { end := it.end; }
        }
        k := k + 1;
      }
      assert xs[..k] == xs;
      if !inserted {
        Snoc(out, Interval(start, end));
        out := out + [Interval(start, end)];
      }
      items := out;
    }

    method Remove(start: int, end: int)
      requires Valid()
      modifies this
      ensures Valid() && Held() == old(Held()) - Range(start, end)
    {
      hide Bytes, Canonical;
      if start >= end { return; }
      var out: seq<Interval> := [];
      var k := 0;
      var xs := items;
      Empty();
      assert xs[..0] == [];
      while k < |xs|
        invariant 0 <= k <= |xs|
        invariant Canonical(out)
        invariant out == [] || (k > 0 && Last(out).end <= xs[k - 1].end)
        invariant forall o :: o in Bytes(out) <==> o in Bytes(xs[..k]) && !(start <= o < end)
      {
        var it := xs[k];
        Next(xs, k);
        if it.end <= start || it.start >= end {
          Snoc(out, it);
          out := out + [it];
        } else {
          if it.start < start {
            Snoc(out, Interval(it.start, start));
            out := out + [Interval(it.start, start)];
          }
          if it.end > end {
            Snoc(out, Interval(end, it.end));
            out := out + [Interval(end, it.end)];
          }
        }
        k := k + 1;
      }
      assert xs[..k] == xs;
      items := out;
    }

    /** One stored range contains [start, end) exactly when every offset of it is held. */
    method Covers(start: int, end: int) returns (r: bool)
      requires Valid()
      ensures r <==> Range(start, end) <= Held()
    {
      if start >= end { return true; }
      BytesHas(items);
      for k := 0 to |items|
        invariant forall i :: 0 <= i < k ==> !(items[i].start <= start && items[i].end >= end)
      {
        if items[k].start <= start && items[k].end >= end {
          forall o | o in Range(start, end) ensures o in Held() { assert Has(items, o); }
          return true;
        }
      }
      if Range(start, end) <= Held() { var i := RunInOne(items, start, end); }
      return false;
    }

    method Missing(start: int, end: int) returns (gaps: seq<Interval>)
      requires Valid()
      ensures IsMissing(items, start, end, gaps)
    {
      hide Bytes, Canonical;
      gaps := [];
      var pos := start;
      var k := 0;
      var xs := items;
      Empty();
      assert xs[..0] == [];
      while k < |xs|
        invariant 0 <= k <= |xs| && start <= pos
        invariant Canonical(gaps) && (gaps != [] ==> Last(gaps).end < pos)
        invariant k > 0 ==> xs[k - 1].end <= pos
        invariant pos == start || (k > 0 && pos == xs[k - 1].end)
        invariant forall o :: o in Bytes(gaps) <==> start <= o < pos && o < end && o !in Bytes(xs[..k])
        invariant forall o :: o in Bytes(xs[..k]) ==> o < pos
      {
        var it := xs[k];
        Next(xs, k);
        if it.end <= pos {
          k := k + 1;
          continue;
        }
        if it.start >= end { break; }
        if it.start > pos {
          var gap := Interval(pos, if it.start < end then it.start else end);
          Snoc(gaps, gap);
          gaps := gaps + [gap];
        }
        if it.end > pos { pos := it.end; }
        k := k + 1;
        if pos >= end { break; }
      }
      Later(xs, k);
      if pos < end {
        Snoc(gaps, Interval(pos, end));
        gaps := gaps + [Interval(pos, end)];
      }
    }

    /** The end of the held run at off: the first offset at or after off that is not held. */
    method RunEnd(off: int) returns (r: int)
      requires Valid()
      ensures off <= r && Range(off, r) <= Held() && r !in Held()
    {
      BytesHas(items);
      for k := 0 to |items|
        invariant forall i :: 0 <= i < k ==> !(items[i].start <= off < items[i].end)
      {
        if items[k].start <= off < items[k].end {
          EdgesAbsent(items, k);
          forall o | o in Range(off, items[k].end) ensures o in Held() { assert Has(items, o); }
          return items[k].end;
        }
      }
      return off;
    }

    method TotalBytes() returns (total: int)
      requires Valid()
      ensures total == |Held()|
    {
      total := 0;
      for k := 0 to |items|
        invariant total == Total(items[..k])
      {
        assert items[..k + 1][..k] == items[..k];
        total := total + (items[k].end - items[k].start);
      }
      assert items[..|items|] == items;
      TotalIsCardinality(items);
    }
  }
}
