/** The sparse file object (server/sparse.go, type SparseFile) proved against SparseSpec. */
module SparseFiles {
  import opened Intervals
  import opened SparseSpec

  const MAX_FILL_CHUNK := 0x80_0000

  /** What one check of waitByte finds while it holds the mutex. */
  datatype Look = Present | Gone(err: Error) | Sleep

  /** What a wait reports once the file is done: its error, or else that the byte never came. */
  function Verdict(err: Option<Error>): Error { if err.Some? then err.value else UnexpectedEof }

  class SparseFile {
    const size: int
    const chunk: int
    const present: IntervalSet
    const inflight: IntervalSet
    const data: array<byte>
    var closed: bool
    var done: bool
    var err: Option<Error>
    var broadcasts: nat    // calls of cond.Broadcast so far

    ghost predicate Valid()
      reads this, present, inflight
    {
      && 0 <= size == data.Length && 0 < chunk && size + chunk <= MAX_INT64
      && present != inflight && present.Valid() && inflight.Valid()
      && present.Held() <= Range(0, size)
    }

    ghost function Abs(): Sparse
      reads this, present, inflight
    {
      Sparse(size, chunk, present.Held(), inflight.Held(), closed, done, err)
    }

    /** Every published byte is the upstream's. */
    ghost predicate Sound(up: seq<byte>)
      reads this, present, data
    {
      |up| == data.Length && forall o :: 0 <= o < |up| && o in present.Held() ==> data[o] == up[o]
    }

    constructor (size: int, chunk: int)
      requires 0 <= size && size + (if chunk <= 0 then MAX_FILL_CHUNK else chunk) <= MAX_INT64
      ensures Valid() && fresh(present) && fresh(inflight) && fresh(data)
      ensures Abs() == Sparse(size, if chunk <= 0 then MAX_FILL_CHUNK else chunk, {}, {}, false, false, None)
      ensures forall o :: 0 <= o < size ==> data[o] == 0
    {
      this.size := size;
      this.chunk := if chunk <= 0 then MAX_FILL_CHUNK else chunk;
      present := new IntervalSet();
      inflight := new IntervalSet();
      data := new byte[size](_ => 0);
      closed, done, err, broadcasts := false, false, None, 0;
    }

    /** reserve: nested loops over the gaps of `present`, then of `inflight`, then chunk by chunk. */
    method Reserve(start0: int, end0: int) returns (out: seq<Interval>)
      requires Valid()
      modifies inflight
      ensures Valid() && IsReservation(old(Abs()), start0, end0, out)
      ensures Abs() == After(old(Abs()), Op.Reserve(out)) && broadcasts == old(broadcasts) + Wakes(Op.Reserve(out))
    {
      var start := if start0 < 0 then 0 else start0;
      var end := if end0 > size then size else end0;
      hide Bytes, Reserved, Canonical;
      out := [];
      ghost var s := Abs();
      NothingReserved(s, start, end);
      if start >= end { return; }
      var gaps := present.Missing(start, end);
      var g := 0;
      GapStep(s, start, end, gaps, 0);
      while g < |gaps|
        invariant 0 <= g <= |gaps| && Valid() && start <= GapLo(gaps, g, start)
        invariant Reserved(s, start, end, GapLo(gaps, g, start), out)
        invariant Abs() == s.(inflight := s.inflight + Bytes(out))
      {
        GapStep(s, start, end, gaps, g);
        out := ReserveGap(gaps[g], start, end, GapLo(gaps, g, start), out, s);
        g := g + 1;
      }
      GapStep(s, start, end, gaps, g);
      ReservedSkip(s, start, end, GapLo(gaps, g, start), end, out);
    }

    /** One pass of the middle loop of reserve. */
    method ReserveGap(gap: Interval, ghost lo: int, ghost hi: int, ghost upto: int, out0: seq<Interval>,
                      ghost s: Sparse)
      returns (out: seq<Interval>)
      requires Valid() && Abs() == s.(inflight := s.inflight + Bytes(out0))
      requires Reserved(s, lo, hi, upto, out0) && 0 <= lo <= upto <= gap.start < gap.end <= hi <= size
      requires forall o :: upto <= o < gap.start ==> !Free(s, o)
      requires forall o :: gap.start <= o < gap.end ==> o !in s.present
      requires gap.end == hi || !Free(s, gap.end)
      modifies inflight
      ensures Valid() && Abs() == s.(inflight := s.inflight + Bytes(out))
      ensures Reserved(s, lo, hi, gap.end, out)
    {
      hide Bytes, Reserved, Canonical;
      out := out0;
      var subs := inflight.Missing(gap.start, gap.end);
      SubAt(s, lo, hi, upto, out0, gap, subs, 0);
      ReservedSkip(s, lo, hi, upto, gap.start, out);
      var k := 0;
      while k < |subs|
        invariant 0 <= k <= |subs| && Valid() && gap.start <= GapLo(subs, k, gap.start)
        invariant Reserved(s, lo, hi, GapLo(subs, k, gap.start), out)
        invariant Abs() == s.(inflight := s.inflight + Bytes(out))
      {
        SubAt(s, lo, hi, upto, out0, gap, subs, k);
        out := ReserveSub(subs[k], lo, hi, GapLo(subs, k, gap.start), out, s);
        k := k + 1;
      }
      SubAt(s, lo, hi, upto, out0, gap, subs, k);
      ReservedSkip(s, lo, hi, GapLo(subs, k, gap.start), gap.end, out);
    }

    /** The innermost loop of reserve: cut a free run into chunks. */
    method ReserveSub(sub: Interval, ghost lo: int, ghost hi: int, ghost upto: int, out0: seq<Interval>,
                      ghost s: Sparse)
      returns (out: seq<Interval>)
      requires Valid() && Abs() == s.(inflight := s.inflight + Bytes(out0))
      requires Reserved(s, lo, hi, upto, out0) && 0 <= lo <= upto <= sub.start < sub.end <= hi <= size
      requires forall o :: upto <= o < sub.start ==> !Free(s, o)
      requires forall o :: sub.start <= o < sub.end ==> Free(s, o)
      requires sub.end == hi || !Free(s, sub.end)
      modifies inflight
      ensures Valid() && Abs() == s.(inflight := s.inflight + Bytes(out))
      ensures Reserved(s, lo, hi, sub.end, out)
    {
      hide Bytes, Reserved;
      out := out0;
      var p := sub.start;
      ReservedSkip(s, lo, hi, upto, p, out);
      while p < sub.end
        invariant sub.start <= p && Valid()
        invariant Reserved(s, lo, hi, Min(p, sub.end), out)
        invariant Abs() == s.(inflight := s.inflight + Bytes(out))
        decreases sub.end - p
      {
        var e := Min(Add64(p, chunk), sub.end);
        inflight.Add(p, e);
        BytesSnoc(out, Interval(p, e));
        ReservedSnoc(s, lo, hi, p, out, Interval(p, e));
        out := out + [Interval(p, e)];
        p := Add64(p, chunk);
      }
    }

    /** reserveLowest: one piece at the least free byte, or nothing when no byte is free. */
    method ReserveLowest() returns (iv: Interval, ok: bool)
      requires Valid()
      modifies inflight
      ensures Valid()
      ensures ok <==> exists o :: Free(old(Abs()), o)
      ensures ok ==> IsLowest(old(Abs()), iv) && Abs() == After(old(Abs()), Op.Reserve([iv]))
      ensures !ok ==> Abs() == old(Abs())
    {
      hide Bytes, Reserved, Canonical;
      ghost var s := Abs();
      NothingReserved(s, 0, size);
      var gaps := present.Missing(0, size);
      GapStep(s, 0, size, gaps, 0);
      for g := 0 to |gaps|
        invariant Abs() == s && Valid()
        invariant 0 <= GapLo(gaps, g, 0) && forall o :: 0 <= o < GapLo(gaps, g, 0) ==> !Free(s, o)
      {
        GapStep(s, 0, size, gaps, g);
        var subs := inflight.Missing(gaps[g].start, gaps[g].end);
        LowestStep(s, gaps[g], subs);
        if |subs| > 0 {
          iv := Interval(subs[0].start, Min(Add64(subs[0].start, chunk), subs[0].end));
          assert Free(s, iv.start);
          inflight.Add(iv.start, iv.end);
          BytesOne(iv);
          return iv, true;
        }
      }
      GapStep(s, 0, size, gaps, |gaps|);
      return Interval(0, 0), false;
    }

    method ReleaseInflight(iv: Interval)
      requires Valid()
      modifies inflight, `broadcasts
      ensures Valid() && Abs() == After(old(Abs()), Op.Release(iv))
      ensures broadcasts == old(broadcasts) + Wakes(Op.Release(iv))
    {
      inflight.Remove(iv.start, iv.end);
      broadcasts := broadcasts + 1;
    }

    method AvailableEnd(off: int) returns (r: int)
      requires Valid()
      ensures off <= r && Range(off, r) <= Abs().present && r !in Abs().present
      ensures off < size ==> r <= size
    {
      r := present.RunEnd(off);
      assert size in Range(off, r) <==> off <= size < r;
    }

    method IsComplete() returns (r: bool)
      requires Valid()
      ensures r <==> Complete(Abs())
    {
      r := present.Covers(0, size);
    }

    method CloseWriter()
      requires Valid()
      modifies `closed, `broadcasts
      ensures Valid() && Abs() == After(old(Abs()), Op.Close)
      ensures broadcasts == old(broadcasts) + Wakes(Op.Close)
    {
      closed := true;
      broadcasts := broadcasts + 1;
    }

    method MarkDone(e: Option<Error>)
      requires Valid()
      modifies `done, `err, `broadcasts
      ensures Valid() && Abs() == After(old(Abs()), Op.MarkDone(e))
      ensures broadcasts == old(broadcasts) + Wakes(Op.MarkDone(e))
    {
      done := true;
      if err == None { err := e; }
      broadcasts := broadcasts + 1;
    }

    method WakeAll()
      requires Valid()
      modifies `broadcasts
      ensures Valid() && Abs() == After(old(Abs()), Op.Wake)
      ensures broadcasts == old(broadcasts) + Wakes(Op.Wake)
    {
      broadcasts := broadcasts + 1;
    }

    /** The critical section of writeAt that makes the written bytes visible. */
    method Publish(off: int, n: int)
      requires Valid() && 0 <= off && 0 <= n && off + n <= size
      modifies present, `broadcasts
      ensures Valid() && Abs() == After(old(Abs()), Op.Publish(off, off + n))
      ensures broadcasts == old(broadcasts) + Wakes(Op.Publish(off, off + n))
    {
      present.Add(off, Add64(off, n));
      broadcasts := broadcasts + 1;
    }

    /** One round of waitByte's loop: byte first, then context, then terminal state. */
    method LookAt(off: int, ctxDone: bool) returns (r: Look)
      requires Valid() && 0 <= off < size
      ensures r.Present? <==> off in Abs().present
      ensures r.Sleep? <==> off !in Abs().present && !ctxDone && !done
      ensures r.Gone? && done && !ctxDone ==> r.err == Verdict(err)
      ensures r.Gone? && ctxDone ==> r.err == Canceled
    {
      var here := present.Covers(off, off + 1);
      assert Range(off, off + 1) == {off};
      if here { return Present; }
      if ctxDone { return Gone(Canceled); }
      if done {
        return Gone(if err.Some? then err.value else UnexpectedEof);
      }
      return Sleep;
    }

    /** waitByte, up to `wakeups` returns of cond.Wait: a result Sleep means it is still blocked then.
        `stays` says that the reader's context does not end meanwhile. */
    method WaitByte(off: int, ghost up: seq<byte>, wakeups: nat, stays: bool) returns (r: Look)
      requires Valid() && Sound(up)
      modifies this, present, inflight, data
      ensures Valid() && Sound(up) && Evolves(old(Abs()), Abs())
      ensures r.Present? ==> 0 <= off < size && off in Abs().present
      ensures off in old(Abs().present) ==> r.Present?
      ensures !(0 <= off < size) ==> r == Gone(Eof)
      ensures 0 <= off < size && r.Gone? ==> (!stays && r.err == Canceled) || (done && r.err == Verdict(err))
      ensures r.Sleep? ==> off !in Abs().present && !done
      ensures !r.Present? ==> off !in Abs().present
    {
      if off < 0 || off >= size { return Gone(Eof); }
      Interference(up, {});
      var ctxDone: bool := *;
      r := LookAt(off, ctxDone && !stays);
      for n := 0 to wakeups
        invariant Valid() && Sound(up) && Evolves(old(Abs()), Abs())
        invariant r.Present? ==> off in Abs().present
        invariant off in old(Abs().present) ==> r.Present?
        invariant !r.Present? ==> off !in Abs().present
        invariant r.Gone? ==> (!stays && r.err == Canceled) || (done && r.err == Verdict(err))
        invariant r.Sleep? ==> off !in Abs().present && !done
      {
        if !r.Sleep? { return; }
        Interference(up, {});
        ctxDone := *;
        r := LookAt(off, ctxDone && !stays);
      }
    }

    /** The disk part of writeAt: k bytes of p reach the disk. */
    method PutBytes(p: seq<byte>, off: int, k: nat)
      requires 0 <= off && off + |p| <= data.Length && k <= |p|
      modifies data
      ensures forall o :: 0 <= o < data.Length ==> data[o] == if off <= o < off + k then p[o - off] else old(data[o])
    {
      for n := 0 to k
        invariant forall o :: 0 <= o < data.Length ==>
                    data[o] == if off <= o < off + n then p[o - off] else old(data[o])
      {
        data[off + n] := p[n];
      }
    }

    /** writeAt, with other goroutines running between its critical sections. The disk takes no byte
        at offset `room` or above. `rest` ends the reservation of the fill that writes. */
    method WriteAt(p: seq<byte>, off: int, room: int, ghost up: seq<byte>, ghost rest: int) returns (e: Option<Error>)
      requires Valid() && Sound(up) && 0 <= off && p != [] && off + |p| <= rest <= size && p == up[off..off + |p|]
      requires Range(off, rest) <= Abs().inflight && Range(off, rest) !! Abs().present
      modifies this, present, inflight, data
      ensures Valid() && Sound(up) && Evolves(old(Abs()), Abs())
      ensures broadcasts >= old(broadcasts) && (e == None ==> broadcasts > old(broadcasts))
      ensures Range(off, rest) <= Abs().inflight
      ensures e == None ==> Range(off, off + |p|) <= Abs().present && Range(off + |p|, rest) !! Abs().present
      ensures e != None ==> Range(off, rest) !! Abs().present
      ensures e == if old(closed) then Some(Closed) else if off + |p| <= room then None else Some(Failed(0))
    {
      if closed { return Some(Closed); }
      Interference(up, Range(off, rest));
      var k := if room <= off then 0 else if off + |p| <= room then |p| else room - off;
      PutBytes(p, off, k);
      assert Sound(up);
      if k < |p| { return Some(Failed(0)); }
      Interference(up, Range(off, rest));
      assert forall o :: off <= o < off + |p| ==> o in Range(off, rest) && data[o] == up[o];
      Publish(off, |p|);
      return None;
    }

    method ReadAt(off: int, n: nat, whole: bool) returns (buf: seq<byte>)
      requires 0 <= off && off + n <= data.Length
      ensures |buf| <= n && (whole ==> |buf| == n) && buf == data[off..off + |buf|]
    {
      var m: nat :| m <= n && (whole ==> m == n);
      buf := data[off..off + m];
    }

    /** Other goroutines run: fills publish upstream bytes, reservations come and go. The bytes in
        `mine`, which the caller has reserved, are left alone. Callers know only this contract, which
        `FillTheorems.RunEvolves`, `PublishedIsUpstream` and `OwnRangeKept` prove of every run. */
    method Interference(ghost up: seq<byte>, ghost mine: set<int>)
      requires Valid() && Sound(up)
      modifies this, present, inflight, data
      ensures Valid() && Sound(up) && Evolves(old(Abs()), Abs()) && broadcasts >= old(broadcasts)
      ensures forall o :: o in mine ==> (o in Abs().present <==> o in old(Abs().present))
      ensures forall o :: o in mine && 0 <= o < size ==> data[o] == old(data[o])
      ensures old(mine <= Abs().inflight) ==> mine <= Abs().inflight
    {
    }
  }

  lemma BytesOne(iv: Interval)
    ensures Bytes([iv]) == Range(iv.start, iv.end)
  {
    assert [iv][..0] == [];
  }

  /** What has been reserved so far lies below `upto`. */
  lemma ReservedBelow(s: Sparse, lo: int, hi: int, upto: int, out: seq<Interval>)
    requires Reserved(s, lo, hi, upto, out)
    ensures forall o :: o in Bytes(out) ==> lo <= o < upto
  {
    BytesHas(out);
  }

  lemma NothingReserved(s: Sparse, start: int, end: int)
    ensures Reserved(s, start, end, start, [])
    ensures s == s.(inflight := s.inflight + Bytes([]))
  {
  }

  /** Outside the gaps of `present` no byte is free. */
  lemma GapStep(s: Sparse, start: int, end: int, gaps: seq<Interval>, k: int)
    requires Canonical(gaps) && Bytes(gaps) == Range(start, end) - s.present
    requires 0 <= start <= end <= s.size && 0 <= k <= |gaps|
    ensures start <= GapLo(gaps, k, start) <= GapHi(gaps, k, end) <= end
    ensures forall o :: GapLo(gaps, k, start) <= o < GapHi(gaps, k, end) ==> !Free(s, o)
    ensures k < |gaps| ==>
      && gaps[k].start < gaps[k].end <= end
      && (forall o :: gaps[k].start <= o < gaps[k].end ==> o !in s.present)
      && (gaps[k].end == end || !Free(s, gaps[k].end))
  {
    BetweenGaps(s.present, start, end, gaps, k);
    if k < |gaps| { GapAt(s.present, start, end, gaps, k); }
  }

  /** The sub-gaps of a gap, cut at the bytes in flight by then, are the free runs of the gap. */
  lemma SubAt(s: Sparse, lo: int, hi: int, upto: int, out: seq<Interval>, gap: Interval, subs: seq<Interval>, k: int)
    requires Reserved(s, lo, hi, upto, out) && 0 <= lo <= upto <= gap.start < gap.end <= hi <= s.size
    requires Canonical(subs) && Bytes(subs) == Range(gap.start, gap.end) - (s.inflight + Bytes(out))
    requires forall o :: gap.start <= o < gap.end ==> o !in s.present
    requires gap.end == hi || !Free(s, gap.end)
    requires 0 <= k <= |subs|
    ensures gap.start <= GapLo(subs, k, gap.start) <= GapHi(subs, k, gap.end) <= gap.end
    ensures forall o :: GapLo(subs, k, gap.start) <= o < GapHi(subs, k, gap.end) ==> !Free(s, o)
    ensures k < |subs| ==>
      && subs[k].start < subs[k].end <= gap.end
      && (forall o :: subs[k].start <= o < subs[k].end ==> Free(s, o))
      && (subs[k].end == hi || !Free(s, subs[k].end))
  {
    var held := s.inflight + Bytes(out);
    ReservedBelow(s, lo, hi, upto, out);
    assert forall o :: o >= gap.start ==> (o in held <==> o in s.inflight);
    BetweenGaps(held, gap.start, gap.end, subs, k);
    forall o | GapLo(subs, k, gap.start) <= o < GapHi(subs, k, gap.end) ensures !Free(s, o) { assert o in held; }
    if k < |subs| {
      GapAt(held, gap.start, gap.end, subs, k);
      forall o | subs[k].start <= o < subs[k].end ensures Free(s, o) { assert o !in held; }
    }
  }

  lemma LowestStep(s: Sparse, gap: Interval, subs: seq<Interval>)
    requires Canonical(subs) && Bytes(subs) == Range(gap.start, gap.end) - s.inflight
    requires 0 <= gap.start < gap.end <= s.size
    requires forall o :: gap.start <= o < gap.end ==> o !in s.present
    requires gap.end == s.size || !Free(s, gap.end)
    ensures forall o :: gap.start <= o < (if subs == [] then gap.end else subs[0].start) ==> !Free(s, o)
    ensures subs != [] ==>
      && gap.start <= subs[0].start < subs[0].end <= gap.end
      && (forall o :: subs[0].start <= o < subs[0].end ==> Free(s, o))
      && (subs[0].end == s.size || !Free(s, subs[0].end))
  {
    assert s.inflight + Bytes([]) == s.inflight;
    SubAt(s, 0, s.size, 0, [], gap, subs, 0);
  }

  function GapLo(gaps: seq<Interval>, k: int, start: int): int
    requires 0 <= k <= |gaps|
  {
    if k == 0 then start else gaps[k - 1].end
  }

  function GapHi(gaps: seq<Interval>, k: int, end: int): int
    requires 0 <= k <= |gaps|
  {
    if k == |gaps| then end else gaps[k].start
  }

  /** A gap is inside the range, holds nothing held, and ends where something held begins. */
  lemma GapAt(held: set<int>, start: int, end: int, gaps: seq<Interval>, k: int)
    requires Canonical(gaps) && Bytes(gaps) == Range(start, end) - held && 0 <= k < |gaps|
    ensures start <= gaps[k].start < gaps[k].end <= end
    ensures forall o :: gaps[k].start <= o < gaps[k].end ==> o !in held
    ensures gaps[k].end == end || gaps[k].end in held
  {
    BytesHas(gaps);
    var gap := gaps[k];
    forall o | gap.start <= o < gap.end ensures o in Range(start, end) - held { assert Has(gaps, o); }
    assert gap.start in Range(start, end) - held && gap.end - 1 in Range(start, end) - held;
    EdgesAbsent(gaps, k);
    assert gap.end < end ==> gap.end in Range(start, end);
  }

  /** Between two gaps everything is held. */
  lemma BetweenGaps(held: set<int>, start: int, end: int, gaps: seq<Interval>, k: int)
    requires start <= end && Canonical(gaps) && Bytes(gaps) == Range(start, end) - held && 0 <= k <= |gaps|
    ensures start <= GapLo(gaps, k, start) <= GapHi(gaps, k, end) <= end
    ensures forall o :: GapLo(gaps, k, start) <= o < GapHi(gaps, k, end) ==> o in held
  {
    BytesHas(gaps);
    if k > 0 { GapAt(held, start, end, gaps, k - 1); }
    if k < |gaps| { GapAt(held, start, end, gaps, k); }
    forall o | Has(gaps, o) ensures !(GapLo(gaps, k, start) <= o < GapHi(gaps, k, end)) {
      var i :| 0 <= i < |gaps| && gaps[i].start <= o < gaps[i].end;
      assert i < k - 1 ==> gaps[i].end < gaps[k - 1].start;
      assert k < i ==> gaps[k].end < gaps[i].start;
    }
    forall o | GapLo(gaps, k, start) <= o < GapHi(gaps, k, end) ensures o in held {
      assert o in Range(start, end) && o !in Bytes(gaps);
    }
  }
}
