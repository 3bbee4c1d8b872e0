/** The shared state of one sparse download and its critical sections, on values. */
module SparseSpec {
  import opened Intervals

  newtype byte = b: int | 0 <= b < 256

  datatype Option<T> = None | Some(value: T)

  datatype Error = Closed | Canceled | Eof | UnexpectedEof | Failed(code: int)

  const MAX_INT64 := 0x7fff_ffff_ffff_ffff

  /** Addition of two signed 64-bit integers, with wrap-around. */
  function Add64(x: int, y: int): int {
    var sum := x + y;
    if sum > MAX_INT64 then sum - 0x1_0000_0000_0000_0000
    else if sum < -MAX_INT64 - 1 then sum + 0x1_0000_0000_0000_0000
    else sum
  }

  datatype Sparse = Sparse(
    size: int, chunk: int,
    present: set<int>, inflight: set<int>,
    closed: bool, done: bool, err: Option<Error>)

  /** One critical section of the file's mutex that may change it. */
  datatype Op =
    | Publish(start: int, end: int)
    | Reserve(out: seq<Interval>)
    | Release(iv: Interval)
    | Close
    | MarkDone(err: Option<Error>)
    | Wake

  function After(s: Sparse, op: Op): Sparse {
    match op
    case Publish(start, end) => s.(present := s.present + Range(start, end))
    case Reserve(out) => s.(inflight := s.inflight + Bytes(out))
    case Release(iv) => s.(inflight := s.inflight - Range(iv.start, iv.end))
    case Close => s.(closed := true)
    case MarkDone(err) => s.(done := true, err := if s.err.None? then err else s.err)
    case Wake => s
  }

  /** The critical sections that wake every sleeper: all but a reservation. */
  predicate Broadcasts(op: Op) { !op.Reserve? }

  /** How often a critical section calls Broadcast, as the methods of SparseFile are proved to do. */
  function Wakes(op: Op): nat { if Broadcasts(op) then 1 else 0 }

  /** How the file may change while other goroutines run: bytes are only added, flags only raised. */
  ghost predicate Evolves(a: Sparse, b: Sparse) {
    && b.size == a.size && b.chunk == a.chunk
    && a.present <= b.present
    && (a.closed ==> b.closed) && (a.done ==> b.done)
    && (a.err.Some? ==> b.err == a.err)
  }

  lemma EvolvesTransitive(a: Sparse, b: Sparse, c: Sparse)
    requires Evolves(a, b) && Evolves(b, c)
    ensures Evolves(a, c)
  {
  }

  /** Every critical section only adds bytes and raises flags, and keeps the first error there was. */
  lemma OpEvolves(s: Sparse, op: Op)
    ensures Evolves(s, After(s, op))
  {
  }

  ghost predicate Free(s: Sparse, o: int) {
    0 <= o < s.size && o !in s.present && o !in s.inflight
  }

  ghost predicate Complete(s: Sparse) { Range(0, s.size) <= s.present }

  /** A reserved piece: free bytes only, at most a chunk, cut short only where the free run ends. */
  ghost predicate Piece(s: Sparse, hi: int, iv: Interval) {
    && iv.start < iv.end <= hi && iv.end - iv.start <= s.chunk
    && (forall o :: iv.start <= o < iv.end ==> Free(s, o))
    && (iv.end - iv.start == s.chunk || iv.end == hi || !Free(s, iv.end))
  }

  /** `out` reserves every free byte of [lo, upto), and nothing else. */
  ghost predicate Reserved(s: Sparse, lo: int, hi: int, upto: int, out: seq<Interval>) {
    && (forall i :: 0 <= i < |out| ==> lo <= out[i].start && out[i].end <= upto && Piece(s, hi, out[i]))
    && (forall i, j :: 0 <= i < j < |out| ==> out[i].end <= out[j].start)
    && (forall o :: lo <= o < upto && Free(s, o) ==> o in Bytes(out))
  }

  function Max(a: int, b: int): int { if a < b then b else a }
  function Min(a: int, b: int): int { if a < b then a else b }

  /** What reserve(start, end) hands out: the free bytes of the clipped range, piece by piece. */
  ghost predicate IsReservation(s: Sparse, start: int, end: int, out: seq<Interval>) {
    var lo, hi := Max(start, 0), Min(end, s.size);
    if lo >= hi then out == [] else Reserved(s, lo, hi, hi, out)
  }

  /** What reserveLowest hands out: one piece at the least free byte. */
  ghost predicate IsLowest(s: Sparse, iv: Interval) {
    && 0 <= iv.start && Piece(s, s.size, iv)
    && (forall o :: 0 <= o < iv.start ==> !Free(s, o))
  }

  lemma ReservedSkip(s: Sparse, lo: int, hi: int, upto: int, upto': int, out: seq<Interval>)
    requires Reserved(s, lo, hi, upto, out) && upto <= upto'
    requires forall o :: upto <= o < upto' ==> !Free(s, o)
    ensures Reserved(s, lo, hi, upto', out)
  {
  }

  lemma ReservedSnoc(s: Sparse, lo: int, hi: int, upto: int, out: seq<Interval>, iv: Interval)
    requires Reserved(s, lo, hi, upto, out) && lo <= upto <= iv.start && Piece(s, hi, iv)
    requires forall o :: upto <= o < iv.start ==> !Free(s, o)
    ensures Reserved(s, lo, hi, iv.end, out + [iv])
  {
    hide Bytes;
    BytesSnoc(out, iv);
  }

  /** Exactly the free bytes of the clipped range are marked: afterwards none of it is free. */
  lemma ReservationMarksFree(s: Sparse, start: int, end: int, out: seq<Interval>)
    requires IsReservation(s, start, end, out)
    ensures forall o :: o in Bytes(out) <==> start <= o < end && Free(s, o)
    ensures forall o :: start <= o < end ==> !Free(After(s, Reserve(out)), o)
  {
    BytesHas(out);
    forall o | Has(out, o) ensures start <= o < end && Free(s, o) {
      var i :| 0 <= i < |out| && out[i].start <= o < out[i].end;
    }
  }

  /** A free start offset begins the first piece, so a seek gets a fetch of its own. */
  lemma SeekGetsOwnPiece(s: Sparse, start: int, end: int, out: seq<Interval>)
    requires IsReservation(s, start, end, out) && Free(s, start) && start < end
    ensures out != [] && out[0].start == start
  {
    ReservationMarksFree(s, start, end, out);
    BytesHas(out);
    assert Has(out, start);
    var i :| 0 <= i < |out| && out[i].start <= start < out[i].end;
    assert forall j :: 0 < j < |out| ==> out[0].end <= out[j].start;
  }

  /** The reservation is determined: no two lists qualify. */
  lemma {:induction false} ReservationUnique(s: Sparse, lo: int, hi: int, a: seq<Interval>, b: seq<Interval>)
    requires s.chunk > 0 && Reserved(s, lo, hi, hi, a) && Reserved(s, lo, hi, hi, b)
    ensures a == b
    decreases |a|
  {
    if a == [] || b == [] {
      if a != [] { PieceInside(s, lo, hi, a, b, 0); }
      if b != [] { PieceInside(s, lo, hi, b, a, 0); }
    } else {
      HeadsAgree(s, lo, hi, a, b);
      HeadsAgree(s, lo, hi, b, a);
      assert a[0] == b[0];
      ReservedTail(s, lo, hi, a);
      ReservedTail(s, lo, hi, b);
      ReservationUnique(s, a[0].end, hi, a[1..], b[1..]);
      assert a == [a[0]] + a[1..] && b == [b[0]] + b[1..];
    }
  }

  lemma PieceInside(s: Sparse, lo: int, hi: int, a: seq<Interval>, b: seq<Interval>, i: int)
    requires Reserved(s, lo, hi, hi, a) && Reserved(s, lo, hi, hi, b) && 0 <= i < |a|
    ensures exists j :: 0 <= j < |b| && b[j].start <= a[i].start < b[j].end
  {
    BytesHas(b);
    assert Free(s, a[i].start);
    assert Has(b, a[i].start);
  }

  lemma HeadsAgree(s: Sparse, lo: int, hi: int, a: seq<Interval>, b: seq<Interval>)
    requires s.chunk > 0 && Reserved(s, lo, hi, hi, a) && Reserved(s, lo, hi, hi, b) && a != [] && b != []
    ensures b[0].start <= a[0].start
    ensures a[0].start == b[0].start ==> a[0].end <= b[0].end
  {
    PieceInside(s, lo, hi, a, b, 0);
    var j :| 0 <= j < |b| && b[j].start <= a[0].start < b[j].end;
    assert forall i :: 0 < i < |b| ==> b[0].end <= b[i].start;
    var x, y := a[0], b[0];
    assert x.start <= y.end < x.end ==> Free(s, y.end);
  }

  lemma ReservedTail(s: Sparse, lo: int, hi: int, a: seq<Interval>)
    requires Reserved(s, lo, hi, hi, a) && a != []
    ensures Reserved(s, a[0].end, hi, hi, a[1..])
  {
    BytesHas(a);
    BytesHas(a[1..]);
    forall o | a[0].end <= o < hi && Free(s, o) ensures o in Bytes(a[1..]) {
      assert Has(a, o);
      var i :| 0 <= i < |a| && a[i].start <= o < a[i].end;
      assert a[1..][i - 1] == a[i];
      assert Has(a[1..], o);
    }
  }

  lemma LowestUnique(s: Sparse, a: Interval, b: Interval)
    requires s.chunk > 0 && IsLowest(s, a) && IsLowest(s, b)
    ensures a == b
  {
    assert Free(s, a.start) && Free(s, b.start);
    assert b.start <= a.end < b.end ==> Free(s, a.end);
    assert a.start <= b.end < a.end ==> Free(s, b.end);
  }
}
