/** The two loops that move bytes: fillRange, from upstream to the file (server/jobs.go), and the
    delivery loop of serveSparse, from the file to a client (server/serve.go). */
module Transfers {
  import opened Intervals
  import opened SparseSpec
  import opened SparseFiles
  import opened RangeHeaders

  const BUFFER := 0x4_0000

  // -------------------------------------------------------- fillRange

  datatype Tail = More | AtEof | ReadError

  /** One return of reader.Read: some bytes, and whether the stream goes on, ends, or fails. */
  datatype Chunk = Chunk(data: seq<byte>, tail: Tail)

  /** The contract of rangeFetchFunc: a reader opened at `pos` returns the upstream's bytes from there
      on, as far as the file goes, in pieces of any size, perhaps fewer or more than asked for. */
  ghost predicate Stream(up: seq<byte>, pos: int, chunks: seq<Chunk>)
    decreases |chunks|
  {
    chunks == [] ||
    (Agrees(up, pos, chunks[0].data) && Stream(up, pos + |chunks[0].data|, chunks[1..]))
  }

  ghost predicate Agrees(up: seq<byte>, pos: int, data: seq<byte>) {
    forall t :: 0 <= t < |data| && 0 <= pos + t < |up| ==> data[t] == up[pos + t]
  }

  function Length(chunks: seq<Chunk>): nat {
    if chunks == [] then 0 else |chunks[0].data| + Length(chunks[1..])
  }

  predicate Calm(chunks: seq<Chunk>) { forall k :: 0 <= k < |chunks| ==> chunks[k].tail == More }

  /** Where the copy stands after k reads: it writes no further than its range. */
  function Stand(iv: Interval, chunks: seq<Chunk>, k: nat): int
    requires k <= |chunks|
  {
    Min(iv.end, iv.start + Length(chunks[..k]))
  }

  /** What fillRange answers after `used` reads, and where it stands. It reads on while its range is
      not filled and no read has ended the stream. The disk takes no byte at `room` or above. */
  ghost predicate Answers(iv: Interval, room: int, chunks: seq<Chunk>, closed: bool, used: nat, pos: int,
                          e: Option<Error>)
  {
    && used <= |chunks|
    && (forall k :: 0 <= k < used ==> Stand(iv, chunks, k) < iv.end)
    && (forall k :: 0 <= k < used - 1 ==> chunks[k].tail == More)
    && (pos == iv.start || pos <= room)
    && match e
       case None =>
         && used > 0 && pos == Stand(iv, chunks, used)
         && (chunks[used - 1].tail == AtEof || (chunks[used - 1].tail == More && pos == iv.end))
       case Some(Failed(n)) =>
         && used > 0
         && (if n == 1 then pos == Stand(iv, chunks, used) && chunks[used - 1].tail == ReadError
             else n == 0 && Unwritten(iv, chunks, used, pos) && room < Stand(iv, chunks, used))
       case Some(Canceled) =>
         used == |chunks| && pos == Stand(iv, chunks, used) < iv.end && (used > 0 ==> chunks[used - 1].tail == More)
       case Some(Closed) => used > 0 && Unwritten(iv, chunks, used, pos) && closed
       case _ => false
  }

  /** The bytes of the last read did not make it into the file. */
  ghost predicate Unwritten(iv: Interval, chunks: seq<Chunk>, used: nat, pos: int)
    requires 0 < used <= |chunks|
  {
    pos == Stand(iv, chunks, used - 1) && |chunks[used - 1].data| > 0
  }

  lemma {:induction false} LengthSnoc(chunks: seq<Chunk>, k: nat)
    requires k < |chunks|
    ensures Length(chunks[..k + 1]) == Length(chunks[..k]) + |chunks[k].data|
  {
    if k > 0 {
      LengthSnoc(chunks[1..], k - 1);
      assert chunks[..k + 1][1..] == chunks[1..][..k] && chunks[..k][1..] == chunks[1..][..k - 1];
    } else {
      assert chunks[..1][1..] == [] && chunks[..0] == [];
    }
  }

  lemma {:induction false} LengthMonotone(chunks: seq<Chunk>, j: nat, k: nat)
    requires j <= k <= |chunks|
    ensures Length(chunks[..j]) <= Length(chunks[..k])
    decreases k
  {
    if j < k {
      LengthMonotone(chunks, j, k - 1);
      LengthSnoc(chunks, k - 1);
    }
  }

  /** While the writer stays open, what is read and how much the disk takes determine the answer. */
  lemma AnswerUnique(iv: Interval, room: int, chunks: seq<Chunk>, used: nat, pos: int, e: Option<Error>,
                     used': nat, pos': int, e': Option<Error>)
    requires iv.start < iv.end
    requires Answers(iv, room, chunks, false, used, pos, e) && Answers(iv, room, chunks, false, used', pos', e')
    ensures used == used' && pos == pos' && e == e'
  {
    NotSooner(iv, room, chunks, used, pos, e, used', pos', e');
    NotSooner(iv, room, chunks, used', pos', e', used, pos, e);
    if used > 0 { LengthSnoc(chunks, used - 1); }
  }

  lemma NotSooner(iv: Interval, room: int, chunks: seq<Chunk>, used: nat, pos: int, e: Option<Error>,
                  used': nat, pos': int, e': Option<Error>)
    requires iv.start < iv.end
    requires Answers(iv, room, chunks, false, used, pos, e) && Answers(iv, room, chunks, false, used', pos', e')
    ensures used' <= used
  {
    if used' > 0 {
      if used <= used' - 1 { LengthMonotone(chunks, used, used' - 1); }
      LengthMonotone(chunks, used' - 1, used');
    }
    if used > 0 { LengthSnoc(chunks, used - 1); }
  }

  /** With a writer that stays open and room on the disk: the first read that ends the stream decides,
      nil at its end and an error at a read error, unless the range was filled before. */
  lemma StreamEnds(iv: Interval, room: int, chunks: seq<Chunk>, used: nat, pos: int, e: Option<Error>, k: nat)
    requires iv.start < iv.end <= room && Answers(iv, room, chunks, false, used, pos, e)
    requires k < |chunks| && Calm(chunks[..k]) && chunks[k].tail != More
    ensures if iv.start + Length(chunks[..k]) < iv.end
            then used == k + 1 && pos == Stand(iv, chunks, k + 1)
              && e == (if chunks[k].tail == AtEof then None else Some(Failed(1)))
            else pos == iv.end && e == None
  {
    forall j | 0 <= j < k ensures chunks[j].tail == More { assert chunks[..k][j] == chunks[j]; }
    var last := chunks[k].tail;
    assert used <= k + 1;
    if used == k + 1 {
      assert Stand(iv, chunks, k) < iv.end;
    } else {
      LengthMonotone(chunks, used, k);
    }
  }

  /** And if no read ends the stream: nil once the range is filled, else the fetch was cut short. */
  lemma StreamLasts(iv: Interval, room: int, chunks: seq<Chunk>, used: nat, pos: int, e: Option<Error>)
    requires iv.start < iv.end <= room && Answers(iv, room, chunks, false, used, pos, e) && Calm(chunks)
    ensures if iv.start + Length(chunks) < iv.end
            then e == Some(Canceled) && pos == iv.start + Length(chunks)
            else e == None && pos == iv.end
  {
    assert chunks[..|chunks|] == chunks;
    LengthMonotone(chunks, used, |chunks|);
  }

  /** fillRange after its slot is taken and its reader opened. `chunks` are the reads that return
      before the context is cancelled. */
  method FillLoop(sf: SparseFile, ghost up: seq<byte>, iv: Interval, chunks: seq<Chunk>, room: int)
    returns (pos: int, e: Option<Error>, ghost used: nat)
    requires sf.Valid() && sf.Sound(up) && 0 <= iv.start < iv.end <= sf.size && Stream(up, iv.start, chunks)
    requires Range(iv.start, iv.end) <= sf.Abs().inflight && Range(iv.start, iv.end) !! sf.Abs().present
    modifies sf, sf.present, sf.inflight, sf.data
    ensures sf.Valid() && sf.Sound(up) && Evolves(old(sf.Abs()), sf.Abs())
    ensures iv.start <= pos <= iv.end && Range(iv.start, pos) <= sf.Abs().present
    ensures Range(pos, iv.end) !! sf.Abs().present && Range(pos, iv.end) <= sf.Abs().inflight
    ensures Answers(iv, room, chunks, sf.closed, used, pos, e)
  {
    hide Answers, Reading, Length, Stand, Stream;
    pos := iv.start;
    var k := 0;
    AtStart(iv, room, chunks);
    while pos < iv.end
      invariant sf.Valid() && sf.Sound(up) && Evolves(old(sf.Abs()), sf.Abs())
      invariant iv.start <= pos <= iv.end && Range(iv.start, pos) <= sf.Abs().present
      invariant Range(pos, iv.end) !! sf.Abs().present && Range(pos, iv.end) <= sf.Abs().inflight
      invariant 0 <= k <= |chunks| && Reading(iv, room, chunks, k, pos)
      invariant pos < iv.end ==> Stream(up, pos, chunks[k..])
      decreases |chunks| - k
    {
      ReadMore(iv, room, chunks, sf.closed, k, pos);
      if k == |chunks| { return pos, Some(Canceled), k; }
      var c := chunks[k];
      var w := Min(|c.data|, iv.end - pos);
      StreamNext(up, pos, chunks, k, w);
      if |c.data| > 0 {
        var err := sf.WriteAt(c.data[..w], pos, room, up, iv.end);
        ReadMore(iv, room, chunks, sf.closed, k, pos);
        if err != None { return pos, err, k + 1; }
        pos := pos + w;
      }
      k := k + 1;
      if c.tail == AtEof { return pos, None, k; }
      if c.tail == ReadError { return pos, Some(Failed(1)), k; }
    }
    AllRead(iv, room, chunks, sf.closed, k, pos);
    return pos, None, k;
  }

  /** The next read, cut to the range, is the upstream's; and so is what follows it. */
  lemma StreamNext(up: seq<byte>, pos: int, chunks: seq<Chunk>, k: nat, w: nat)
    requires k < |chunks| && Stream(up, pos, chunks[k..]) && w <= |chunks[k].data| && 0 <= pos && pos + w <= |up|
    ensures chunks[k].data[..w] == up[pos..pos + w]
    ensures Stream(up, pos + |chunks[k].data|, chunks[k + 1..])
  {
    assert chunks[k..][0] == chunks[k] && chunks[k..][1..] == chunks[k + 1..];
  }

  /** Where the loop is after k reads. */
  ghost predicate Reading(iv: Interval, room: int, chunks: seq<Chunk>, k: nat, pos: int) {
    && k <= |chunks| && pos == Stand(iv, chunks, k) && (pos == iv.end ==> k > 0)
    && (pos == iv.start || pos <= room)
    && (forall j :: 0 <= j < k ==> Stand(iv, chunks, j) < iv.end && chunks[j].tail == More)
  }

  lemma AtStart(iv: Interval, room: int, chunks: seq<Chunk>)
    requires iv.start < iv.end
    ensures Reading(iv, room, chunks, 0, iv.start)
  {
    assert chunks[..0] == [];
  }

  /** What the next read leads to: no more reads, a write that fails, or where the loop is then. */
  lemma ReadMore(iv: Interval, room: int, chunks: seq<Chunk>, closed: bool, k: nat, pos: int)
    requires iv.start < iv.end && Reading(iv, room, chunks, k, pos) && pos < iv.end
    ensures k == |chunks| ==> Answers(iv, room, chunks, closed, k, pos, Some(Canceled))
    ensures k < |chunks| ==>
      var c := chunks[k];
      var next := pos + Min(|c.data|, iv.end - pos);
      && (|c.data| > 0 && closed ==> Answers(iv, room, chunks, closed, k + 1, pos, Some(Closed)))
      && (|c.data| > 0 && next > room ==> Answers(iv, room, chunks, closed, k + 1, pos, Some(Failed(0))))
      && (c.data == [] || next <= room ==>
            && (c.tail == AtEof ==> Answers(iv, room, chunks, closed, k + 1, next, None))
            && (c.tail == ReadError ==> Answers(iv, room, chunks, closed, k + 1, next, Some(Failed(1))))
            && (c.tail == More ==> Reading(iv, room, chunks, k + 1, next)))
  {
    if k < |chunks| { LengthSnoc(chunks, k); }
  }

  lemma AllRead(iv: Interval, room: int, chunks: seq<Chunk>, closed: bool, k: nat, pos: int)
    requires iv.start < iv.end && Reading(iv, room, chunks, k, pos) && pos == iv.end
    ensures Answers(iv, room, chunks, closed, k, pos, None)
  {
  }

  /** fillRange: a slot (or none: the context ended while queued), a reader (or an error), the copy
      loop, and on every path the release of the reservation. */
  method FillRange(sf: SparseFile, ghost up: seq<byte>, iv: Interval, slot: bool, opens: bool, chunks: seq<Chunk>,
                   room: int)
    returns (pos: int, e: Option<Error>, ghost used: nat)
    requires sf.Valid() && sf.Sound(up) && 0 <= iv.start < iv.end <= sf.size && Stream(up, iv.start, chunks)
    requires Range(iv.start, iv.end) <= sf.Abs().inflight && Range(iv.start, iv.end) !! sf.Abs().present
    modifies sf, sf.present, sf.inflight, sf.data
    ensures sf.Valid() && sf.Sound(up) && Evolves(old(sf.Abs()), sf.Abs())
    ensures iv.start <= pos <= iv.end && Range(iv.start, pos) <= sf.Abs().present
    ensures Range(pos, iv.end) !! sf.Abs().present
    ensures Range(iv.start, iv.end) !! sf.Abs().inflight
    ensures slot && opens ==> Answers(iv, room, chunks, sf.closed, used, pos, e)
    ensures !slot || !opens ==> pos == iv.start && e == Some(if slot then Failed(2) else Canceled)
  {
    used := 0;
    if !slot {
      pos, e := iv.start, Some(Canceled);
    } else if !opens {
      pos, e := iv.start, Some(Failed(2));
    } else {
      pos, e, used := FillLoop(sf, up, iv, chunks, room);
    }
    sf.ReleaseInflight(iv);
  }

  // -------------------------------------------------------- serveSparse

  datatype Ending =
    | HeadersOnly          // 416, a HEAD request, or a temp file that is already gone
    | Finished             // the delivery loop ran to its end
    | WaitFailed(err: Error) | StillWaiting
    | ClientGone           // a write to the client failed

  datatype Response = Response(
    status: int, contentRange: Option<string>, contentLength: Option<int>, body: seq<byte>, ending: Ending)

  /** What the headers announce: the bytes from `start` to `end`. */
  ghost predicate Announces(resp: Response, header: string, size: int, start: int, end: int) {
    var r := if header == "" then FULL_BODY else ParseSingleRange(header, size);
    && start == (if r.ok then r.start else 0) && end == (if r.ok then r.end else size - 1)
    && 0 <= start <= end < size
    && resp.status == (if r.ok then 206 else 200)
    && (if r.ok then resp.contentRange.Some? && Reads(resp.contentRange.value, start, end, size)
        else resp.contentRange == None)
    && resp.contentLength == Some(end - start + 1)
  }

  /** How a delivery may end before the range is sent: the client is gone; or the byte at pos has not
      come, and the wait goes on, or the file is done. A client that stays is not gone. */
  predicate EndsEarly(ending: Ending, stays: bool, sf: Sparse, pos: int) {
    match ending
    case ClientGone => !stays
    case StillWaiting => pos !in sf.present && !sf.done
    case WaitFailed(e) => pos !in sf.present && ((!stays && e == Canceled) || (sf.done && e == Verdict(sf.err)))
    case _ => false
  }

  /** serveSparse. `wakeups` bounds how many wake-ups each wait is followed for, `faults` how many
      reads of the temp file may come back short with an error. `stays` says that the client's context
      does not end and no write to it fails. */
  method ServeSparse(sf: SparseFile, ghost up: seq<byte>, header: string, head: bool, opens: bool, wakeups: nat,
                     faults: nat, stays: bool)
    returns (resp: Response, ghost start: int, ghost end: int)
    requires sf.Valid() && sf.Sound(up) && sf.size > 0
    modifies sf, sf.present, sf.inflight, sf.data
    ensures sf.Valid() && sf.Sound(up) && Evolves(old(sf.Abs()), sf.Abs())
    ensures header != "" && !ParseSingleRange(header, sf.size).satisfiable ==>
      resp == Response(416, Some("bytes */" + Decimal(sf.size)), None, [], HeadersOnly)
    ensures header == "" || ParseSingleRange(header, sf.size).satisfiable ==>
      && Announces(resp, header, sf.size, start, end)
      && resp.body <= up[start..end + 1]
      && (resp.ending == Finished ==> resp.body == up[start..end + 1] && resp.contentLength == Some(|resp.body|))
      && (head || !opens <==> resp.ending == HeadersOnly) && (head || !opens ==> resp.body == [])
      && (!head && opens ==> resp.ending == Finished || EndsEarly(resp.ending, stays, sf.Abs(), start + |resp.body|))
      && (!head && opens && stays && Range(start, end + 1) <= old(sf.Abs().present) ==> resp.ending == Finished)
  {
    hide ContentRange, Decimal, ParseSingleRange, Reads;
    var s, e, status, contentRange := 0, sf.size - 1, 200, None;
    start, end := 0, 0;
    if header != "" {
      var r := ParseSingleRange(header, sf.size);
      AcceptedInside(header, sf.size);
      if !r.satisfiable {
        return Response(416, Some("bytes */" + Decimal(sf.size)), None, [], HeadersOnly), 0, 0;
      }
      if r.ok {
        s, e, status := r.start, r.end, 206;
        contentRange := Some(ContentRange(s, e, sf.size));
        ContentRangeReads(s, e, sf.size);
      }
    }
    start, end := s, e;
    var body, ending := [], HeadersOnly;
    if !head && opens {
      body, ending := Deliver(sf, up, s, e, wakeups, faults, stays);
    }
    resp := Response(status, contentRange, Some(e - s + 1), body, ending);
  }

  /** The delivery loop of serveSparse. */
  method Deliver(sf: SparseFile, ghost up: seq<byte>, start: int, end: int, wakeups: nat, faults: nat, stays: bool)
    returns (body: seq<byte>, ending: Ending)
    requires sf.Valid() && sf.Sound(up) && 0 <= start <= end < sf.size
    modifies sf, sf.present, sf.inflight, sf.data
    ensures sf.Valid() && sf.Sound(up) && Evolves(old(sf.Abs()), sf.Abs())
    ensures body <= up[start..end + 1]
    ensures ending == Finished ==> body == up[start..end + 1]
    ensures ending == Finished || EndsEarly(ending, stays, sf.Abs(), start + |body|)
    ensures stays && Range(start, end + 1) <= old(sf.Abs().present) ==> ending == Finished
  {
    hide EndsEarly, Asked, Free, After;
    body := [];
    var pos, left := start, faults;
    while pos <= end
      invariant sf.Valid() && sf.Sound(up) && Evolves(old(sf.Abs()), sf.Abs())
      invariant start <= pos <= end + 1 && body == up[start..pos]
      decreases end + 1 - pos, left
    {
      assert pos in Range(start, end + 1);
      var sent, stop, left', asked := DeliverOnce(sf, up, pos, end, wakeups, left, stays);
      assert sent == up[pos..end + 1][..|sent|] == up[pos..pos + |sent|];
      Joined(up, start, pos, end + 1, sent);
      body := body + sent;
      if stop.Some? { return body, stop.value; }
      pos, left := pos + |sent|, left';
    }
    ending := Finished;
  }

  /** One pass of the outer loop: ask for the bytes, wait for the first, send the run it begins.
      Unless it ends the delivery or a read comes back short, it sends at least one byte. `asked` is
      the file right after the request: the byte has come, or some fetch has it reserved. */
  method DeliverOnce(sf: SparseFile, ghost up: seq<byte>, pos: int, end: int, wakeups: nat, faults: nat, stays: bool)
    returns (sent: seq<byte>, stop: Option<Ending>, left: nat, ghost asked: Sparse)
    requires sf.Valid() && sf.Sound(up) && 0 <= pos <= end < sf.size
    modifies sf, sf.present, sf.inflight, sf.data
    ensures sf.Valid() && sf.Sound(up) && Evolves(old(sf.Abs()), sf.Abs())
    ensures Asked(old(sf.Abs()), pos, asked) && Evolves(asked, sf.Abs())
    ensures sent <= up[pos..end + 1] && left <= faults
    ensures stop == None ==> |sent| > 0 || left < faults
    ensures stop == None && left == faults ==>
      forall x :: x <= end + 1 && Range(pos, x) <= old(sf.Abs().present) ==> x <= pos + |sent|
    ensures stop.Some? ==> stop.value != Finished && EndsEarly(stop.value, stays, sf.Abs(), pos + |sent|)
    ensures stays && pos in old(sf.Abs().present) ==> stop == None
  {
    hide Asked;
    var fills, look, avail;
    fills, look, avail, asked := AwaitRun(sf, up, pos, wakeups, stays);
    if look.Sleep? { return [], Some(StillWaiting), faults, asked; }
    if look.Gone? { return [], Some(WaitFailed(look.err)), faults, asked; }
    RunReaches(old(sf.Abs().present), sf.Abs().present, pos, avail);
    var clientOk;
    sent, clientOk, left := SendRun(sf, up, pos, Min(avail, end + 1), faults, stays);
    stop := if clientOk then None else Some(ClientGone);
  }

  /** A run that ends at a byte not held reaches as far as any that was held before. */
  lemma RunReaches(before: set<int>, now: set<int>, pos: int, avail: int)
    requires before <= now && pos <= avail && avail !in now
    ensures forall x :: Range(pos, x) <= before ==> x <= avail
  {
    forall x | Range(pos, x) <= before ensures x <= avail {
      assert avail !in Range(pos, x);
    }
  }

  /** A file in which the bytes at pos have just been asked for: exactly the free ones of the next
      chunk are reserved, in pieces that each get a fetch, and pos itself is not free any more. */
  ghost predicate Asked(before: Sparse, pos: int, asked: Sparse) {
    !Free(asked, pos) &&
    exists fills: seq<Interval> ::
      && IsReservation(before, pos, pos + before.chunk, fills)
      && asked == After(before, Op.Reserve(fills))
      && (Free(before, pos) ==> fills != [] && fills[0].start == pos)
  }

  /** requestFillAt, waitByte and availableEnd at one offset: a wait that succeeds is followed by a
      run of at least one byte. Each of `fills` is handed to a fetch of its own. */
  method AwaitRun(sf: SparseFile, ghost up: seq<byte>, pos: int, wakeups: nat, stays: bool)
    returns (fills: seq<Interval>, look: Look, avail: int, ghost asked: Sparse)
    requires sf.Valid() && sf.Sound(up) && 0 <= pos < sf.size
    modifies sf, sf.present, sf.inflight, sf.data
    ensures sf.Valid() && sf.Sound(up) && Evolves(old(sf.Abs()), sf.Abs())
    ensures Asked(old(sf.Abs()), pos, asked) && Evolves(asked, sf.Abs())
    ensures asked == After(old(sf.Abs()), Op.Reserve(fills))
    ensures look.Present? ==> pos < avail <= sf.size && forall o :: pos <= o < avail ==> o in sf.Abs().present
    ensures look.Present? ==> avail !in sf.Abs().present
    ensures pos in old(sf.Abs().present) ==> look.Present?
    ensures look.Gone? ==> EndsEarly(WaitFailed(look.err), stays, sf.Abs(), pos)
    ensures look.Sleep? ==> EndsEarly(StillWaiting, stays, sf.Abs(), pos)
  {
    hide IsReservation, Reserved;
    fills := sf.Reserve(pos, Add64(pos, sf.chunk));
    asked := sf.Abs();
    ReservationMarksFree(old(sf.Abs()), pos, pos + sf.chunk, fills);
    if Free(old(sf.Abs()), pos) { SeekGetsOwnPiece(old(sf.Abs()), pos, pos + sf.chunk, fills); }
    assert Asked(old(sf.Abs()), pos, asked) by { assert pos <= pos < pos + sf.chunk; }
    hide Asked;
    look := sf.WaitByte(pos, up, wakeups, stays);
    avail := pos;
    if look.Present? {
      sf.Interference(up, {});
      avail := sf.AvailableEnd(pos);
      assert forall o :: pos <= o < avail ==> o in Range(pos, avail);
    }
  }

  /** A further stretch of a sequence, whole or cut short, carries on where a stretch of it ends. */
  lemma Joined(up: seq<byte>, a: int, b: int, c: int, buf: seq<byte>)
    requires 0 <= a <= b <= b + |buf| <= c <= |up| && buf == up[b..b + |buf|]
    ensures up[a..b] + buf == up[a..b + |buf|]
    ensures forall m :: 0 <= m <= |buf| ==> up[a..b] + buf[..m] <= up[a..c]
  {
    forall m | 0 <= m <= |buf| ensures up[a..b] + buf[..m] <= up[a..c] {
      assert up[a..b] + buf[..m] == up[a..c][..b - a + m];
    }
  }

  /** The inner loop of serveSparse: send what is available, until a read comes back short. */
  method SendRun(sf: SparseFile, ghost up: seq<byte>, from: int, limit: int, faults: nat, stays: bool)
    returns (sent: seq<byte>, clientOk: bool, left: nat)
    requires sf.Valid() && sf.Sound(up) && 0 <= from < limit <= sf.size
    requires forall o :: from <= o < limit ==> o in sf.Abs().present
    modifies sf, sf.present, sf.inflight, sf.data
    ensures sf.Valid() && sf.Sound(up) && Evolves(old(sf.Abs()), sf.Abs())
    ensures sent <= up[from..limit]
    ensures clientOk ==> (left == faults && sent == up[from..limit]) || left < faults
    ensures left <= faults && (stays ==> clientOk)
  {
    sent, left := [], faults;
    var pos := from;
    while pos < limit
      invariant sf.Valid() && sf.Sound(up) && Evolves(old(sf.Abs()), sf.Abs())
      invariant from <= pos <= limit && sent == up[from..pos] && left == faults
      invariant forall o :: from <= o < limit ==> o in sf.Abs().present
      decreases limit - pos
    {
      sf.Interference(up, {});
      var whole: bool := *;
      if left == 0 { whole := true; }
      var buf := sf.ReadAt(pos, Min(limit - pos, BUFFER), whole);
      assert buf == up[pos..pos + |buf|];
      Joined(up, from, pos, limit, buf);
      var ok: bool := *;
      if !ok && !stays {
        var m: nat :| m <= |buf|;
        return sent + buf[..m], false, left;
      }
      sent := sent + buf;
      pos := pos + |buf|;
      if !whole { return sent, true, left - 1; }
    }
    return sent, true, left;
  }
}
