/** A sequential job: copyTee appends to the temp file and then counts the bytes, while tailReaders
    follow the file (server/jobs.go). */
module SeqTail {
  import opened SparseSpec
  import opened Transfers

  /** `done` and `err` are set by finishJob; `written` trails the length of the file. */
  datatype Snap = Snap(file: seq<byte>, written: int, done: bool, err: Option<Error>)

  const START := Snap([], 0, false, None)

  /** The file is a prefix of the stream, `written` never runs ahead of it, and a job that ended
      without error has it whole. */
  ghost predicate Sane(stream: seq<byte>, a: Snap) {
    && a.file <= stream && 0 <= a.written <= |a.file|
    && (a.done && a.err == None ==> a.file == stream && a.written == |stream|)
  }

  /** What a reader may see happen between two looks. */
  ghost predicate Grows(a: Snap, b: Snap) {
    && a.file <= b.file && a.written <= b.written
    && (a.done ==> b == a)
  }

  lemma GrowsTransitive(a: Snap, b: Snap, c: Snap)
    requires Grows(a, b) && Grows(b, c)
    ensures Grows(a, c)
  {
  }

  // -------------------------------------------------------- what the job does to what readers see

  /** f.Write puts n more bytes in the file, the count catches up by n, finishJob records the end. */
  datatype Step = Written(n: nat) | Counted(n: nat) | Ended(err: Option<Error>)

  predicate Legal(stream: seq<byte>, a: Snap, v: Step) {
    !a.done && match v
      case Written(n) => |a.file| + n <= |stream|
      case Counted(n) => a.written + n <= |a.file|
      case Ended(e) => a.err == None && (e == None ==> a.file == stream && a.written == |stream|)
  }

  function Stepped(stream: seq<byte>, a: Snap, v: Step): Snap
    requires Legal(stream, a, v)
  {
    match v
    case Written(n) => a.(file := stream[..|a.file| + n])
    case Counted(n) => a.(written := a.written + n)
    case Ended(e) => a.(done := true, err := e)
  }

  function Steps(stream: seq<byte>, a: Snap, vs: seq<Step>): Option<Snap> {
    if vs == [] then Some(a)
    else match Steps(stream, a, vs[..|vs| - 1])
      case Some(b) => if Legal(stream, b, vs[|vs| - 1]) then Some(Stepped(stream, b, vs[|vs| - 1])) else None
      case None => None
  }

  /** Whatever the job has done between two looks of a reader, the reader sees a sane state, and one
      that has grown. */
  lemma {:induction false} RunGrows(stream: seq<byte>, a: Snap, vs: seq<Step>)
    requires Sane(stream, a) && Steps(stream, a, vs).Some?
    ensures var b := Steps(stream, a, vs).value; Sane(stream, b) && Grows(a, b)
  {
    if vs != [] {
      hide Grows;
      var n := |vs| - 1;
      RunGrows(stream, a, vs[..n]);
      var b := Steps(stream, a, vs[..n]).value;
      StepGrows(stream, b, vs[n]);
      GrowsTransitive(a, b, Stepped(stream, b, vs[n]));
    } else {
      assert Grows(a, a);
    }
  }

  lemma StepGrows(stream: seq<byte>, a: Snap, v: Step)
    requires Sane(stream, a) && Legal(stream, a, v)
    ensures Sane(stream, Stepped(stream, a, v)) && Grows(a, Stepped(stream, a, v))
  {
  }

  /** Every state passed on the way is sane, and each later one has grown from it. */
  lemma {:induction false} PassedSane(stream: seq<byte>, a: Snap, vs: seq<Step>, k: nat)
    requires Sane(stream, a) && Steps(stream, a, vs).Some? && k <= |vs|
    ensures Steps(stream, a, vs[..k]).Some?
    ensures var b := Steps(stream, a, vs[..k]).value; Sane(stream, b) && Grows(b, Steps(stream, a, vs).value)
    decreases |vs|
  {
    if k == |vs| {
      assert vs[..k] == vs;
      RunGrows(stream, a, vs);
    } else {
      hide Grows, Sane;
      var n := |vs| - 1;
      PassedSane(stream, a, vs[..n], k);
      assert vs[..n][..k] == vs[..k];
      RunGrows(stream, a, vs[..n]);
      var b := Steps(stream, a, vs[..n]).value;
      StepGrows(stream, b, vs[n]);
      GrowsTransitive(Steps(stream, a, vs[..k]).value, b, Stepped(stream, b, vs[n]));
    }
  }

  lemma StepsThen(stream: seq<byte>, a: Snap, vs: seq<Step>, v: Step)
    requires Steps(stream, a, vs).Some? && Legal(stream, Steps(stream, a, vs).value, v)
    ensures Steps(stream, a, vs + [v]) == Some(Stepped(stream, Steps(stream, a, vs).value, v))
  {
    assert (vs + [v])[..|vs|] == vs;
  }

  /** What the reads of a stream return, until one ends it: its bytes in order, all of them if it
      ends with end-of-file. */
  ghost predicate Delivers(stream: seq<byte>, pos: nat, chunks: seq<Chunk>)
    decreases |chunks|
  {
    chunks == [] ||
    (var c := chunks[0];
     && pos + |c.data| <= |stream| && c.data == stream[pos..pos + |c.data|]
     && match c.tail
        case More => Delivers(stream, pos + |c.data|, chunks[1..])
        case AtEof => pos + |c.data| == |stream|
        case ReadError => true)
  }

  predicate Breaks(chunks: seq<Chunk>, fails: Option<nat>, k: nat)
    requires k < |chunks|
  {
    fails == Some(k) && |chunks[k].data| > 0
  }

  /** What copyTee answers after `used` reads: the first to end the stream, or to break the disk. */
  predicate Copied(chunks: seq<Chunk>, fails: Option<nat>, used: nat, e: Option<Error>) {
    && used <= |chunks|
    && (forall k :: 0 <= k < used - 1 ==> chunks[k].tail == More && !Breaks(chunks, fails, k))
    && match e
       case None => used > 0 && chunks[used - 1].tail == AtEof && !Breaks(chunks, fails, used - 1)
       case Some(Failed(n)) =>
         used > 0 && if Breaks(chunks, fails, used - 1) then n == 0 else n == 1 && chunks[used - 1].tail == ReadError
       case Some(Canceled) =>
         used == |chunks| && (used > 0 ==> chunks[used - 1].tail == More && !Breaks(chunks, fails, used - 1))
       case _ => false
  }

  /** Where the copy is after k reads, with n bytes copied. */
  ghost predicate Copying(chunks: seq<Chunk>, fails: Option<nat>, k: nat, n: nat) {
    && k <= |chunks| && n == Length(chunks[..k])
    && forall j :: 0 <= j < k ==> chunks[j].tail == More && !Breaks(chunks, fails, j)
  }

  lemma NothingCopied(stream: seq<byte>, chunks: seq<Chunk>, fails: Option<nat>)
    ensures Copying(chunks, fails, 0, 0) && Steps(stream, START, []) == Some(START)
  {
    assert chunks[..0] == [];
  }

  lemma CopyMore(chunks: seq<Chunk>, fails: Option<nat>, k: nat, n: nat)
    requires k < |chunks| && Copying(chunks, fails, k, n)
    ensures var c := chunks[k];
      if Breaks(chunks, fails, k) then Copied(chunks, fails, k + 1, Some(Failed(0)))
      else
        && Length(chunks[..k + 1]) == n + |c.data|
        && (c.tail == AtEof ==> Copied(chunks, fails, k + 1, None))
        && (c.tail == ReadError ==> Copied(chunks, fails, k + 1, Some(Failed(1))))
        && (c.tail == More ==> Copying(chunks, fails, k + 1, n + |c.data|))
  {
    LengthSnoc(chunks, k);
  }

  lemma AllCopied(chunks: seq<Chunk>, fails: Option<nat>, n: nat)
    requires Copying(chunks, fails, |chunks|, n)
    ensures Copied(chunks, fails, |chunks|, Some(Canceled)) && n == Length(chunks[..|chunks|])
  {
  }

  lemma CopiedUnique(chunks: seq<Chunk>, fails: Option<nat>, used: nat, e: Option<Error>, used': nat, e': Option<Error>)
    requires Copied(chunks, fails, used, e) && Copied(chunks, fails, used', e')
    ensures used == used' && e == e'
  {
  }

  /** With a disk that takes everything, a stream that ends is copied, and one that breaks is not. */
  lemma CopyEnds(chunks: seq<Chunk>, used: nat, e: Option<Error>, k: nat)
    requires Copied(chunks, None, used, e) && k < |chunks| && Calm(chunks[..k]) && chunks[k].tail != More
    ensures used == k + 1 && e == if chunks[k].tail == AtEof then None else Some(Failed(1))
  {
    forall j | 0 <= j < k ensures chunks[j].tail == More { assert chunks[..k][j] == chunks[j]; }
  }

  class SeqJob {
    var file: seq<byte>
    var written: int
    var done: bool
    var err: Option<Error>

    ghost function Now(): Snap reads this { Snap(file, written, done, err) }

    constructor ()
      ensures Now() == START
    {
      file, written, done, err := [], 0, false, None;
    }

    /** f.Write: k of the bytes reach the file. */
    method Append(p: seq<byte>, k: nat, ghost stream: seq<byte>)
      requires k <= |p| && !done && Sane(stream, Now())
      requires |file| + |p| <= |stream| && p == stream[|file|..|file| + |p|]
      modifies `file
      ensures file == old(file) + p[..k] && Sane(stream, Now()) && Grows(old(Now()), Now())
      ensures Legal(stream, old(Now()), Written(k)) && Now() == Stepped(stream, old(Now()), Written(k))
    {
      file := file + p[..k];
    }

    method Count(n: nat, ghost stream: seq<byte>)
      requires !done && Sane(stream, Now()) && written + n <= |file|
      modifies `written
      ensures written == old(written) + n && Sane(stream, Now()) && Grows(old(Now()), Now())
      ensures Legal(stream, old(Now()), Counted(n)) && Now() == Stepped(stream, old(Now()), Counted(n))
    {
      written := written + n;
    }

    /** copyTee. `steps` is all that readers can have seen happen: `PassedSane` says that each state
        on the way is sane. `fails` is the read whose bytes the disk takes only a part of, if any. */
    method CopyTee(chunks: seq<Chunk>, fails: Option<nat>, ghost stream: seq<byte>)
      returns (e: Option<Error>, ghost steps: seq<Step>, ghost used: nat)
      requires Now() == START && Delivers(stream, 0, chunks)
      modifies `file, `written
      ensures Steps(stream, START, steps) == Some(Now()) && Sane(stream, Now()) && !done
      ensures Copied(chunks, fails, used, e)
      ensures e != Some(Failed(0)) ==> written == |file| == Length(chunks[..used])
      ensures e == None ==> file == stream && written == |stream|
    {
      hide Copied, Copying, Steps, Length, Grows;
      var k := 0;
      steps := [];
      used := 0;
      NothingCopied(stream, chunks, fails);
      while k < |chunks|
        invariant 0 <= k <= |chunks| && !done && Sane(stream, Now())
        invariant Steps(stream, START, steps) == Some(Now())
        invariant written == |file| && Delivers(stream, |file|, chunks[k..]) && Copying(chunks, fails, k, |file|)
      {
        CopyMore(chunks, fails, k, |file|);
        var c := chunks[k];
        assert chunks[k..][0] == c && chunks[k..][1..] == chunks[k + 1..];
        if |c.data| > 0 {
          if fails == Some(k) {
            var part: nat :| part <= |c.data|;
            StepsThen(stream, START, steps, Written(part));
            Append(c.data, part, stream);
            return Some(Failed(0)), steps + [Written(part)], k + 1;
          }
          steps := Tee(c.data, stream, steps);
        }
        k := k + 1;
        if c.tail == AtEof { return None, steps, k; }
        if c.tail == ReadError { return Some(Failed(1)), steps, k; }
      }
      AllCopied(chunks, fails, |file|);
      return Some(Canceled), steps, k;
    }

    /** One write that succeeds, and its count. */
    method Tee(p: seq<byte>, ghost stream: seq<byte>, ghost before: seq<Step>) returns (ghost steps: seq<Step>)
      requires Steps(stream, START, before) == Some(Now()) && Sane(stream, Now()) && !done && written == |file|
      requires |file| + |p| <= |stream| && p == stream[|file|..|file| + |p|]
      modifies `file, `written
      ensures Steps(stream, START, steps) == Some(Now()) && Sane(stream, Now()) && written == |file|
      ensures file == old(file) + p
    {
      assert p[..|p|] == p;
      StepsThen(stream, START, before, Written(|p|));
      Append(p, |p|, stream);
      steps := before + [Written(|p|)];
      StepsThen(stream, START, steps, Counted(|p|));
      Count(|p|, stream);
      steps := steps + [Counted(|p|)];
    }

    /** finishJob. */
    method Finish(e: Option<Error>, ghost stream: seq<byte>)
      requires !done && err == None && Sane(stream, Now()) && (e == None ==> file == stream && written == |stream|)
      modifies `done, `err
      ensures Sane(stream, Now()) && Grows(old(Now()), Now())
      ensures Legal(stream, old(Now()), Ended(e)) && Now() == Stepped(stream, old(Now()), Ended(e))
    {
      done, err := true, e;
    }

    /** A sequential or remux run: the upstream or the temp file that does not open, or the copy and
        what follows it (closing, the exit status of the remux, finalize); and finishJob. */
    method Run(opens: bool, chunks: seq<Chunk>, fails: Option<nat>, after: Option<Error>, ghost stream: seq<byte>)
      returns (ghost steps: seq<Step>, ghost used: nat, ghost copied: Option<Error>)
      requires Now() == START && Delivers(stream, 0, chunks)
      modifies this
      ensures Steps(stream, START, steps) == Some(Now()) && done && Sane(stream, Now())
      ensures opens ==> Copied(chunks, fails, used, copied) && err == if copied != None then copied else after
      ensures !opens ==> err == Some(Failed(2)) && file == []
      ensures err == None ==> file == stream && written == |stream|
    {
      var outcome := Some(Failed(2));
      steps, used, copied := [], 0, None;
      if opens {
        var e;
        e, steps, used := CopyTee(chunks, fails, stream);
        copied := e;
        outcome := if e != None then e else after;
      }
      StepsThen(stream, START, steps, Ended(outcome));
      Finish(outcome, stream);
      steps := steps + [Ended(outcome)];
    }

    /** The download goes on while a reader is between two steps. Readers know only this contract,
        which `RunGrows` proves of whatever the job does. */
    method Interference(ghost stream: seq<byte>)
      requires Sane(stream, Now())
      modifies this
      ensures Sane(stream, Now()) && Grows(old(Now()), Now())
    {
    }
  }

  datatype Got = Bytes | EndOfFile | Refused(err: Error) | Blocked

  class TailReader {
    const job: SeqJob
    var pos: int

    constructor (job: SeqJob)
      ensures this.job == job && pos == 0
    {
      this.job := job;
      pos := 0;
    }

    /** The inner loop of Read: with the mutex held, until there is more to read or never will be.
        Bytes means that `written` has passed the reader. `stays` says that its context does not end. */
    method Wait(ghost stream: seq<byte>, wakeups: nat, stays: bool) returns (r: Got)
      requires Sane(stream, job.Now()) && 0 <= pos <= |job.file|
      modifies job
      ensures Sane(stream, job.Now()) && Grows(old(job.Now()), job.Now())
      ensures r == Bytes ==> pos < job.written
      ensures r == EndOfFile ==> job.done && job.err == None && pos >= job.written
      ensures r == Blocked ==> !job.done && pos >= job.written
      ensures r.Refused? ==> (!stays && r.err == Canceled) || (job.done && job.err == Some(r.err) && pos >= job.written)
      ensures stays && pos < old(job.written) ==> r == Bytes
    {
      var n := 0;
      while true
        invariant Sane(stream, job.Now()) && Grows(old(job.Now()), job.Now())
        invariant 0 <= n <= wakeups
        decreases wakeups - n
      {
        var ctxDone: bool := *;
        if ctxDone && !stays { return Refused(Canceled); }
        if pos < job.written { return Bytes; }
        if job.done {
          return if job.err.Some? then Refused(job.err.value) else EndOfFile;
        }
        if n == wakeups { return Blocked; }
        job.Interference(stream);
        n := n + 1;
      }
    }

    /** tailReader.Read into a buffer of `room` bytes. It may read past `written`; after a wait it
        reads again at most once, since then there is something to read. `calm` says that neither its
        context ends nor a read of the temp file fails. */
    method Read(room: nat, ghost stream: seq<byte>, wakeups: nat, calm: bool) returns (buf: seq<byte>, r: Got)
      requires room > 0 && Sane(stream, job.Now()) && 0 <= pos <= |job.file|
      modifies this`pos, job
      ensures Sane(stream, job.Now()) && Grows(old(job.Now()), job.Now()) && pos <= |job.file|
      ensures pos == old(pos) + |buf| && |buf| <= room && buf == stream[old(pos)..pos]
      ensures r == Bytes <==> buf != []
      ensures r == EndOfFile ==> pos == |stream| && job.done && job.err == None
      ensures r == Blocked ==> !job.done && pos >= job.written
      ensures calm && r.Refused? ==> job.done && job.err == Some(r.err)
      ensures calm && old(pos < |job.file|) ==> r == Bytes
    {
      ghost var readsLeft := 2;
      while true
        invariant Sane(stream, job.Now()) && Grows(old(job.Now()), job.Now())
        invariant 0 <= pos == old(pos) <= |job.file|
        invariant readsLeft == 2 || (readsLeft == 1 && pos < |job.file| && !(calm && old(pos < |job.file|)))
        decreases readsLeft
      {
        job.Interference(stream);
        var failed: bool := *;
        if failed && !calm { return [], Refused(Failed(3)); }
        if pos < |job.file| {
          var n: nat :| 0 < n <= room && pos + n <= |job.file|;
          buf := job.file[pos..pos + n];
          pos := pos + n;
          return buf, Bytes;
        }
        r := Wait(stream, wakeups, calm);
        if r != Bytes { return [], r; }
        readsLeft := readsLeft - 1;
      }
    }
  }

  /** serveLive: io.Copy from a tailReader at the start of the file to a client. Whatever the
      schedule, the client holds a prefix of the stream; and all of it when the copy ends well, as it
      does when all is calm and the job has ended without error. `calm` says that neither the context
      ends, nor a read of the temp file fails, nor a write to the client. */
  method ServeLive(reader: TailReader, ghost stream: seq<byte>, wakeups: nat, calm: bool)
    returns (body: seq<byte>, r: Got, clientOk: bool)
    requires Sane(stream, reader.job.Now()) && reader.pos == 0
    modifies reader`pos, reader.job
    ensures body <= stream
    ensures clientOk && r == EndOfFile ==> body == stream
    ensures clientOk ==> r != Bytes
    ensures calm ==> clientOk && (r.Refused? ==> reader.job.done && reader.job.err == Some(r.err))
    ensures r == Blocked ==> !reader.job.done && body == stream[..|body|] && |body| >= reader.job.written
    ensures calm && old(reader.job.done) && old(reader.job.err) == None ==> r == EndOfFile && body == stream
  {
    body, clientOk := [], true;
    while true
      invariant Sane(stream, reader.job.Now()) && 0 <= reader.pos <= |reader.job.file|
      invariant Grows(old(reader.job.Now()), reader.job.Now())
      invariant clientOk && body == stream[..reader.pos]
      decreases |stream| - reader.pos
    {
      var buf;
      ghost var before := reader.pos;
      buf, r := reader.Read(0x8000, stream, wakeups, calm);
      if r != Bytes { return; }
      Joined(stream, 0, before, |stream|, buf);
      clientOk := *;
      if calm { clientOk := true; }
      if !clientOk {
        var m: nat :| m <= |buf|;
        body := body + buf[..m];
        return;
      }
      body := body + buf;
    }
  }
}
