/** The invariant of FillProtocol holds in every reachable state. */
module FillInvariant {
  import opened Intervals
  import opened SparseSpec
  import opened FillProtocol

  // -------------------------------------------------------- steps of one fill

  /** Two lists of fills make the same claims on bytes. */
  ghost predicate SameClaims(a: seq<Fill>, b: seq<Fill>) {
    && |a| == |b|
    && (forall i, o :: 0 <= i < |a| ==> (Owns(a[i], o) <==> Owns(b[i], o)))
    && (forall i, o :: 0 <= i < |a| ==> (Wrote(a[i], o) <==> Wrote(b[i], o)))
    && (forall i, o :: 0 <= i < |a| ==> (Pending(a[i], o) <==> Pending(b[i], o)))
  }

  lemma SomeClaims(a: seq<Fill>, b: seq<Fill>)
    requires SameClaims(a, b)
    ensures forall o :: OwnedBySome(a, o) <==> OwnedBySome(b, o)
    ensures forall o :: WrittenBySome(a, o) <==> WrittenBySome(b, o)
    ensures forall o :: PendingInSome(a, o) <==> PendingInSome(b, o)
  {
    forall o
      ensures OwnedBySome(a, o) <==> OwnedBySome(b, o)
      ensures WrittenBySome(a, o) <==> WrittenBySome(b, o)
      ensures PendingInSome(a, o) <==> PendingInSome(b, o)
    {
      if OwnedBySome(a, o) { var i :| 0 <= i < |a| && Owns(a[i], o); assert Owns(b[i], o); }
      if OwnedBySome(b, o) { var i :| 0 <= i < |b| && Owns(b[i], o); assert Owns(a[i], o); }
      if WrittenBySome(a, o) { var i :| 0 <= i < |a| && Wrote(a[i], o); assert Wrote(b[i], o); }
      if WrittenBySome(b, o) { var i :| 0 <= i < |b| && Wrote(b[i], o); assert Wrote(a[i], o); }
      if PendingInSome(a, o) { var i :| 0 <= i < |a| && Pending(a[i], o); assert Pending(b[i], o); }
      if PendingInSome(b, o) { var i :| 0 <= i < |b| && Pending(b[i], o); assert Pending(a[i], o); }
    }
  }

  /** A step that changes only the phase of one fill, and no write in progress. */
  lemma PhaseKeeps(up: seq<byte>, s: State, i: nat, p: Phase)
    requires Inv(up, s) && i < |s.fills|
    requires Live(s.fills[i]) && !p.Over? && FillOk(up, s.sf, s.fills[i].(phase := p))
    requires s.fills[i].phase.Writing? ==> s.fills[i].phase.k == 0
    requires p.Writing? ==> p.k == 0
    ensures Inv(up, SetPhase(s, i, p))
  {
    var t := SetPhase(s, i, p);
    assert SameClaims(s.fills, t.fills);
    SomeClaims(s.fills, t.fills);
    assert Ownership(t) by { OwnershipKept(s, t); }
    assert Publication(t) by { PublicationKept(s, t); }
  }

  lemma OwnershipKept(s: State, t: State)
    requires Ownership(s) && SameClaims(s.fills, t.fills) && t.sf == s.sf
    requires forall i :: 0 <= i < |s.fills| ==> t.fills[i].pos == s.fills[i].pos
    ensures Ownership(t)
  {
    SomeClaims(s.fills, t.fills);
    forall i, j, o | 0 <= i < j < |t.fills| && Owns(t.fills[i], o) ensures !Owns(t.fills[j], o) {
      assert Owns(s.fills[i], o) && !Owns(s.fills[j], o);
    }
    forall i, o | 0 <= i < |t.fills| && Owns(t.fills[i], o) && t.fills[i].pos <= o ensures o !in t.sf.present {
      assert Owns(s.fills[i], o);
    }
  }

  lemma PublicationKept(s: State, t: State)
    requires Publication(s) && SameClaims(s.fills, t.fills) && t.sf.present == s.sf.present
    ensures Publication(t)
  {
    SomeClaims(s.fills, t.fills);
    forall i, j, o | 0 <= i < j < |t.fills| && Wrote(t.fills[i], o) ensures !Wrote(t.fills[j], o) {
      assert Wrote(s.fills[i], o) && !Wrote(s.fills[j], o);
    }
  }

  // What the fills other than the i-th claim.
  ghost predicate OthersOwn(fills: seq<Fill>, i: nat, o: int) {
    exists j :: 0 <= j < |fills| && j != i && Owns(fills[j], o)
  }

  ghost predicate OthersWrote(fills: seq<Fill>, i: nat, o: int) {
    exists j :: 0 <= j < |fills| && j != i && Wrote(fills[j], o)
  }

  ghost predicate OthersPending(fills: seq<Fill>, i: nat, o: int) {
    exists j :: 0 <= j < |fills| && j != i && Pending(fills[j], o)
  }

  lemma Replace(fills: seq<Fill>, i: nat, f: Fill)
    requires i < |fills|
    ensures forall o :: OwnedBySome(fills[i := f], o) <==> OthersOwn(fills, i, o) || Owns(f, o)
    ensures forall o :: WrittenBySome(fills[i := f], o) <==> OthersWrote(fills, i, o) || Wrote(f, o)
    ensures forall o :: PendingInSome(fills[i := f], o) <==> OthersPending(fills, i, o) || Pending(f, o)
  {
    var g := fills[i := f];
    assert g[i] == f && forall j :: 0 <= j < |fills| && j != i ==> g[j] == fills[j];
    forall o ensures OwnedBySome(g, o) <==> OthersOwn(fills, i, o) || Owns(f, o) {
      if OwnedBySome(g, o) { var j :| 0 <= j < |g| && Owns(g[j], o); assert j != i ==> Owns(fills[j], o); }
      if OthersOwn(fills, i, o) { var j :| 0 <= j < |fills| && j != i && Owns(fills[j], o); assert Owns(g[j], o); }
      if Owns(f, o) { assert Owns(g[i], o); }
    }
    forall o ensures WrittenBySome(g, o) <==> OthersWrote(fills, i, o) || Wrote(f, o) {
      if WrittenBySome(g, o) { var j :| 0 <= j < |g| && Wrote(g[j], o); assert j != i ==> Wrote(fills[j], o); }
      if OthersWrote(fills, i, o) { var j :| 0 <= j < |fills| && j != i && Wrote(fills[j], o); assert Wrote(g[j], o); }
      if Wrote(f, o) { assert Wrote(g[i], o); }
    }
    forall o ensures PendingInSome(g, o) <==> OthersPending(fills, i, o) || Pending(f, o) {
      if PendingInSome(g, o) { var j :| 0 <= j < |g| && Pending(g[j], o); assert j != i ==> Pending(fills[j], o); }
      if OthersPending(fills, i, o) {
        var j :| 0 <= j < |fills| && j != i && Pending(fills[j], o);
        assert Pending(g[j], o);
      }
      if Pending(f, o) { assert Pending(g[i], o); }
    }
  }

  lemma Same(fills: seq<Fill>, i: nat)
    requires i < |fills|
    ensures fills[i := fills[i]] == fills
  {
  }

  /** One fill keeps or gives up its reservation; only it may have published what it reserved. */
  lemma OwnershipSet(s: State, t: State, i: nat, g: Fill)
    requires Ownership(s) && i < |s.fills| && t.fills == s.fills[i := g]
    requires forall o :: Owns(g, o) ==> Owns(s.fills[i], o)
    requires forall o :: o in t.sf.inflight <==> o in s.sf.inflight && (Owns(s.fills[i], o) ==> Owns(g, o))
    requires forall o :: o in t.sf.present ==> o in s.sf.present || Owns(s.fills[i], o)
    requires forall o :: Owns(g, o) && g.pos <= o ==> o !in t.sf.present
    ensures Ownership(t)
  {
    var f := s.fills[i];
    Replace(s.fills, i, f);
    Same(s.fills, i);
    Replace(s.fills, i, g);
    OwnExclusive(s, i);
    forall j, k, o | 0 <= j < k < |t.fills| && Owns(t.fills[j], o) ensures !Owns(t.fills[k], o) {
      assert Owns(s.fills[j], o);
      assert !Owns(s.fills[k], o);
    }
    forall j, o | 0 <= j < |t.fills| && Owns(t.fills[j], o) && t.fills[j].pos <= o ensures o !in t.sf.present {
      assert j != i ==> Owns(s.fills[j], o) && OthersOwn(s.fills, i, o);
    }
  }

  lemma OwnExclusive(s: State, i: nat)
    requires Ownership(s) && i < |s.fills|
    ensures forall o :: Owns(s.fills[i], o) ==> !OthersOwn(s.fills, i, o)
  {
    forall o | OthersOwn(s.fills, i, o) ensures !Owns(s.fills[i], o) {
      var j :| 0 <= j < |s.fills| && j != i && Owns(s.fills[j], o);
    }
  }

  lemma PublicationSet(s: State, t: State, i: nat, g: Fill)
    requires Publication(s) && i < |s.fills| && t.fills == s.fills[i := g]
    requires forall o :: Wrote(s.fills[i], o) ==> Wrote(g, o)
    requires forall o :: Wrote(g, o) && !Wrote(s.fills[i], o) ==> o !in s.sf.present
    requires forall o :: o in t.sf.present <==> o in s.sf.present || (Wrote(g, o) && !Wrote(s.fills[i], o))
    ensures Publication(t)
  {
    var f := s.fills[i];
    Replace(s.fills, i, f);
    Same(s.fills, i);
    Replace(s.fills, i, g);
    forall j, k, o | 0 <= j < k < |t.fills| && Wrote(t.fills[j], o) ensures !Wrote(t.fills[k], o) {
      assert j != i ==> Wrote(s.fills[j], o) && WrittenBySome(s.fills, o);
      assert k != i && Wrote(t.fills[k], o) ==> Wrote(s.fills[k], o) && WrittenBySome(s.fills, o);
      assert Wrote(s.fills[j], o) ==> !Wrote(s.fills[k], o);
    }
  }

  /** No other fill is writing a byte of a live fill's reservation. */
  lemma PendingExclusive(up: seq<byte>, s: State, i: nat)
    requires Shape(up, s) && Ownership(s) && i < |s.fills|
    ensures forall o :: Owns(s.fills[i], o) ==> !OthersPending(s.fills, i, o)
  {
    OwnExclusive(s, i);
    forall o | OthersPending(s.fills, i, o) ensures OthersOwn(s.fills, i, o) {
      var j :| 0 <= j < |s.fills| && j != i && Pending(s.fills[j], o);
      assert FillOk(up, s.sf, s.fills[j]);
      assert Owns(s.fills[j], o);
    }
  }

  /** One offset's account after one fill's step. */
  lemma TallySet(up: seq<byte>, s: State, t: State, i: nat, g: Fill)
    requires Shape(up, s) && Ownership(s) && Tally(s) && i < |s.fills| && t.fills == s.fills[i := g]
    requires |t.hits| == |t.lost| == |s.hits|
    requires forall o :: Pending(g, o) || Pending(s.fills[i], o) ==> Owns(s.fills[i], o) && o !in s.sf.present
    requires forall o :: o in t.sf.present ==> o in s.sf.present || Pending(s.fills[i], o)
    requires forall o :: o in s.sf.present ==> o in t.sf.present
    requires forall o :: o in t.sf.present ==> !Pending(g, o)
    requires forall o :: 0 <= o < |s.hits| ==>
      t.hits[o] + s.lost[o] == s.hits[o] + t.lost[o]
        + (if Pending(g, o) || (o in t.sf.present && o !in s.sf.present) then 1 else 0)
        - (if Pending(s.fills[i], o) then 1 else 0)
    ensures Tally(t)
  {
    var f := s.fills[i];
    Replace(s.fills, i, f);
    Same(s.fills, i);
    Replace(s.fills, i, g);
    PendingExclusive(up, s, i);
  }

  lemma ContentSet(up: seq<byte>, s: State, t: State, i: nat, g: Fill)
    requires |up| == |s.disk| == |t.disk| && Content(up, s) && i < |s.fills| && t.fills == s.fills[i := g]
    requires forall o :: 0 <= o < |up| ==> t.disk[o] == s.disk[o] || t.disk[o] == up[o]
    requires forall o :: o in t.sf.present ==> o in s.sf.present || Pending(s.fills[i], o)
    requires forall o :: 0 <= o < |up| && Pending(g, o) ==> Pending(s.fills[i], o) || t.disk[o] == up[o]
    ensures Content(up, t)
  {
    forall j, o | 0 <= j < |t.fills| && Pending(t.fills[j], o) && 0 <= o < |up| ensures t.disk[o] == up[o] {
      assert j != i ==> Pending(s.fills[j], o);
    }
  }

  /** What a fill's own reservation gives it. */
  lemma OwnPart(up: seq<byte>, s: State, i: nat)
    requires Shape(up, s) && Ownership(s) && i < |s.fills| && Live(s.fills[i])
    ensures forall o :: s.fills[i].pos <= o < s.fills[i].iv.end ==> Owns(s.fills[i], o) && o !in s.sf.present
  {
    assert FillOk(up, s.sf, s.fills[i]);
  }

  lemma PutKeeps(up: seq<byte>, s: State, i: nat, j: nat)
    requires Inv(up, s) && i < |s.fills| && FillStep(up, s, s.fills[i], Put(i, j))
    ensures Inv(up, FillApply(up, s, i, Put(i, j)))
  {
    hide Ownership, Publication, Content, Tally;
    var t := FillApply(up, s, i, Put(i, j));
    var f, g := s.fills[i], t.fills[i];
    assert FillOk(up, s.sf, f);
    OwnPart(up, s, i);
    OwnershipSet(s, t, i, g);
    PublicationSet(s, t, i, g);
    ContentSet(up, s, t, i, g);
    TallySet(up, s, t, i, g);
  }

  lemma PutFailsKeeps(up: seq<byte>, s: State, i: nat)
    requires Inv(up, s) && i < |s.fills| && FillStep(up, s, s.fills[i], PutFails(i))
    ensures Inv(up, FillApply(up, s, i, PutFails(i)))
  {
    hide Ownership, Publication, Content, Tally;
    var t := FillApply(up, s, i, PutFails(i));
    var f, g := s.fills[i], t.fills[i];
    assert FillOk(up, s.sf, f);
    OwnPart(up, s, i);
    OwnershipSet(s, t, i, g);
    PublicationSet(s, t, i, g);
    ContentSet(up, s, t, i, g);
    TallySet(up, s, t, i, g);
  }

  lemma ShowKeeps(up: seq<byte>, s: State, i: nat)
    requires Inv(up, s) && i < |s.fills| && FillStep(up, s, s.fills[i], Show(i))
    ensures Inv(up, FillApply(up, s, i, Show(i)))
  {
    hide Ownership, Publication, Content, Tally;
    var t := FillApply(up, s, i, Show(i));
    var f, g := s.fills[i], t.fills[i];
    assert FillOk(up, s.sf, f);
    OwnPart(up, s, i);
    OwnershipSet(s, t, i, g);
    PublicationSet(s, t, i, g);
    ContentSet(up, s, t, i, g);
    TallySet(up, s, t, i, g);
  }

  lemma DropDriving(up: seq<byte>, s: State, i: nat)
    requires Shape(up, s) && Driving(s) && i < |s.fills| && FillStep(up, s, s.fills[i], Drop(i))
    requires s.fills[i].pos <= s.fills[i].iv.end
    ensures Driving(FillApply(up, s, i, Drop(i)))
  {
  }

  /** The fill steps that only change a phase. */
  lemma QuietKeeps(up: seq<byte>, s: State, i: nat, a: Step)
    requires Inv(up, s) && i < |s.fills| && s.fills[i].pos <= s.fills[i].iv.end && FillStep(up, s, s.fills[i], a)
    requires a.Acquire? || a.Abandon? || a.Read? || a.Open? || a.Stop? || a.GiveBack?
    ensures Inv(up, FillApply(up, s, i, a))
  {
    hide Ownership, Publication, Content, Tally, Driving;
    assert FillOk(up, s.sf, s.fills[i]);
    PhaseKeeps(up, s, i, FillApply(up, s, i, a).fills[i].phase);
  }

  // -------------------------------------------------------- reservations

  /** The invariant without its part on the filler. */
  ghost predicate Claims(up: seq<byte>, s: State) {
    Shape(up, s) && Ownership(s) && Publication(s) && Content(up, s) && Tally(s)
  }

  lemma AppendSome(fills: seq<Fill>, f: Fill)
    ensures forall o :: OwnedBySome(fills + [f], o) <==> OwnedBySome(fills, o) || Owns(f, o)
    ensures forall o :: WrittenBySome(fills + [f], o) <==> WrittenBySome(fills, o) || Wrote(f, o)
    ensures forall o :: PendingInSome(fills + [f], o) <==> PendingInSome(fills, o) || Pending(f, o)
  {
    var g, n := fills + [f], |fills|;
    assert g[n] == f && forall j :: 0 <= j < n ==> g[j] == fills[j];
    forall o ensures OwnedBySome(g, o) <==> OwnedBySome(fills, o) || Owns(f, o) {
      if OwnedBySome(g, o) { var j :| 0 <= j < |g| && Owns(g[j], o); assert j < n ==> Owns(fills[j], o); }
      if OwnedBySome(fills, o) { var j :| 0 <= j < n && Owns(fills[j], o); assert Owns(g[j], o); }
      if Owns(f, o) { assert Owns(g[n], o); }
    }
    forall o ensures WrittenBySome(g, o) <==> WrittenBySome(fills, o) || Wrote(f, o) {
      if WrittenBySome(g, o) { var j :| 0 <= j < |g| && Wrote(g[j], o); assert j < n ==> Wrote(fills[j], o); }
      if WrittenBySome(fills, o) { var j :| 0 <= j < n && Wrote(fills[j], o); assert Wrote(g[j], o); }
      if Wrote(f, o) { assert Wrote(g[n], o); }
    }
    forall o ensures PendingInSome(g, o) <==> PendingInSome(fills, o) || Pending(f, o) {
      if PendingInSome(g, o) { var j :| 0 <= j < |g| && Pending(g[j], o); assert j < n ==> Pending(fills[j], o); }
      if PendingInSome(fills, o) { var j :| 0 <= j < n && Pending(fills[j], o); assert Pending(g[j], o); }
      if Pending(f, o) { assert Pending(g[n], o); }
    }
  }

  /** One more fill, on free bytes. */
  lemma AppendKeeps(up: seq<byte>, s: State, iv: Interval, seek: bool)
    requires Claims(up, s)
    requires 0 <= iv.start < iv.end <= s.sf.size && iv.end - iv.start <= s.sf.chunk
    requires forall o :: iv.start <= o < iv.end ==> Free(s.sf, o)
    ensures Claims(up, s.(sf := s.sf.(inflight := s.sf.inflight + Range(iv.start, iv.end)),
                          fills := s.fills + [NewFill(iv, seek)]))
  {
    var f := NewFill(iv, seek);
    var t := s.(sf := s.sf.(inflight := s.sf.inflight + Range(iv.start, iv.end)), fills := s.fills + [f]);
    AppendSome(s.fills, f);
    assert forall o :: Owns(f, o) ==> Free(s.sf, o);
    AppendOwnership(s, t, f);
    AppendRest(up, s, t, f);
  }

  lemma AppendOwnership(s: State, t: State, f: Fill)
    requires Ownership(s) && t.fills == s.fills + [f] && t.sf.present == s.sf.present
    requires forall o :: Owns(f, o) ==> o !in s.sf.inflight && o !in s.sf.present
    requires forall o :: o in t.sf.inflight <==> o in s.sf.inflight || Owns(f, o)
    ensures Ownership(t)
  {
    AppendSome(s.fills, f);
    forall i, j, o | 0 <= i < j < |t.fills| && Owns(t.fills[i], o) ensures !Owns(t.fills[j], o) {
      assert Owns(s.fills[i], o);
      assert OwnedBySome(s.fills, o);
    }
    forall i, o | 0 <= i < |t.fills| && Owns(t.fills[i], o) && t.fills[i].pos <= o ensures o !in t.sf.present {
      assert i < |s.fills| ==> Owns(s.fills[i], o);
    }
  }

  lemma AppendRest(up: seq<byte>, s: State, t: State, f: Fill)
    requires Shape(up, s) && Publication(s) && Content(up, s) && Tally(s)
    requires t == s.(sf := t.sf, fills := s.fills + [f]) && t.sf == s.sf.(inflight := t.sf.inflight)
    requires FillOk(up, s.sf, f) && f.phase == Queued
    ensures Shape(up, t) && Publication(t) && Content(up, t) && Tally(t)
  {
    AppendSome(s.fills, f);
    assert forall o :: !Wrote(f, o) && !Pending(f, o);
    forall i, j, o | 0 <= i < j < |t.fills| && Wrote(t.fills[i], o) ensures !Wrote(t.fills[j], o) {
      assert Wrote(s.fills[i], o);
      assert j < |s.fills| ==> !Wrote(s.fills[j], o);
    }
    forall i, o | 0 <= i < |t.fills| && Pending(t.fills[i], o) && 0 <= o < |up| ensures t.disk[o] == up[o] {
      assert Pending(s.fills[i], o);
    }
  }

  ghost function WithSeeks(s: State, out: seq<Interval>): State {
    s.(sf := s.sf.(inflight := s.sf.inflight + Bytes(out)), fills := s.fills + NewFills(out))
  }

  ghost predicate FreePieces(sf: Sparse, out: seq<Interval>) {
    && (forall i :: 0 <= i < |out| ==>
          0 <= out[i].start < out[i].end <= sf.size && out[i].end - out[i].start <= sf.chunk)
    && (forall i, o :: 0 <= i < |out| && out[i].start <= o < out[i].end ==> Free(sf, o))
    && (forall i, j :: 0 <= i < j < |out| ==> out[i].end <= out[j].start)
  }

  /** A whole reservation: each of its pieces becomes a fill in the same critical section. */
  lemma {:induction false} SeeksKeep(up: seq<byte>, s: State, out: seq<Interval>)
    requires Claims(up, s) && FreePieces(s.sf, out)
    ensures Claims(up, WithSeeks(s, out))
  {
    hide Claims;
    if out == [] {
      assert WithSeeks(s, out) == s;
    } else {
      var n := |out| - 1;
      var t := WithSeeks(s, out[..n]);
      SeeksKeep(up, s, out[..n]);
      LastPieceFree(s.sf, out);
      AppendKeeps(up, t, out[n], true);
      assert NewFills(out) == NewFills(out[..n]) + [NewFill(out[n], true)];
      assert WithSeeks(s, out) == t.(sf := t.sf.(inflight := t.sf.inflight + Range(out[n].start, out[n].end)),
                                     fills := t.fills + [NewFill(out[n], true)]);
    }
  }

  lemma LastPieceFree(sf: Sparse, out: seq<Interval>)
    requires FreePieces(sf, out) && out != []
    ensures var n := |out| - 1;
      && (forall o :: out[n].start <= o < out[n].end ==> Free(sf.(inflight := sf.inflight + Bytes(out[..n])), o))
      && sf.inflight + Bytes(out) == sf.inflight + Bytes(out[..n]) + Range(out[n].start, out[n].end)
  {
    hide Bytes, Free;
    var n := |out| - 1;
    PiecesBelow(out[..n], out[n].start);
    forall o | out[n].start <= o < out[n].end ensures Free(sf.(inflight := sf.inflight + Bytes(out[..n])), o) {
      FreeBeside(sf, Bytes(out[..n]), o);
    }
    assert out == out[..n] + [out[n]];
    BytesSnoc(out[..n], out[n]);
  }

  lemma PiecesBelow(out: seq<Interval>, b: int)
    requires forall i :: 0 <= i < |out| ==> out[i].end <= b
    ensures forall o :: o in Bytes(out) ==> o < b
  {
    BytesHas(out);
  }

  lemma FreeBeside(sf: Sparse, taken: set<int>, o: int)
    requires Free(sf, o) && o !in taken
    ensures Free(sf.(inflight := sf.inflight + taken), o)
  {
  }

  lemma SeekKeeps(up: seq<byte>, s: State, off: int, out: seq<Interval>)
    requires Inv(up, s) && DriverStep(s, Seek(off, out))
    ensures Inv(up, DriverApply(s, Seek(off, out)))
  {
    hide Ownership, Publication, Content, Tally;
    SeeksKeep(up, s, out);
    var t := DriverApply(s, Seek(off, out));
    var w := WithSeeks(s, out);
    assert t == w;
  }

  lemma LowestKeeps(up: seq<byte>, s: State, iv: Interval)
    requires Inv(up, s) && DriverStep(s, Lowest(iv))
    ensures Inv(up, DriverApply(s, Lowest(iv)))
  {
    hide Ownership, Publication, Content, Tally;
    AppendKeeps(up, s, iv, false);
    assert Bytes([iv]) == Range(iv.start, iv.end) by { assert [iv][..0] == []; }
    var w := s.(sf := s.sf.(inflight := s.sf.inflight + Range(iv.start, iv.end)),
                fills := s.fills + [NewFill(iv, false)]);
    SameData(up, w, DriverApply(s, Lowest(iv)));
  }

  // -------------------------------------------------------- the filler's own steps

  /** Nothing but the filler's place and flags differs. */
  lemma SameData(up: seq<byte>, s: State, t: State)
    requires Claims(up, s)
    requires t.sf.present == s.sf.present && t.sf.inflight == s.sf.inflight
    requires t.sf.size == s.sf.size && t.sf.chunk == s.sf.chunk
    requires t.disk == s.disk && t.fills == s.fills && t.hits == s.hits && t.lost == s.lost
    ensures Claims(up, t)
  {
    assert forall i :: 0 <= i < |s.fills| ==> FillOk(up, t.sf, s.fills[i]) == FillOk(up, s.sf, s.fills[i]);
  }

  lemma LocalKeeps(up: seq<byte>, s: State, a: Step)
    requires Inv(up, s) && DriverStep(s, a) && !a.Seek? && !a.Lowest?
    ensures Inv(up, DriverApply(s, a))
  {
    hide Ownership, Publication, Content, Tally;
    SameData(up, s, DriverApply(s, a));
  }

  lemma DropClaims(up: seq<byte>, s: State, i: nat, g: Fill)
    requires Claims(up, s) && i < |s.fills| && s.fills[i].phase.Leaving?
    requires g == s.fills[i].(phase := Over(s.fills[i].phase.res))
    ensures Claims(up, s.(sf := After(s.sf, Release(g.iv)), fills := s.fills[i := g]))
  {
    hide Ownership, Publication, Content, Tally;
    var t := s.(sf := After(s.sf, Release(g.iv)), fills := s.fills[i := g]);
    assert FillOk(up, s.sf, s.fills[i]);
    OwnershipSet(s, t, i, g);
    PublicationSet(s, t, i, g);
    ContentSet(up, s, t, i, g);
    TallySet(up, s, t, i, g);
  }

  lemma DropKeeps(up: seq<byte>, s: State, i: nat)
    requires Inv(up, s) && i < |s.fills| && FillStep(up, s, s.fills[i], Drop(i))
    requires s.fills[i].pos <= s.fills[i].iv.end
    ensures Inv(up, FillApply(up, s, i, Drop(i)))
  {
    hide Ownership, Publication, Content, Tally, Driving;
    var t := FillApply(up, s, i, Drop(i));
    DropClaims(up, s, i, t.fills[i]);
    DropDriving(up, s, i);
    SameData(up, s.(sf := t.sf, fills := t.fills), t);
  }

  // -------------------------------------------------------- all steps, all runs

  lemma InitHolds(up: seq<byte>, s: State)
    requires Init(up, s)
    ensures Inv(up, s)
  {
  }

  lemma StepKeeps(up: seq<byte>, s: State, a: Step)
    requires Inv(up, s) && Enabled(up, s, a)
    ensures Inv(up, Apply(up, s, a))
  {
    hide Inv;
    match a
    case Put(i, j) => PutKeeps(up, s, i, j);
    case PutFails(i) => PutFailsKeeps(up, s, i);
    case Show(i) => ShowKeeps(up, s, i);
    case Drop(i) => DropKeeps(up, s, i);
    case Seek(off, out) => SeekKeeps(up, s, off, out);
    case Lowest(iv) => LowestKeeps(up, s, iv);
    case _ =>
      match FillOf(a)
      case Some(i) => QuietKeeps(up, s, i, a);
      case None => LocalKeeps(up, s, a);
  }

  /** Every state of every run: any schedule of the filler, of seeks, of failures and cancellations. */
  lemma {:induction false} RunKeeps(up: seq<byte>, s: State, steps: seq<Step>)
    requires Inv(up, s) && Run(up, s, steps).Some?
    ensures Inv(up, Run(up, s, steps).value)
  {
    hide Inv;
    if steps != [] {
      var n := |steps| - 1;
      RunKeeps(up, s, steps[..n]);
      StepKeeps(up, Run(up, s, steps[..n]).value, steps[n]);
    }
  }
}
