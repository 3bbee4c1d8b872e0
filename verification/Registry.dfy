/** The hand-off from the registry of running jobs to the disk cache, and the checks a /live request
    makes one after the other while jobs start, end, and are evicted (server/jobs.go, handler.go). */
module Registry {
  import opened SparseSpec

  type Id = int

  /** Where run(job) stands. */
  datatype JobPc =
    | Probing
    | Working                 // runSparse, runSequential or runRemux
    | Filing                  // about to call finalize
    | Ending(ok: bool)        // about to record the terminal state
    | Deleting(ok: bool)      // about to leave the registry
    | Gone(ok: bool)

  datatype Job = Job(id: Id, pc: JobPc, ready: bool, probeErr: bool)

  datatype Reply =
    | Cached                  // the finished file
    | NotFound | BadGateway | ClientGone
    | Routed(j: nat)          // serveSparse or serveLive on job j

  /** Where liveHandler stands. */
  datatype ReqPc =
    | FirstHas
    | Opening                 // a Has said yes; the file is about to be opened
    | Lookup                  // getJob
    | SecondHas
    | Await(j: nat)           // <-job.ready
    | ProbeFailedHas(j: nat)
    | ThirdHas(j: nat)
    | Replied(reply: Reply)

  /** A request, with what has happened to its id: was it downloading or cached when the request came,
      has a job for it failed since, has it been evicted since. */
  datatype Request = Request(id: Id, pc: ReqPc, known: bool, failed: bool, evicted: bool)

  datatype World = World(jobs: seq<Job>, registry: map<Id, nat>, cache: set<Id>, requests: seq<Request>)

  datatype Event =
    | StartJob(id: Id)
    | Probed(j: nat, err: bool)
    | Worked(j: nat, ok: bool)
    | Filed(j: nat, renamed: bool, evicted: set<Id>)
    | MarkedDone(j: nat)
    | Deleted(j: nat)
    | Arrive(id: Id)
    | Has(q: nat) | Open(q: nat) | GetJob(q: nat)
    | Ready(q: nat) | Leave(q: nat)

  predicate Underway(pc: JobPc) { pc.Probing? || pc.Working? || pc.Filing? }

  /** The id is being downloaded by a job that has not failed, or is in the cache. */
  predicate Known(w: World, id: Id) {
    id in w.cache || (id in w.registry && w.registry[id] < |w.jobs| && Underway(w.jobs[w.registry[id]].pc))
  }

  function Hit(r: Request, failed: set<Id>, evicted: set<Id>): Request {
    r.(failed := r.failed || r.id in failed, evicted := r.evicted || r.id in evicted)
  }

  function HitAll(rs: seq<Request>, failed: set<Id>, evicted: set<Id>): (ts: seq<Request>)
    ensures |ts| == |rs| && forall q :: 0 <= q < |rs| ==> ts[q] == Hit(rs[q], failed, evicted)
  {
    seq(|rs|, q requires 0 <= q < |rs| => Hit(rs[q], failed, evicted))
  }

  predicate Enabled(w: World, e: Event) {
    match e
    case StartJob(_) => true
    case Probed(j, _) => j < |w.jobs| && w.jobs[j].pc == Probing
    case Worked(j, _) => j < |w.jobs| && w.jobs[j].pc == Working
    case Filed(j, renamed, evicted) => j < |w.jobs| && w.jobs[j].pc == Filing
    case MarkedDone(j) => j < |w.jobs| && w.jobs[j].pc.Ending?
    case Deleted(j) => j < |w.jobs| && w.jobs[j].pc.Deleting?
    case Arrive(_) => true
    case Has(q) => q < |w.requests| && var pc := w.requests[q].pc;
        pc.FirstHas? || pc.SecondHas? || pc.ProbeFailedHas? || pc.ThirdHas?
    case Open(q) => q < |w.requests| && w.requests[q].pc == Opening
    case GetJob(q) => q < |w.requests| && w.requests[q].pc == Lookup
    case Ready(q) => q < |w.requests| && w.requests[q].pc.Await?
        && w.requests[q].pc.j < |w.jobs| && w.jobs[w.requests[q].pc.j].ready
    case Leave(q) => q < |w.requests| && w.requests[q].pc.Await?
  }

  function SetJob(w: World, j: nat, pc: JobPc): World
    requires j < |w.jobs|
  {
    w.(jobs := w.jobs[j := w.jobs[j].(pc := pc)])
  }

  /** A job turns to its end with an error: requests for its id take note. */
  function Fail(w: World, j: nat): World
    requires j < |w.jobs|
  {
    SetJob(w, j, Ending(false)).(requests := HitAll(w.requests, {w.jobs[j].id}, {}))
  }

  function SetReq(w: World, q: nat, pc: ReqPc): World
    requires q < |w.requests|
  {
    w.(requests := w.requests[q := w.requests[q].(pc := pc)])
  }

  /** What a Has that says no leads to. */
  function AfterMiss(pc: ReqPc): ReqPc {
    match pc
    case FirstHas => Lookup
    case SecondHas => Replied(NotFound)
    case ProbeFailedHas(_) => Replied(BadGateway)
    case ThirdHas(j) => Replied(Routed(j))
    case other => other
  }

  function Next(w: World, e: Event): World
    requires Enabled(w, e)
  {
    match e
    case StartJob(id) =>
      if id in w.registry then w
      else w.(jobs := w.jobs + [Job(id, Probing, false, false)], registry := w.registry[id := |w.jobs|])
    case Probed(j, err) =>
      var t := w.(jobs := w.jobs[j := w.jobs[j].(ready := true, probeErr := err)]);
      if err then Fail(t, j) else SetJob(t, j, Working)
    case Worked(j, ok) => if ok then SetJob(w, j, Filing) else Fail(w, j)
    case Filed(j, renamed, evicted) =>
      if !renamed then Fail(w, j)
      else SetJob(w, j, Ending(true)).(
        cache := w.cache + {w.jobs[j].id} - evicted, requests := HitAll(w.requests, {}, evicted))
    case MarkedDone(j) => SetJob(w, j, Deleting(w.jobs[j].pc.ok))
    case Deleted(j) => SetJob(w, j, Gone(w.jobs[j].pc.ok)).(registry := w.registry - {w.jobs[j].id})
    case Arrive(id) => w.(requests := w.requests + [Request(id, FirstHas, Known(w, id), false, false)])
    case Has(q) =>
      var r := w.requests[q];
      SetReq(w, q, if r.id in w.cache then Opening else AfterMiss(r.pc))
    case Open(q) => SetReq(w, q, Replied(if w.requests[q].id in w.cache then Cached else NotFound))
    case GetJob(q) =>
      var r := w.requests[q];
      SetReq(w, q, if r.id in w.registry then Await(w.registry[r.id]) else SecondHas)
    case Ready(q) =>
      var j := w.requests[q].pc.j;
      SetReq(w, q, if w.jobs[j].probeErr then ProbeFailedHas(j) else ThirdHas(j))
    case Leave(q) => SetReq(w, q, Replied(ClientGone))
  }

  function Run(w: World, es: seq<Event>): Option<World> {
    if es == [] then Some(w)
    else match Run(w, es[..|es| - 1])
      case Some(t) => if Enabled(t, es[|es| - 1]) then Some(Next(t, es[|es| - 1])) else None
      case None => None
  }

  const EMPTY := World([], map[], {}, [])

  // -------------------------------------------------------- the invariant

  /** The registry holds exactly the jobs that are not gone, each under its own id. */
  ghost predicate RegistryOk(w: World) {
    && (forall id :: id in w.registry ==>
          w.registry[id] < |w.jobs| && w.jobs[w.registry[id]].id == id && !w.jobs[w.registry[id]].pc.Gone?)
    && (forall j :: 0 <= j < |w.jobs| && !w.jobs[j].pc.Gone? ==>
          w.jobs[j].id in w.registry && w.registry[w.jobs[j].id] == j)
    && (forall j :: 0 <= j < |w.jobs| ==>
          (w.jobs[j].ready <==> !w.jobs[j].pc.Probing?) && (w.jobs[j].probeErr ==> w.jobs[j].ready))
  }

  predicate Steady(r: Request) { r.known && !r.failed && !r.evicted }

  ghost predicate RequestOk(w: World, r: Request) {
    && (Steady(r) ==> Known(w, r.id))
    && (Steady(r) && (r.pc.SecondHas? || r.pc.Opening?) ==> r.id in w.cache)
    && (r.pc == Replied(NotFound) ==> !Steady(r))
    && (r.pc.Await? || r.pc.ThirdHas? || r.pc.ProbeFailedHas? ==> r.pc.j < |w.jobs| && w.jobs[r.pc.j].id == r.id)
    && (r.pc.ProbeFailedHas? ==> w.jobs[r.pc.j].probeErr)
    && (r.pc.ThirdHas? ==> w.jobs[r.pc.j].ready && !w.jobs[r.pc.j].probeErr)
    && (r.pc.Replied? && r.pc.reply.Routed? ==>
          && r.pc.reply.j < |w.jobs| && w.jobs[r.pc.reply.j].id == r.id
          && w.jobs[r.pc.reply.j].ready && !w.jobs[r.pc.reply.j].probeErr)
    && (r.pc == Replied(BadGateway) ==> exists j :: 0 <= j < |w.jobs| && w.jobs[j].id == r.id && w.jobs[j].probeErr)
  }

  ghost predicate Ok(w: World) {
    RegistryOk(w) && forall q :: 0 <= q < |w.requests| ==> RequestOk(w, w.requests[q])
  }

  /** A step of the job side: what it must leave alone for requests to stay right. */
  lemma RequestKept(w: World, t: World, r: Request, r': Request)
    requires RequestOk(w, r) && r' == r.(failed := r'.failed, evicted := r'.evicted)
    requires (r.failed ==> r'.failed) && (r.evicted ==> r'.evicted)
    requires |w.jobs| <= |t.jobs|
    requires forall j :: 0 <= j < |w.jobs| ==> t.jobs[j].id == w.jobs[j].id
    requires forall j :: 0 <= j < |w.jobs| ==>
               (w.jobs[j].ready ==> t.jobs[j].ready && t.jobs[j].probeErr == w.jobs[j].probeErr)
    requires forall j :: 0 <= j < |w.jobs| ==> (w.jobs[j].probeErr ==> w.jobs[j].ready)
    requires Steady(r') && Known(w, r.id) ==> Known(t, r.id)
    requires Steady(r') && r.id in w.cache ==> r.id in t.cache
    ensures RequestOk(t, r')
  {
    if r.pc == Replied(BadGateway) {
      var j :| 0 <= j < |w.jobs| && w.jobs[j].id == r.id && w.jobs[j].probeErr;
      assert t.jobs[j].probeErr;
    }
  }

  /** One job moves on without leaving; the registry stays as it is. */
  lemma OneJobMoves(w: World, t: World, j: nat)
    requires RegistryOk(w) && j < |w.jobs| && !w.jobs[j].pc.Gone?
    requires t.registry == w.registry && |t.jobs| == |w.jobs| && t.jobs == w.jobs[j := t.jobs[j]]
    requires t.jobs[j].id == w.jobs[j].id && !t.jobs[j].pc.Gone? && !t.jobs[j].pc.Probing? && t.jobs[j].ready
    ensures RegistryOk(t)
  {
  }

  lemma JobLeaves(w: World, j: nat)
    requires RegistryOk(w) && Enabled(w, Deleted(j))
    ensures RegistryOk(Next(w, Deleted(j)))
  {
    var t := Next(w, Deleted(j));
    forall i | 0 <= i < |t.jobs| && !t.jobs[i].pc.Gone?
      ensures t.jobs[i].id in t.registry && t.registry[t.jobs[i].id] == i
    {
      assert w.jobs[i].id in w.registry && w.registry[w.jobs[i].id] == i;
    }
  }

  lemma JobStarts(w: World, id: Id)
    requires RegistryOk(w)
    ensures RegistryOk(Next(w, StartJob(id)))
  {
    var t := Next(w, StartJob(id));
    forall i | 0 <= i < |t.jobs| && !t.jobs[i].pc.Gone?
      ensures t.jobs[i].id in t.registry && t.registry[t.jobs[i].id] == i
    {
      assert i < |w.jobs| ==> w.jobs[i].id in w.registry && w.registry[w.jobs[i].id] == i;
    }
  }

  lemma RegistryKept(w: World, e: Event)
    requires RegistryOk(w) && Enabled(w, e)
    ensures RegistryOk(Next(w, e))
  {
    hide RegistryOk;
    var t := Next(w, e);
    match e
    case StartJob(id) => JobStarts(w, id);
    case Probed(j, err) =>
      assert t.jobs == w.jobs[j := t.jobs[j]];
      OneJobMoves(w, t, j);
    case Worked(j, _) => ReadyOnceProbed(w, j); OneJobMoves(w, t, j);
    case Filed(j, _, _) => ReadyOnceProbed(w, j); OneJobMoves(w, t, j);
    case MarkedDone(j) => ReadyOnceProbed(w, j); OneJobMoves(w, t, j);
    case Deleted(j) => JobLeaves(w, j);
    case _ => SameRegistry(w, t);
  }

  lemma ReadyOnceProbed(w: World, j: nat)
    requires RegistryOk(w) && j < |w.jobs| && !w.jobs[j].pc.Probing?
    ensures w.jobs[j].ready
  {
  }

  lemma SameRegistry(w: World, t: World)
    requires RegistryOk(w) && t.jobs == w.jobs && t.registry == w.registry
    ensures RegistryOk(t)
  {
  }

  lemma JobEventKeeps(w: World, e: Event)
    requires Ok(w) && Enabled(w, e)
    requires e.StartJob? || e.Probed? || e.Worked? || e.Filed? || e.MarkedDone? || e.Deleted?
    ensures Ok(Next(w, e))
  {
    var t := Next(w, e);
    RegistryKept(w, e);
    forall q | 0 <= q < |t.requests| ensures RequestOk(t, t.requests[q]) {
      KnownKept(w, e, w.requests[q], t.requests[q]);
      RequestKept(w, t, w.requests[q], t.requests[q]);
    }
  }

  /** finalize before delete: a request's id stays known unless its job fails or it is evicted. */
  lemma KnownKept(w: World, e: Event, r: Request, r': Request)
    requires RegistryOk(w) && Enabled(w, e) && r in w.requests
    requires e.StartJob? || e.Probed? || e.Worked? || e.Filed? || e.MarkedDone? || e.Deleted?
    requires r'.id == r.id && (e.Filed? && e.renamed && r.id in e.evicted ==> r'.evicted)
    requires (e.Probed? && e.err) || (e.Worked? && !e.ok) || (e.Filed? && !e.renamed) ==>
      w.jobs[e.j].id == r.id ==> r'.failed
    ensures Steady(r') && Known(w, r.id) ==> Known(Next(w, e), r.id)
    ensures Steady(r') && r.id in w.cache ==> r.id in Next(w, e).cache
  {
  }

  lemma RequestEventKeeps(w: World, e: Event)
    requires Ok(w) && Enabled(w, e)
    requires e.Arrive? || e.Has? || e.Open? || e.GetJob? || e.Ready? || e.Leave?
    ensures Ok(Next(w, e))
  {
    RegistryKept(w, e);
    var t := Next(w, e);
    forall q | 0 <= q < |t.requests| ensures RequestOk(t, t.requests[q]) {
      assert q < |w.requests| ==> RequestOk(w, w.requests[q]);
    }
  }

  lemma EventKeeps(w: World, e: Event)
    requires Ok(w) && Enabled(w, e)
    ensures Ok(Next(w, e))
  {
    hide Enabled, Next, Ok;
    if e.StartJob? || e.Probed? || e.Worked? || e.Filed? || e.MarkedDone? || e.Deleted? {
      JobEventKeeps(w, e);
    } else {
      RequestEventKeeps(w, e);
    }
  }

  lemma {:induction false} RunKeeps(es: seq<Event>)
    requires Run(EMPTY, es).Some?
    ensures Ok(Run(EMPTY, es).value)
  {
    hide Enabled, Next, Ok;
    if es == [] {
      EmptyOk();
    } else {
      var n := |es| - 1;
      RunKeeps(es[..n]);
      EventKeeps(Run(EMPTY, es[..n]).value, es[n]);
    }
  }

  lemma EmptyOk()
    ensures Ok(EMPTY)
  {
  }

  // -------------------------------------------------------- what follows

  /** Some interleaving of jobs and requests leads to w. */
  ghost predicate Occurs(w: World) {
    exists es :: Run(EMPTY, es) == Some(w)
  }

  lemma OccurringOk(w: World)
    requires Occurs(w)
    ensures Ok(w)
  {
    var es :| Run(EMPTY, es) == Some(w);
    RunKeeps(es);
  }

  /** In every reachable state an id has at most one job that is not gone, and the registry finds it. */
  lemma OneLiveJobPerId(w: World, i: nat, j: nat)
    requires Occurs(w) && i < |w.jobs| && j < |w.jobs|
    requires w.jobs[i].id == w.jobs[j].id && !w.jobs[i].pc.Gone? && !w.jobs[j].pc.Gone?
    ensures i == j && w.jobs[i].id in w.registry && w.registry[w.jobs[i].id] == i
  {
    OccurringOk(w);
  }

  /** finishJob deletes its own entry, and no other job's. */
  lemma DeletesOwnEntry(w: World, j: nat)
    requires Occurs(w) && Enabled(w, Deleted(j))
    ensures var t := Next(w, Deleted(j));
      && w.jobs[j].id in w.registry && w.registry[w.jobs[j].id] == j
      && t.registry.Keys == w.registry.Keys - {w.jobs[j].id}
      && forall id :: id in t.registry ==> t.registry[id] == w.registry[id]
  {
    OccurringOk(w);
  }

  /** finalize precedes the delete: when a job is filed it is still registered, and its entry is in
      the cache unless the same finalize evicted it. */
  lemma FiledBeforeDeleted(w: World, j: nat, evicted: set<Id>)
    requires Occurs(w) && Enabled(w, Filed(j, true, evicted))
    ensures var t := Next(w, Filed(j, true, evicted));
      && w.jobs[j].id in t.registry && t.registry[w.jobs[j].id] == j
      && (w.jobs[j].id in t.cache <==> w.jobs[j].id !in evicted)
  {
    OccurringOk(w);
  }

  /** startJob: afterwards the id has a job, registered and not gone; a new one, about to probe, unless
      there was one, and then nothing has changed. */
  lemma StartRegisters(w: World, id: Id)
    requires Occurs(w)
    ensures Enabled(w, StartJob(id))
    ensures var t := Next(w, StartJob(id));
      && id in t.registry && t.registry[id] < |t.jobs| && t.jobs[t.registry[id]].id == id
      && !t.jobs[t.registry[id]].pc.Gone?
      && (id in w.registry ==> t == w)
      && (id !in w.registry ==>
            && t.jobs == w.jobs + [Job(id, Probing, false, false)] && t.registry[id] == |w.jobs| && Known(t, id)
            && t.cache == w.cache && t.requests == w.requests
            && forall i :: i in w.registry ==> i in t.registry && t.registry[i] == w.registry[i])
  {
    OccurringOk(w);
  }

  // -------------------------------------------------------- the flags of a request are its history

  /** A job of that id turns to its end with an error. */
  predicate Fails(w: World, e: Event, id: Id) {
    match e
    case Probed(j, err) => err && j < |w.jobs| && w.jobs[j].id == id
    case Worked(j, ok) => !ok && j < |w.jobs| && w.jobs[j].id == id
    case Filed(j, renamed, _) => !renamed && j < |w.jobs| && w.jobs[j].id == id
    case _ => false
  }

  predicate Evicts(e: Event, id: Id) { e.Filed? && e.renamed && id in e.evicted }

  ghost predicate FailsAt(es: seq<Event>, k: nat, id: Id)
    requires k < |es|
  {
    Run(EMPTY, es[..k]).Some? && Fails(Run(EMPTY, es[..k]).value, es[k], id)
  }

  ghost predicate FailedSince(es: seq<Event>, a: nat, id: Id) {
    exists k :: a < k < |es| && FailsAt(es, k, id)
  }

  ghost predicate EvictedSince(es: seq<Event>, a: nat, id: Id) {
    exists k :: a < k < |es| && Evicts(es[k], id)
  }

  /** The a-th event is the arrival of the q-th request, for id. */
  ghost predicate Arrived(es: seq<Event>, a: nat, q: nat, id: Id) {
    a < |es| && es[a] == Arrive(id) && Run(EMPTY, es[..a]).Some? && |Run(EMPTY, es[..a]).value.requests| == q
  }

  lemma FlagsStep(w: World, e: Event, q: nat)
    requires Enabled(w, e) && q < |w.requests|
    ensures var t := Next(w, e);
      && |w.requests| <= |t.requests|
      && var r, r' := w.requests[q], t.requests[q];
         && r'.id == r.id && r'.known == r.known
         && (r'.failed <==> r.failed || Fails(w, e, r.id))
         && (r'.evicted <==> r.evicted || Evicts(e, r.id))
  {
  }

  lemma SinceMore(es: seq<Event>, e: Event, a: nat, id: Id)
    requires a < |es| && Run(EMPTY, es).Some?
    ensures FailedSince(es + [e], a, id) <==> FailedSince(es, a, id) || Fails(Run(EMPTY, es).value, e, id)
    ensures EvictedSince(es + [e], a, id) <==> EvictedSince(es, a, id) || Evicts(e, id)
  {
    hide Fails, Run;
    var all, n := es + [e], |es|;
    assert all[..n] == es && all[n] == e;
    forall k | 0 <= k < n ensures all[..k] == es[..k] && all[k] == es[k] {}
    assert FailsAt(all, n, id) <==> Fails(Run(EMPTY, es).value, e, id);
    assert forall k :: 0 <= k < n ==> (FailsAt(all, k, id) <==> FailsAt(es, k, id));
  }

  /** The flags of a request say what was the case when it came, and what has happened since. */
  lemma {:induction false} History(es: seq<Event>, q: nat) returns (a: nat)
    requires Run(EMPTY, es).Some? && q < |Run(EMPTY, es).value.requests|
    ensures var r := Run(EMPTY, es).value.requests[q];
      && Arrived(es, a, q, r.id)
      && (r.known <==> Known(Run(EMPTY, es[..a]).value, r.id))
      && (r.failed <==> FailedSince(es, a, r.id))
      && (r.evicted <==> EvictedSince(es, a, r.id))
  {
    hide Enabled, Next, Fails, Evicts, Known, FailedSince, EvictedSince;
    if es == [] {
      assert false;
    } else {
      var n := |es| - 1;
      var w := Run(EMPTY, es[..n]).value;
      assert es == es[..n] + [es[n]];
      if q < |w.requests| {
        a := History(es[..n], q);
        FlagsStep(w, es[n], q);
        SinceMore(es[..n], es[n], a, w.requests[q].id);
        assert es[..n][..a] == es[..a];
      } else {
        a := n;
        Newcomer(w, es[n], q);
        assert !FailedSince(es, a, es[n].id) && !EvictedSince(es, a, es[n].id) by { NothingSince(es, es[n].id); }
      }
    }
  }

  lemma Newcomer(w: World, e: Event, q: nat)
    requires Enabled(w, e) && |w.requests| <= q < |Next(w, e).requests|
    ensures e.Arrive? && q == |w.requests|
    ensures Next(w, e).requests[q] == Request(e.id, FirstHas, Known(w, e.id), false, false)
  {
  }

  lemma NothingSince(es: seq<Event>, id: Id)
    requires es != []
    ensures !FailedSince(es, |es| - 1, id) && !EvictedSince(es, |es| - 1, id)
  {
  }

  // -------------------------------------------------------- the cache, and how jobs end, are history too

  /** The k-th event files a job of id, and does not evict it at once. */
  ghost predicate FiledAt(es: seq<Event>, k: nat, id: Id)
    requires k < |es|
  {
    && Run(EMPTY, es[..k]).Some? && Files(Run(EMPTY, es[..k]).value, es[k], id) && !Evicts(es[k], id)
  }

  predicate Files(w: World, e: Event, id: Id) {
    e.Filed? && e.renamed && e.j < |w.jobs| && w.jobs[e.j].id == id
  }

  ghost predicate FiledAndKept(es: seq<Event>, id: Id) {
    exists k :: 0 <= k < |es| && FiledAt(es, k, id) && forall m :: k < m < |es| ==> !Evicts(es[m], id)
  }

  lemma CacheStep(w: World, e: Event, id: Id)
    requires Enabled(w, e)
    ensures id in Next(w, e).cache <==> (id in w.cache || Files(w, e, id)) && !Evicts(e, id)
  {
  }

  lemma FiledMore(es: seq<Event>, e: Event, id: Id)
    requires Run(EMPTY, es).Some?
    ensures FiledAndKept(es + [e], id) <==>
      (FiledAndKept(es, id) || Files(Run(EMPTY, es).value, e, id)) && !Evicts(e, id)
  {
    hide Files, Evicts, Run;
    var all, n := es + [e], |es|;
    assert all[..n] == es && all[n] == e;
    forall k | 0 <= k < n ensures all[k] == es[k] && (FiledAt(all, k, id) <==> FiledAt(es, k, id)) {
      assert all[..k] == es[..k];
    }
    assert FiledAt(all, n, id) <==> Files(Run(EMPTY, es).value, e, id) && !Evicts(e, id);
    if FiledAndKept(es, id) && !Evicts(e, id) {
      var k :| 0 <= k < |es| && FiledAt(es, k, id) && forall m :: k < m < |es| ==> !Evicts(es[m], id);
      assert FiledAt(all, k, id);
    }
    if FiledAndKept(all, id) {
      var k :| 0 <= k < |all| && FiledAt(all, k, id) && forall m :: k < m < |all| ==> !Evicts(all[m], id);
      if k < n {
        assert FiledAt(es, k, id);
        assert forall m :: k < m < |es| ==> es[m] == all[m];
      }
    }
  }

  /** An id is in the cache if and only if a job of it was filed, whose rename worked, and it has not
      been evicted since. */
  lemma {:induction false} CachedIffFiled(es: seq<Event>, id: Id)
    requires Run(EMPTY, es).Some?
    ensures id in Run(EMPTY, es).value.cache <==> FiledAndKept(es, id)
  {
    if es != [] {
      hide Enabled, Next, Files, Evicts, FiledAndKept;
      var n := |es| - 1;
      CachedIffFiled(es[..n], id);
      CacheStep(Run(EMPTY, es[..n]).value, es[n], id);
      assert es == es[..n] + [es[n]];
      FiledMore(es[..n], es[n], id);
    }
  }

  /** How far a job's end has come, and whether it ends well. */
  function Outcome(pc: JobPc): Option<bool> {
    match pc
    case Ending(ok) => Some(ok)
    case Deleting(ok) => Some(ok)
    case Gone(ok) => Some(ok)
    case _ => None
  }

  ghost predicate FiledWell(es: seq<Event>, j: nat) { exists ev :: Filed(j, true, ev) in es }

  /** A job ends well if and only if it was filed and its rename worked. */
  lemma {:induction false} EndsWellIffFiled(es: seq<Event>, j: nat)
    requires Run(EMPTY, es).Some? && j < |Run(EMPTY, es).value.jobs|
    ensures FiledWell(es, j) <==> Outcome(Run(EMPTY, es).value.jobs[j].pc) == Some(true)
  {
    hide Enabled, Next;
    if es == [] {
      assert false;
    } else {
      var n := |es| - 1;
      var w := Run(EMPTY, es[..n]).value;
      assert es == es[..n] + [es[n]];
      assert forall e :: e in es <==> e in es[..n] || e == es[n];
      if j < |w.jobs| {
        EndsWellIffFiled(es[..n], j);
      } else {
        NotFiledYet(es[..n], j);
      }
      OutcomeStep(w, es[n], j);
    }
  }

  lemma {:induction false} NotFiledYet(es: seq<Event>, j: nat)
    requires Run(EMPTY, es).Some? && |Run(EMPTY, es).value.jobs| <= j
    ensures !FiledWell(es, j)
  {
    if es != [] {
      hide Enabled, Next;
      var n := |es| - 1;
      var w := Run(EMPTY, es[..n]).value;
      OutcomeStep(w, es[n], j);
      NotFiledYet(es[..n], j);
      assert forall e :: e in es <==> e in es[..n] || e == es[n];
    }
  }

  lemma OutcomeStep(w: World, e: Event, j: nat)
    requires Enabled(w, e)
    ensures var t := Next(w, e);
      && |w.jobs| <= |t.jobs|
      && (e.Filed? && e.j == j ==> j < |w.jobs| && Outcome(w.jobs[j].pc) == None)
      && (j < |w.jobs| ==>
            Outcome(t.jobs[j].pc) == if e.Filed? && e.j == j then Some(e.renamed)
                                     else if (e == Probed(j, true) || e == Worked(j, false)) then Some(false)
                                     else Outcome(w.jobs[j].pc))
      && (|w.jobs| <= j < |t.jobs| ==> Outcome(t.jobs[j].pc) == None)
      && (e == Probed(j, true) || e == Worked(j, false) ==> j < |w.jobs| && Outcome(w.jobs[j].pc) == None)
  {
  }

  /** Under any interleaving, a request answered 404 was for an id that was neither downloading nor
      cached when it came, or a download of which failed, or which was evicted, after it came. */
  lemma NotFoundExplained(es: seq<Event>, q: nat) returns (a: nat)
    requires Run(EMPTY, es).Some? && q < |Run(EMPTY, es).value.requests|
    requires Run(EMPTY, es).value.requests[q].pc == Replied(NotFound)
    ensures var id := Run(EMPTY, es).value.requests[q].id;
      && Arrived(es, a, q, id)
      && (!Known(Run(EMPTY, es[..a]).value, id) || FailedSince(es, a, id) || EvictedSince(es, a, id))
  {
    a := History(es, q);
    RunKeeps(es);
    assert RequestOk(Run(EMPTY, es).value, Run(EMPTY, es).value.requests[q]);
  }

  // -------------------------------------------------------- what a request is answered

  /** After some of the events id is in the cache. */
  ghost predicate WasCached(w: World, es: seq<Event>, id: Id) {
    exists k :: 0 <= k <= |es| && CachedAt(w, es, k, id)
  }

  ghost predicate CachedAt(w: World, es: seq<Event>, k: nat, id: Id)
    requires k <= |es|
  {
    Run(w, es[..k]).Some? && id in Run(w, es[..k]).value.cache
  }

  /** The request opened the file while it was in the cache. */
  ghost predicate Served(w: World, es: seq<Event>, q: nat, id: Id) {
    exists k :: 0 <= k < |es| && es[k] == Open(q) && CachedAt(w, es, k, id)
  }

  lemma WasCachedMore(w: World, es: seq<Event>, e: Event, q: nat, id: Id)
    requires Run(w, es).Some?
    ensures WasCached(w, es, id) ==> WasCached(w, es + [e], id)
    ensures Served(w, es, q, id) ==> Served(w, es + [e], q, id)
    ensures id in Run(w, es).value.cache ==> WasCached(w, es + [e], id)
    ensures id in Run(w, es).value.cache && e == Open(q) ==> Served(w, es + [e], q, id)
  {
    var all, n := es + [e], |es|;
    assert all[..n] == es;
    forall k | 0 <= k <= n ensures CachedAt(w, es, k, id) ==> CachedAt(w, all, k, id) {
      assert all[..k] == es[..k];
    }
    assert id in Run(w, es).value.cache ==> CachedAt(w, all, n, id);
  }

  /** Where a request can be that was waiting for job j when the events began. */
  ghost predicate Onward(w: World, es: seq<Event>, q: nat, j: nat, t: World) {
    q < |t.requests| && j < |t.jobs| &&
    var r := t.requests[q];
    match r.pc
    case Await(i) => i == j
    case ProbeFailedHas(i) => i == j && t.jobs[j].ready && t.jobs[j].probeErr
    case ThirdHas(i) => i == j && t.jobs[j].ready && !t.jobs[j].probeErr
    case Opening => WasCached(w, es, r.id)
    case Replied(Cached) => Served(w, es, q, r.id)
    case Replied(NotFound) => WasCached(w, es, r.id)
    case Replied(ClientGone) => Leave(q) in es
    case Replied(BadGateway) => t.jobs[j].ready && t.jobs[j].probeErr
    case Replied(Routed(i)) => i == j && t.jobs[j].ready && !t.jobs[j].probeErr
    case _ => false
  }

  /** A job that has been probed stays so; the probe's outcome does not change. */
  lemma ProbedOnce(w: World, e: Event, j: nat)
    requires RegistryOk(w) && Enabled(w, e) && j < |w.jobs|
    ensures var t := Next(w, e);
      j < |t.jobs| && t.jobs[j].id == w.jobs[j].id
      && (w.jobs[j].ready ==> t.jobs[j].ready && t.jobs[j].probeErr == w.jobs[j].probeErr)
  {
  }

  predicate OwnEvent(e: Event, q: nat) {
    e == Has(q) || e == Open(q) || e == GetJob(q) || e == Ready(q) || e == Leave(q)
  }

  lemma OthersLeave(s: World, e: Event, q: nat)
    requires Enabled(s, e) && q < |s.requests| && !OwnEvent(e, q)
    ensures q < |Next(s, e).requests| && Next(s, e).requests[q].pc == s.requests[q].pc
    ensures Next(s, e).requests[q].id == s.requests[q].id
  {
  }

  lemma OwnLeave(s: World, e: Event, q: nat)
    requires Enabled(s, e) && q < |s.requests| && OwnEvent(e, q)
    ensures var t := Next(s, e);
      && q < |t.requests| && t.requests[q].id == s.requests[q].id && t.jobs == s.jobs
      && var id, pc, pc' := s.requests[q].id, s.requests[q].pc, t.requests[q].pc;
         match e
         case Has(_) => pc' == (if id in s.cache then Opening else AfterMiss(pc)) &&
             (pc.FirstHas? || pc.SecondHas? || pc.ProbeFailedHas? || pc.ThirdHas?)
         case Open(_) => pc == Opening && pc' == Replied(if id in s.cache then Cached else NotFound)
         case GetJob(_) => pc == Lookup
         case Ready(_) => pc.Await? && pc.j < |s.jobs| && s.jobs[pc.j].ready &&
             pc' == (if s.jobs[pc.j].probeErr then ProbeFailedHas(pc.j) else ThirdHas(pc.j))
         case _ => pc' == Replied(ClientGone)
  {
  }

  lemma OnwardStep(w: World, es: seq<Event>, e: Event, q: nat, j: nat, s: World)
    requires Run(w, es) == Some(s) && RegistryOk(s) && Onward(w, es, q, j, s) && Enabled(s, e)
    ensures Onward(w, es + [e], q, j, Next(s, e))
    ensures Next(s, e).requests[q].id == s.requests[q].id
  {
    hide Run, WasCached, Served, RegistryOk, Enabled, Next;
    ProbedOnce(s, e, j);
    WasCachedMore(w, es, e, q, s.requests[q].id);
    assert forall x :: x in es + [e] <==> x in es || x == e;
    if OwnEvent(e, q) { OwnLeave(s, e, q); } else { OthersLeave(s, e, q); }
  }

  lemma {:induction false} OnwardRun(w: World, es: seq<Event>, q: nat, j: nat)
    requires Ok(w) && q < |w.requests| && w.requests[q].pc == Await(j) && Run(w, es).Some?
    ensures Ok(Run(w, es).value) && Onward(w, es, q, j, Run(w, es).value)
    ensures Run(w, es).value.requests[q].id == w.requests[q].id
  {
    if es == [] {
      assert RequestOk(w, w.requests[q]);
    } else {
      hide Ok, Onward, Enabled, Next, RequestOk;
      var n := |es| - 1;
      OnwardRun(w, es[..n], q, j);
      var s := Run(w, es[..n]).value;
      EventKeeps(s, es[n]);
      assert es == es[..n] + [es[n]];
      assert RegistryOk(s) by { OkHasRegistry(s); }
      OnwardStep(w, es[..n], es[n], q, j, s);
      assert q < |s.requests| && q < |Next(s, es[n]).requests| by {
        OnwardShape(w, es[..n], q, j, s);
        OnwardShape(w, es, q, j, Next(s, es[n]));
      }
    }
  }

  lemma OkHasRegistry(w: World)
    requires Ok(w)
    ensures RegistryOk(w)
  {
  }

  lemma OnwardShape(w: World, es: seq<Event>, q: nat, j: nat, t: World)
    requires Onward(w, es, q, j, t)
    ensures q < |t.requests|
  {
  }

  /** A request that found a job and does not go away is routed to that job if its probe succeeds and
      answered 502 if it fails, unless the id has come to be in the cache meanwhile; from the cache it
      is served only if its file was there when it opened it. */
  lemma AnswerAfterJob(w: World, es: seq<Event>, q: nat, j: nat)
    requires Occurs(w) && q < |w.requests| && w.requests[q].pc == Await(j) && Run(w, es).Some?
    ensures var t := Run(w, es).value;
      && q < |t.requests| && j < |t.jobs|
      && (t.requests[q].pc.Replied? ==>
            var reply := t.requests[q].pc.reply;
            && (Leave(q) !in es && !WasCached(w, es, w.requests[q].id) ==>
                  t.jobs[j].ready && reply == if t.jobs[j].probeErr then BadGateway else Routed(j))
            && (reply == Cached ==> Served(w, es, q, w.requests[q].id)))
  {
    OccurringOk(w);
    OnwardRun(w, es, q, j);
  }

  /** Along the events id is neither registered nor cached. */
  ghost predicate Unheard(w: World, es: seq<Event>, id: Id) {
    forall k :: 0 <= k <= |es| && Run(w, es[..k]).Some? ==>
      id !in Run(w, es[..k]).value.registry && id !in Run(w, es[..k]).value.cache
  }

  /** A request for an id that nobody downloads and that is not cached is answered 404. */
  lemma {:induction false} UnheardIs404(w: World, es: seq<Event>, q: nat)
    requires q < |w.requests| && w.requests[q].pc == FirstHas && Run(w, es).Some?
    requires Unheard(w, es, w.requests[q].id)
    ensures var t := Run(w, es).value;
      && q < |t.requests| && t.requests[q].id == w.requests[q].id
      && var pc := t.requests[q].pc; pc == FirstHas || pc == Lookup || pc == SecondHas || pc == Replied(NotFound)
  {
    if es != [] {
      hide Enabled, Next;
      var n := |es| - 1;
      forall k | 0 <= k <= n ensures es[..n][..k] == es[..k] {}
      UnheardIs404(w, es[..n], q);
      UnheardStep(Run(w, es[..n]).value, es[n], q);
    }
  }

  lemma UnheardStep(w: World, e: Event, q: nat)
    requires Enabled(w, e) && q < |w.requests|
    requires w.requests[q].id !in w.registry && w.requests[q].id !in w.cache
    requires var pc := w.requests[q].pc; pc == FirstHas || pc == Lookup || pc == SecondHas || pc == Replied(NotFound)
    ensures var t := Next(w, e);
      && q < |t.requests| && t.requests[q].id == w.requests[q].id
      && var pc := t.requests[q].pc; pc == FirstHas || pc == Lookup || pc == SecondHas || pc == Replied(NotFound)
  {
  }

  /** A request answered 502 met a job of its own id whose probe failed; one routed to a job met one
      of its own id whose probe had succeeded. */
  lemma RepliesMatchProbe(w: World, q: nat)
    requires Occurs(w) && q < |w.requests|
    ensures var r := w.requests[q];
      && (r.pc == Replied(BadGateway) ==> exists j :: 0 <= j < |w.jobs| && w.jobs[j].id == r.id && w.jobs[j].probeErr)
      && (r.pc.Replied? && r.pc.reply.Routed? ==>
            r.pc.reply.j < |w.jobs| && w.jobs[r.pc.reply.j].id == r.id
            && w.jobs[r.pc.reply.j].ready && !w.jobs[r.pc.reply.j].probeErr)
  {
    OccurringOk(w);
    assert RequestOk(w, w.requests[q]);
  }
}
