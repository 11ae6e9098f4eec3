/** What the drain protocol guarantees over whole runs. */
module IngestRuns {
  import opened Ordering
  import opened IngestQueue

  // ----------------------------------------------------------------- runs

  const EMPTY: State := State(map[], map[], map[], {}, 0)

  /** The events, each enabled in turn, lead from one state to the other. */
  ghost predicate Leads(st: State, evs: seq<Event>, st': State)
    decreases evs
  {
    if evs == [] then st == st' else Enabled(st, evs[0]) && Leads(Apply(st, evs[0]), evs[1..], st')
  }

  lemma {:induction false} RunStaysSafe(st: State, evs: seq<Event>, st': State)
    requires Safe(st) && Leads(st, evs, st')
    ensures Safe(st')
    decreases evs
  {
    if evs != [] {
      StepStaysSafe(st, evs[0]);
      RunStaysSafe(Apply(st, evs[0]), evs[1..], st');
    }
  }

  /** At-least-once safety.  In every interleaving of any drainers with crashes,
      lease takeover, reclaim, batch failure and per-job fallback, a job marked
      done decodes and either has empty text or has itself been ingested, by the
      call of its own stream. */
  lemma DoneMeansIngested(evs: seq<Event>, st: State, id: JobId)
    requires Leads(EMPTY, evs, st) && id in st.jobs && st.jobs[id].status == Done
    ensures st.jobs[id].payload.Decoded?
    ensures st.jobs[id].payload.text == [] || (st.jobs[id].stream, id) in st.ingested
  {
    RunStaysSafe(EMPTY, evs, st);
    assert SafeJob(id, st.jobs[id], st.ingested, st.nextSession);
  }

  /** Conservation over runs: a job is never lost or altered, and a terminal status
      is never left. */
  lemma {:induction false} JobsAreConserved(st: State, evs: seq<Event>, st': State, id: JobId)
    requires Leads(st, evs, st') && id in st.jobs
    ensures id in st'.jobs && st'.jobs[id].stream == st.jobs[id].stream && st'.jobs[id].payload == st.jobs[id].payload
    ensures st.jobs[id].status == Done || st.jobs[id].status == Blocked ==> st'.jobs[id] == st.jobs[id]
    decreases evs
  {
    if evs != [] {
      StepEvolves(st, evs[0]);
      JobsAreConserved(Apply(st, evs[0]), evs[1..], st', id);
    }
  }

  /** Stream isolation: a step of a drainer changes no job of the other stream. */
  lemma StreamsAreIsolated(evs: seq<Event>, st: State, ev: Event, id: JobId)
    requires Leads(EMPTY, evs, st) && Enabled(st, ev) && ByDrainer(ev)
    requires id in st.jobs && st.jobs[id].stream != st.drainers[ev.d].stream
    ensures id in Apply(st, ev).jobs && Apply(st, ev).jobs[id] == st.jobs[id]
  {
    RunStaysSafe(EMPTY, evs, st);
    var mine := st.drainers[ev.d];
    assert SafeDrainer(st.jobs, st.ingested, st.nextSession, mine);
    assert !Claims(mine.phase, id);
    TableOf(st, ev);
    match ev
    case Scan(_) => assert Claims(mine.phase, mine.phase.rest[0]);
    case RetireSession(_, _) => assert !Under(st.jobs, mine.phase.session, id);
    case _ =>
  }

  /** A pass that comes to its end leaves no row "cur" under its session. */
  lemma FinishedPassHoldsNothing(evs: seq<Event>, st: State, ev: Event, id: JobId)
    requires Leads(EMPTY, evs, st) && Enabled(st, ev) && ByDrainer(ev) && ev.d in Apply(st, ev).drainers
    requires SessionOf(st.drainers[ev.d].phase).Some? && SessionOf(Apply(st, ev).drainers[ev.d].phase).None?
    ensures !Under(Apply(st, ev).jobs, SessionOf(st.drainers[ev.d].phase).value, id)
  {
    RunStaysSafe(EMPTY, evs, st);
    StepStaysSafe(st, ev);
    TableOf(st, ev);
    FinishedHoldsNothing(st, ev, id);
  }

  lemma FinishedHoldsNothing(st: State, ev: Event, id: JobId)
    requires Enabled(st, ev) && ByDrainer(ev) && ev.d in Apply(st, ev).drainers
    requires SafeDrainer(st.jobs, st.ingested, st.nextSession, st.drainers[ev.d])
    requires SessionOf(st.drainers[ev.d].phase).Some? && SessionOf(Apply(st, ev).drainers[ev.d].phase).None?
    ensures !Under(Table(st, ev), SessionOf(st.drainers[ev.d].phase).value, id)
  {
    var p := st.drainers[ev.d].phase;
    assert Under(st.jobs, p.session, id) ==> Claims(p, id);
    match ev
    case EndScan(_) =>
    case RetireSession(_, _) =>
    case RetireEach(_) =>
    case AttemptFail(_) => LastReply(st.jobs, p.session, p.items, id, Blocked);
    case ReplyDone(_) => LastReply(st.jobs, p.session, p.items, id, Done);
    case _ =>
  }

  lemma LastReply(jobs: Jobs, session: nat, items: seq<JobId>, id: JobId, status: Status)
    requires status != Cur && items != [] && (Under(jobs, session, id) ==> id in items)
    ensures |items| == 1 ==> !Under(ReplyJob(jobs, items[0], status), session, id)
  {
  }

  // -------------------------------------------------------------- takeover

  /** Acquiring the lease, and the reclaim where the drainer makes one. */
  ghost function TakenOver(st: State, d: DrainerId): State
    requires Enabled(st, Acquire(d))
  {
    var acquired := Apply(st, Acquire(d));
    if Enabled(acquired, Reclaim(d)) then Apply(acquired, Reclaim(d)) else acquired
  }

  /** A takeover returns the "cur" jobs of its stream to "new" exactly when the
      drainer has not reclaimed before: a standby that once held the lease leaves
      the rows of a crashed successor where they are.  No other job changes. */
  lemma TakeoverReclaimsExactlyWhenNew(st: State, d: DrainerId, id: JobId)
    requires d in st.drainers && Enabled(st, Acquire(d)) && id in st.jobs
    ensures var orphan := st.jobs[id].stream == st.drainers[d].stream && st.jobs[id].status == Cur;
      && (orphan ==> (Available(TakenOver(st, d).jobs, st.drainers[d].stream, id) <==> !st.drainers[d].reclaimed))
      && (!orphan || st.drainers[d].reclaimed ==> TakenOver(st, d).jobs[id] == st.jobs[id])
  {
  }

  /** Until it has reclaimed, a drainer cannot claim. */
  lemma NoClaimBeforeReclaim(st: State, d: DrainerId, batch: seq<JobId>)
    requires d in st.drainers && Enabled(st, Acquire(d)) && !st.drainers[d].reclaimed
    ensures Enabled(Apply(st, Acquire(d)), Reclaim(d)) && !Enabled(Apply(st, Acquire(d)), Claim(d, batch))
  {
  }

  ghost predicate ReclaimOnce(st: State) {
    forall d :: d in st.drainers && st.drainers[d].phase.Mounting? ==> !st.drainers[d].reclaimed
  }

  lemma {:induction false} DrainersReclaimOnce(st: State, evs: seq<Event>, st': State)
    requires ReclaimOnce(st) && Leads(st, evs, st')
    ensures ReclaimOnce(st')
    decreases evs
  {
    if evs != [] {
      forall d | d in Apply(st, evs[0]).drainers && Apply(st, evs[0]).drainers[d].phase.Mounting?
        ensures !Apply(st, evs[0]).drainers[d].reclaimed
      {
        if !(ByDrainer(evs[0]) && evs[0].d == d) { OthersUnmoved(st, evs[0], d); }
      }
      DrainersReclaimOnce(Apply(st, evs[0]), evs[1..], st');
    }
  }

  /** A row left "cur" by a drainer that is gone. */
  ghost predicate Orphan(st: State, id: JobId) {
    id in st.jobs && st.jobs[id].status == Cur && forall d :: d in st.drainers ==> !Claims(st.drainers[d].phase, id)
  }

  /** Some drainer of the stream reclaims during the run. */
  ghost predicate Reclaims(st: State, evs: seq<Event>, stream: Stream)
    decreases evs
  {
    evs != [] && Enabled(st, evs[0]) &&
    ((evs[0].Reclaim? && st.drainers[evs[0].d].stream == stream) || Reclaims(Apply(st, evs[0]), evs[1..], stream))
  }

  /** Nothing but a reclaim of its stream touches an orphan. */
  lemma OrphanStays(st: State, ev: Event, id: JobId)
    requires Safe(st) && Enabled(st, ev) && Orphan(st, id)
    requires !(ev.Reclaim? && st.drainers[ev.d].stream == st.jobs[id].stream)
    ensures Orphan(Apply(st, ev), id) && Apply(st, ev).jobs[id] == st.jobs[id]
  {
    OrphanRowStays(st, ev, id);
    forall d | d in Apply(st, ev).drainers ensures !Claims(Apply(st, ev).drainers[d].phase, id) {
      if ByDrainer(ev) && ev.d == d { MoverLeavesOrphan(st, ev, id); } else { OthersUnmoved(st, ev, d); }
    }
  }

  lemma OrphanRowStays(st: State, ev: Event, id: JobId)
    requires Safe(st) && Enabled(st, ev) && Orphan(st, id)
    requires !(ev.Reclaim? && st.drainers[ev.d].stream == st.jobs[id].stream)
    ensures id in Apply(st, ev).jobs && Apply(st, ev).jobs[id] == st.jobs[id]
  {
    TableOf(st, ev);
    if ByDrainer(ev) {
      var mine := st.drainers[ev.d];
      assert SafeDrainer(st.jobs, st.ingested, st.nextSession, mine);
      assert !Claims(mine.phase, id);
      match ev
      case Scan(_) => assert Claims(mine.phase, mine.phase.rest[0]);
      case RetireSession(_, _) => assert !Under(st.jobs, mine.phase.session, id);
      case _ =>
    }
  }

  lemma MoverLeavesOrphan(st: State, ev: Event, id: JobId)
    requires Enabled(st, ev) && Orphan(st, id) && ByDrainer(ev) && ev.d in Apply(st, ev).drainers
    ensures !Claims(Apply(st, ev).drainers[ev.d].phase, id)
  {
    var p := st.drainers[ev.d].phase;
    assert !Claims(p, id);
    match ev
    case Claim(d, batch) => assert id in batch <==> Available(st.jobs, st.drainers[d].stream, id);
    case Scan(_) => FirstAndRest(p.rest);
    case AttemptFail(_) => FirstAndRest(p.items);
    case ReplyDone(_) => FirstAndRest(p.items);
    case _ =>
  }

  /** A row that has changed never comes back under its old session. */
  lemma {:induction false} NeverBack(st: State, evs: seq<Event>, st': State, id: JobId, was: Job)
    requires Leads(st, evs, st') && id in st.jobs && st.jobs[id] != was && was.status == Cur && was.session < st.nextSession
    ensures id in st'.jobs && st'.jobs[id] != was
    decreases evs
  {
    if evs != [] {
      StepEvolves(st, evs[0]);
      NeverBack(Apply(st, evs[0]), evs[1..], st', id, was);
    }
  }

  /** An orphan keeps its row through a run exactly when no drainer of its stream
      reclaims in it. */
  lemma {:induction false} OrphanWaitsForReclaim(st: State, evs: seq<Event>, st': State, id: JobId)
    requires Safe(st) && Leads(st, evs, st') && Orphan(st, id)
    ensures id in st'.jobs
    ensures st'.jobs[id] == st.jobs[id] <==> !Reclaims(st, evs, st.jobs[id].stream)
    decreases evs
  {
    if evs != [] {
      var next := Apply(st, evs[0]);
      StepStaysSafe(st, evs[0]);
      assert Leads(next, evs[1..], st');
      if evs[0].Reclaim? && st.drainers[evs[0].d].stream == st.jobs[id].stream {
        assert SafeJob(id, st.jobs[id], st.ingested, st.nextSession);
        NeverBack(next, evs[1..], st', id, st.jobs[id]);
      } else {
        OrphanStays(st, evs[0], id);
        OrphanWaitsForReclaim(next, evs[1..], st', id);
      }
    }
  }

  // ------------------------------------------------------------- recovery

  lemma {:induction false} LeadsFurther(a: State, evs: seq<Event>, b: State, more: seq<Event>, c: State)
    requires Leads(a, evs, b) && Leads(b, more, c)
    ensures Leads(a, evs + more, c)
    decreases evs
  {
    if evs == [] {
      assert evs + more == more;
    } else {
      assert (evs + more)[0] == evs[0] && (evs + more)[1..] == evs[1..] + more;
      LeadsFurther(Apply(a, evs[0]), evs[1..], b, more, c);
    }
  }

  lemma OneStep(st: State, ev: Event)
    requires Enabled(st, ev)
    ensures Leads(st, [ev], Apply(st, ev))
  {
    assert [ev][1..] == [];
    assert Leads(Apply(st, ev), [], Apply(st, ev));
  }

  predicate Terminal(job: Job) {
    job.status == Done || job.status == Blocked
  }

  /** The job came to its end: one that had not ended at first was blocked if it
      does not decode, and done if it does. */
  predicate Settled(was: Jobs, id: JobId, job: Job) {
    && Terminal(job)
    && (id in was && !Terminal(was[id]) ==> job.status == if job.payload.Undecodable? then Blocked else Done)
  }

  /** All jobs of the stream. */
  ghost predicate AllSettled(was: Jobs, jobs: Jobs, stream: Stream) {
    forall id :: id in jobs && jobs[id].stream == stream ==> Settled(was, id, jobs[id])
  }

  /** The claimed jobs still to look at, and those collected, are "cur" under the
      drainer's session; every other job of the stream is settled. */
  ghost predicate Alone(was: Jobs, jobs: Jobs, stream: Stream, session: nat, rest: seq<JobId>, items: seq<JobId>) {
    && (forall id :: id in rest || id in items ==> Under(jobs, session, id))
    && (forall id :: id in jobs && jobs[id].stream == stream && id !in rest && id !in items ==> Settled(was, id, jobs[id]))
  }

  ghost predicate ScansAlone(was: Jobs, st: State, d: DrainerId) {
    && d in st.drainers && st.drainers[d].phase.Scanning?
    && var p := st.drainers[d].phase;
      NoDuplicates(p.rest) && (forall id :: id in p.rest ==> id !in p.items)
      && Alone(was, st.jobs, st.drainers[d].stream, p.session, p.rest, p.items)
  }

  /** The scan of a drainer that is left alone. */
  lemma {:induction false} ScanAll(was: Jobs, st: State, d: DrainerId) returns (evs: seq<Event>, st': State)
    requires Safe(st) && ScansAlone(was, st, d)
    ensures Leads(st, evs, st') && Safe(st') && ScansAlone(was, st', d) && st'.drainers[d].phase.rest == []
    ensures st'.drainers[d].stream == st.drainers[d].stream
    decreases |st.drainers[d].phase.rest|
  {
    var p := st.drainers[d].phase;
    if p.rest == [] { return [], st; }
    var next := Apply(st, Scan(d));
    StepStaysSafe(st, Scan(d));
    OneStep(st, Scan(d));
    ScanKeepsAlone(was, st, d);
    var more;
    more, st' := ScanAll(was, next, d);
    LeadsFurther(st, [Scan(d)], next, more, st');
    evs := [Scan(d)] + more;
  }

  lemma ScanKeepsAlone(was: Jobs, st: State, d: DrainerId)
    requires Safe(st) && ScansAlone(was, st, d) && st.drainers[d].phase.rest != []
    ensures ScansAlone(was, Apply(st, Scan(d)), d)
  {
    var p := st.drainers[d].phase;
    AloneNext(was, st.jobs, st.drainers[d].stream, p.session, p.rest, p.items);
    TableOf(st, Scan(d));
  }

  lemma AloneNext(was: Jobs, jobs: Jobs, stream: Stream, session: nat, rest: seq<JobId>, items: seq<JobId>)
    requires rest != [] && NoDuplicates(rest) && (forall id :: id in rest ==> id !in items)
    requires Alone(was, jobs, stream, session, rest, items)
    ensures rest[0] in jobs && NoDuplicates(rest[1..]) && forall id :: id in rest[1..] ==> id !in items && id != rest[0]
    ensures var collected := if Ingestable(jobs[rest[0]].payload) then items + [rest[0]] else items;
      Alone(was, ScanTable(jobs, rest[0]), stream, session, rest[1..], collected)
  {
    FirstAndRest(rest);
    assert rest[0] !in rest[1..];
    assert Under(jobs, session, rest[0]);
  }

  /** A whole pass of a drainer that is left alone: everything is settled. */
  lemma PassAlone(was: Jobs, st: State, d: DrainerId, batch: seq<JobId>) returns (evs: seq<Event>, st': State)
    requires Safe(st) && d in st.drainers && Enabled(st, Claim(d, batch))
    requires forall id :: id in st.jobs && st.jobs[id].stream == st.drainers[d].stream ==> st.jobs[id].status == New || Settled(was, id, st.jobs[id])
    ensures Leads(st, evs, st') && AllSettled(was, st'.jobs, st.drainers[d].stream)
  {
    var claimed := Apply(st, Claim(d, batch));
    OneStep(st, Claim(d, batch));
    StepStaysSafe(st, Claim(d, batch));
    assert ScansAlone(was, claimed, d);
    var scans, scanned := ScanAll(was, claimed, d);
    LeadsFurther(st, [Claim(d, batch)], claimed, scans, scanned);
    var tail;
    tail, st' := FinishAlone(was, scanned, d);
    LeadsFurther(st, [Claim(d, batch)] + scans, scanned, tail, st');
    evs := [Claim(d, batch)] + scans + tail;
  }

  lemma FinishAlone(was: Jobs, st: State, d: DrainerId) returns (evs: seq<Event>, st': State)
    requires Safe(st) && ScansAlone(was, st, d) && st.drainers[d].phase.rest == []
    ensures Leads(st, evs, st') && AllSettled(was, st'.jobs, st.drainers[d].stream)
  {
    var p, a := st.drainers[d].phase, Apply(st, EndScan(d));
    OneStep(st, EndScan(d));
    if p.items == [] { return [EndScan(d)], a; }
    var tail;
    tail, st' := IngestAlone(a, d);
    LeadsFurther(st, [EndScan(d)], a, tail, st');
    evs := [EndScan(d)] + tail;
    assert SafeDrainer(st.jobs, st.ingested, st.nextSession, st.drainers[d]);
    RetiredAll(was, st.jobs, st.drainers[d].stream, p.session, p.items);
  }

  /** The batch succeeds and its session is retired at once. */
  lemma IngestAlone(st: State, d: DrainerId) returns (evs: seq<Event>, st': State)
    requires d in st.drainers && st.drainers[d].phase.Batching?
    ensures Leads(st, evs, st') && st'.jobs == ReplySession(st.jobs, st.drainers[d].phase.session, Done)
  {
    var a := Apply(st, BatchOk(d));
    OneStep(st, BatchOk(d));
    st' := Apply(a, RetireSession(d, true));
    OneStep(a, RetireSession(d, true));
    LeadsFurther(st, [BatchOk(d)], a, [RetireSession(d, true)], st');
    evs := [BatchOk(d)] + [RetireSession(d, true)];
  }

  lemma RetiredAll(was: Jobs, jobs: Jobs, stream: Stream, session: nat, items: seq<JobId>)
    requires Alone(was, jobs, stream, session, [], items) && AllIngestable(jobs, items)
    ensures AllSettled(was, ReplySession(jobs, session, Done), stream)
  {
    forall id | id in jobs && jobs[id].stream == stream ensures Settled(was, id, ReplySession(jobs, session, Done)[id]) {
      if id in items { assert Under(jobs, session, id); }
    }
  }

  lemma {:induction false} SomeFreshId(ids: set<nat>) returns (unused: nat)
    ensures forall x :: x in ids ==> x < unused
    decreases ids
  {
    unused := 0;
    if ids != {} {
      var x :| x in ids;
      var below := SomeFreshId(ids - {x});
      assert ids == ids - {x} + {x};
      unused := if x < below then below else x + 1;
    }
  }

  /** The jobs of a stream that can be claimed. */
  ghost function AvailableSet(jobs: Jobs, stream: Stream): set<JobId> {
    set id | id in jobs && Available(jobs, stream, id)
  }

  /** From every reachable state, wherever the drainers were when they stopped, a
      newly mounted one can bring every job of its stream to its end: done if it
      decodes, blocked only if it does not. */
  lemma EveryJobCanFinish(evs: seq<Event>, st: State, stream: Stream) returns (more: seq<Event>, st': State)
    requires Leads(EMPTY, evs, st)
    ensures Leads(st, more, st') && AllSettled(st.jobs, st'.jobs, stream)
  {
    RunStaysSafe(EMPTY, evs, st);
    var d, takeover, ready := TakeOver(st, stream);
    RunStaysSafe(st, takeover, ready);
    var batch := Enumerate(AvailableSet(ready.jobs, stream));
    ReclaimedOrSettled(st.jobs, stream);
    assert forall id :: id in batch <==> id in Elements(batch);
    assert forall id :: id in batch <==> Available(ready.jobs, stream, id);
    if batch == [] { return takeover, ready; }
    var pass;
    pass, st' := PassAlone(st.jobs, ready, d, batch);
    LeadsFurther(st, takeover, ready, pass, st');
    more := takeover + pass;
  }

  /** After a reclaim each job of the stream is new or had already ended. */
  lemma ReclaimedOrSettled(jobs: Jobs, stream: Stream)
    ensures var after := ReclaimStream(jobs, stream);
      forall id :: id in after && after[id].stream == stream ==> Available(after, stream, id) || Settled(jobs, id, after[id])
  {
  }

  /** The lease lapses, a new drainer mounts, acquires and reclaims. */
  lemma TakeOver(st: State, stream: Stream) returns (d: DrainerId, evs: seq<Event>, st': State)
    ensures Leads(st, evs, st') && d in st'.drainers && st'.drainers[d].phase.Ready? && st'.drainers[d].stream == stream
    ensures st'.jobs == ReclaimStream(st.jobs, stream)
  {
    d := SomeFreshId(st.drainers.Keys);
    var a := Apply(st, Expire(stream));
    OneStep(st, Expire(stream));
    var b := Apply(a, Mount(d, stream));
    OneStep(a, Mount(d, stream));
    var c := Apply(b, Acquire(d));
    OneStep(b, Acquire(d));
    st' := Apply(c, Reclaim(d));
    OneStep(c, Reclaim(d));
    LeadsFurther(st, [Expire(stream)], a, [Mount(d, stream)], b);
    LeadsFurther(st, [Expire(stream)] + [Mount(d, stream)], b, [Acquire(d)], c);
    LeadsFurther(st, [Expire(stream)] + [Mount(d, stream)] + [Acquire(d)], c, [Reclaim(d)], st');
    evs := [Expire(stream)] + [Mount(d, stream)] + [Acquire(d)] + [Reclaim(d)];
  }
}
