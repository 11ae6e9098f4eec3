/** The drain pass as the loop a drainer runs, other drainers and crashes acting
    between any two of its steps. */
module IngestDrain {
  import opened Options
  import opened Ordering
  import opened IngestQueue
  import opened IngestRuns
  import opened IngestBlocked

  /** None of these steps is a step of this drainer. */
  ghost predicate ByOthers(evs: seq<Event>, d: DrainerId) {
    forall i :: 0 <= i < |evs| ==> (ByDrainer(evs[i]) ==> evs[i].d != d)
  }

  lemma {:induction false} OthersLeaveIt(st: State, evs: seq<Event>, st': State, d: DrainerId)
    requires Leads(st, evs, st') && ByOthers(evs, d) && d in st.drainers
    ensures d in st'.drainers && st'.drainers[d] == st.drainers[d]
    decreases evs
  {
    if evs != [] {
      OtherLeavesIt(st, evs[0], d);
      assert ByOthers(evs[1..], d);
      OthersLeaveIt(Apply(st, evs[0]), evs[1..], st', d);
    }
  }

  lemma OtherLeavesIt(st: State, ev: Event, d: DrainerId)
    requires Enabled(st, ev) && (ByDrainer(ev) ==> ev.d != d) && d in st.drainers
    ensures d in Apply(st, ev).drainers && Apply(st, ev).drainers[d] == st.drainers[d]
  {
  }

  predicate Retries(p: Phase, session: nat)
    requires p.Retrying?
  {
    p.session == session && p.attempts < MAX_ATTEMPTS && p.items != []
  }

  /** One job less, or one more attempt at the same job. */
  predicate Shrinks(before: Phase, after: Phase)
    requires before.Retrying? && after.Retrying?
  {
    || (|after.items| == |before.items| - 1 && after.attempts == 0)
    || (|after.items| == |before.items| && after.attempts == before.attempts + 1)
  }

  class DrainWorker {
    const me: DrainerId
    ghost var st: State
    ghost var trace: seq<Event>

    /** The shared state was reached by the recorded steps, and this drainer lives. */
    ghost predicate Valid()
      reads this
    {
      Leads(EMPTY, trace, st) && me in st.drainers
    }

    ghost function Phase(): Phase
      reads this
      requires me in st.drainers
    {
      st.drainers[me].phase
    }

    constructor (me: DrainerId, stream: Stream)
      ensures Valid() && Phase() == Standby && this.me == me
    {
      this.me := me;
      new;
      trace := [Mount(me, stream)];
      st := Apply(EMPTY, Mount(me, stream));
      OneStep(EMPTY, Mount(me, stream));
    }

    /** One step of this drainer. */
    ghost method Do(ev: Event)
      requires Valid() && Enabled(st, ev) && ByDrainer(ev) && ev.d == me && !ev.Crash?
      modifies this
      ensures Valid() && st == Apply(old(st), ev) && trace == old(trace) + [ev]
    {
      OneStep(st, ev);
      LeadsFurther(EMPTY, trace, st, [ev], Apply(st, ev));
      trace := trace + [ev];
      st := Apply(st, ev);
    }

    /** Anything the others may do meanwhile. */
    ghost method Others()
      requires Valid()
      modifies this
      ensures Valid() && st.drainers[me] == old(st.drainers[me])
    {
      assert Leads(st, [], st) && ByOthers([], me);
      var evs, st' :| Leads(st, evs, st') && ByOthers(evs, me);
      LeadsFurther(EMPTY, trace, st, evs, st');
      OthersLeaveIt(st, evs, st', me);
      trace := trace + evs;
      st := st';
    }

    /** Claim, look at every claimed job, ingest the batch or fall back to single
        jobs, and reply.  The pass ends, and then no row is "cur" under its
        session, and no row is blocked that decodes and was not tried eight times
        in a row. */
    ghost method DrainOnce() returns (session: Option<nat>)
      requires Valid() && Phase().Ready?
      modifies this
      ensures Valid() && Phase().Ready?
      ensures session.Some? ==> forall id :: !Under(st.jobs, session.value, id)
      ensures forall id :: id in st.jobs && st.jobs[id].status == Blocked ==> st.jobs[id].payload.Undecodable? || FailedEightTimes(trace, id)
    {
      session := Pass();
      forall id | id in st.jobs && st.jobs[id].status == Blocked
        ensures st.jobs[id].payload.Undecodable? || FailedEightTimes(trace, id)
      {
        BlockedMeansHopeless(trace, st, id);
      }
    }

    ghost method Pass() returns (session: Option<nat>)
      requires Valid() && Phase().Ready?
      modifies this
      ensures Valid() && Phase().Ready?
      ensures session.Some? ==> forall id :: !Under(st.jobs, session.value, id)
    {
      Others();
      var batch := Available();
      if batch == [] { return None; }
      session := Some(st.nextSession);
      Do(Claim(me, batch));
      ScanAll(session.value);
      Others();
      Step(EndScan(me), session.value);
      if Phase().Ready? { return; }
      Others();
      if * {
        var at, reply := IngestAndRetire(session.value);
      } else {
        var attempts := FallBack(session.value);
      }
    }

    ghost method Available() returns (batch: seq<JobId>)
      requires Valid()
      ensures batch != [] ==> WholeBatch(st.jobs, st.drainers[me].stream, batch)
    {
      batch := Enumerate(AvailableSet(st.jobs, st.drainers[me].stream));
      assert forall id :: id in batch <==> id in Elements(batch);
    }

    ghost method ScanAll(session: nat)
      requires Valid() && Phase().Scanning? && Phase().session == session
      modifies this
      ensures Valid() && Phase().Scanning? && Phase().session == session && Phase().rest == []
    {
      while Phase().rest != []
        invariant Valid() && Phase().Scanning? && Phase().session == session
        decreases |Phase().rest|
      {
        Others();
        Do(Scan(me));
      }
    }

    /** A step of the pass, either its last or one that stays in the session. */
    ghost method Step(ev: Event, session: nat)
      requires Valid() && Enabled(st, ev) && ByDrainer(ev) && ev.d == me && !ev.Crash?
      requires SessionOf(Phase()) == Some(session)
      modifies this
      ensures Valid() && st == Apply(old(st), ev) && trace == old(trace) + [ev]
      ensures SessionOf(Phase()).None? ==> forall id :: !Under(st.jobs, session, id)
    {
      ghost var before, steps := st, trace;
      Do(ev);
      if SessionOf(Phase()).None? {
        forall id ensures !Under(st.jobs, session, id) { FinishedPassHoldsNothing(steps, before, ev, id); }
      }
    }

    /** The batch, and the reply to its session or, if that completes nothing, to
        each of its jobs.  Every row still "cur" under the session in the state
        `at` of the last reply is done after it. */
    ghost method IngestAndRetire(session: nat) returns (at: State, reply: Event)
      requires Valid() && Phase().Batching? && Phase().session == session
      modifies this
      ensures Valid() && Phase().Ready? && forall id :: !Under(st.jobs, session, id)
      ensures (reply == RetireSession(me, true) || reply == RetireEach(me)) && Enabled(at, reply) && st == Apply(at, reply)
      ensures trace != [] && trace[|trace| - 1] == reply && Leads(EMPTY, trace[..|trace| - 1], at)
      ensures forall id :: Under(at.jobs, session, id) ==> id in st.jobs && st.jobs[id].status == Done
    {
      Step(BatchOk(me), session);
      Others();
      var fast: bool := *;
      at, reply := st, RetireSession(me, fast);
      ghost var steps := trace;
      Step(reply, session);
      if Phase().RetiringEach? {
        Others();
        at, reply, steps := st, RetireEach(me), trace;
        Step(reply, session);
      }
      assert trace[..|trace| - 1] == steps;
      forall id | Under(at.jobs, session, id) ensures id in st.jobs && st.jobs[id].status == Done {
        IngestedIsRepliedDone(steps, at, reply, id);
      }
    }

    /** The jobs one by one; `attempts` lists how many attempts each job took, one
        to eight. */
    ghost method FallBack(session: nat) returns (attempts: seq<nat>)
      requires Valid() && Phase().Batching? && Phase().session == session
      modifies this
      ensures Valid() && Phase().Ready? && forall id :: !Under(st.jobs, session, id)
      ensures |attempts| == |old(Phase().items)| && forall i :: 0 <= i < |attempts| ==> 1 <= attempts[i] <= MAX_ATTEMPTS
    {
      var n := |Phase().items|;
      var partial :| partial <= Ids(Phase().items);
      assert forall id :: id in partial ==> id in Ids(Phase().items);
      Step(BatchFail(me, partial), session);
      RetryIsBounded();
      attempts := [];
      while Phase().Retrying?
        invariant Valid() && (Phase().Retrying? ==> Retries(Phase(), session) && |attempts| + |Phase().items| == n)
        invariant Phase().Retrying? || (Phase().Ready? && |attempts| == n && forall id :: !Under(st.jobs, session, id))
        invariant forall i :: 0 <= i < |attempts| ==> 1 <= attempts[i] <= MAX_ATTEMPTS
        decreases if Phase().Retrying? then |Phase().items| else 0, if Phase().Retrying? then MAX_ATTEMPTS - Phase().attempts else 0
      {
        Others();
        ghost var made, left := Phase().attempts, |Phase().items|;
        Attempt(session);
        if !Phase().Retrying? || |Phase().items| < left { attempts := attempts + [made + 1]; }
      }
    }

    /** One attempt: ingest and reply, or count the failure. */
    ghost method Attempt(session: nat)
      requires Valid() && Phase().Retrying? && Retries(Phase(), session)
      modifies this
      ensures Valid()
      ensures Phase().Retrying? ==> Retries(Phase(), session) && Shrinks(old(Phase()), Phase())
      ensures Phase().Retrying? || (Phase().Ready? && |old(Phase().items)| == 1 && forall id :: !Under(st.jobs, session, id))
    {
      if * {
        Step(AttemptOk(me), session);
        Others();
        Step(ReplyDone(me), session);
      } else {
        Step(AttemptFail(me), session);
      }
      RetryIsBounded();
    }

    lemma RetryIsBounded()
      requires Valid()
      ensures Phase().Retrying? ==> Phase().attempts < MAX_ATTEMPTS && Phase().items != []
    {
      RunStaysSafe(EMPTY, trace, st);
      assert SafeDrainer(st.jobs, st.ingested, st.nextSession, st.drainers[me]);
    }
  }
}
