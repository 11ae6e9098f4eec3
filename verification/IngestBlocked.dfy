/** When a job may be blocked and when it is done: what the drainers' own steps say
    about it. */
module IngestBlocked {
  import opened Ordering
  import opened IngestQueue
  import opened IngestRuns

  // --------------------------------------------------- a drainer's own steps

  /** A step of a drainer and the phase it took it in. */
  datatype Turn = Turn(ev: Event, phase: Phase)

  /** The steps of one drainer in a run, in order, without those of the others. */
  ghost function Own(st: State, evs: seq<Event>, d: DrainerId): seq<Turn>
    decreases evs
  {
    if evs == [] || !Enabled(st, evs[0]) then []
    else Mine(st, evs[0], d) + Own(Apply(st, evs[0]), evs[1..], d)
  }

  ghost function Mine(st: State, ev: Event, d: DrainerId): seq<Turn>
    requires Enabled(st, ev)
  {
    if ByDrainer(ev) && ev.d == d then [Turn(ev, st.drainers[d].phase)] else []
  }

  /** The last event of a run and the state before it. */
  lemma {:induction false} LeadsSplits(a: State, evs: seq<Event>, b: State) returns (mid: State)
    requires Leads(a, evs, b) && evs != []
    ensures var n := |evs| - 1; Leads(a, evs[..n], mid) && Enabled(mid, evs[n]) && b == Apply(mid, evs[n])
    ensures forall d :: Own(a, evs, d) == Own(a, evs[..|evs| - 1], d) + Mine(mid, evs[|evs| - 1], d)
    decreases evs
  {
    var n := |evs| - 1;
    var next := Apply(a, evs[0]);
    if n == 0 {
      mid := a;
      assert Leads(next, [], b) && evs[1..] == [];
      forall d ensures Own(a, evs, d) == Own(a, evs[..n], d) + Mine(mid, evs[n], d) { assert Own(next, [], d) == []; }
    } else {
      mid := LeadsSplits(next, evs[1..], b);
      assert evs[1..][..n - 1] == evs[..n][1..];
      forall d ensures Own(a, evs, d) == Own(a, evs[..n], d) + Mine(mid, evs[n], d) { }
    }
  }

  // -------------------------------------------------------------- failures

  /** A failed attempt at this job. */
  predicate FailsAt(t: Turn, id: JobId) {
    t.ev.AttemptFail? && t.phase.Retrying? && t.phase.items != [] && t.phase.items[0] == id
  }

  /** Eight failed attempts at the job, with no other step of their drainer in
      between. */
  ghost predicate FailedEightTimes(evs: seq<Event>, id: JobId) {
    exists d, i :: EightFrom(Own(EMPTY, evs, d), i, id)
  }

  predicate EightFrom(own: seq<Turn>, i: nat, id: JobId) {
    i + 8 <= |own| && forall j :: i <= j < i + 8 ==> FailsAt(own[j], id)
  }

  /** The drainer's last steps: exactly this many failed attempts at the job. */
  ghost predicate Streak(own: seq<Turn>, attempts: nat, id: JobId) {
    && attempts <= |own|
    && (forall j :: |own| - attempts <= j < |own| ==> FailsAt(own[j], id))
    && (attempts < |own| ==> !FailsAt(own[|own| - attempts - 1], id))
  }

  /** The jobs a phase has in hand, in the order it will come to them. */
  function Listed(p: Phase): seq<JobId> {
    match p
    case Scanning(_, rest, items) => items + rest
    case Batching(_, items) => items
    case Retiring(_, items) => items
    case RetiringEach(_, items) => items
    case Retrying(_, items, _) => items
    case Landed(_, items) => items
    case _ => []
  }

  /** A drainer has each job in hand once, and its attempts are its last steps. */
  ghost predicate Counts(own: seq<Turn>, p: Phase) {
    && NoDuplicates(Listed(p)) && (p.Batching? ==> p.items != [])
    && (p.Retrying? ==> p.items != [] && Streak(own, p.attempts, p.items[0]))
  }

  ghost predicate CountsAll(evs: seq<Event>, st: State) {
    forall d :: d in st.drainers ==> Counts(Own(EMPTY, evs, d), st.drainers[d].phase)
  }

  ghost predicate BlockedExplained(evs: seq<Event>, st: State) {
    forall id :: id in st.jobs && st.jobs[id].status == Blocked ==> Explained(evs, st.jobs[id], id)
  }

  ghost predicate Explained(evs: seq<Event>, job: Job, id: JobId) {
    job.payload.Undecodable? || FailedEightTimes(evs, id)
  }

  lemma ListedNext(items: seq<JobId>)
    requires items != [] && NoDuplicates(items)
    ensures NoDuplicates(items[1..]) && (items[1..] != [] ==> items[1..][0] != items[0])
  {
  }

  /** The scan keeps the jobs in hand distinct. */
  lemma ScanListed(st: State, d: DrainerId)
    requires Enabled(st, Scan(d)) && NoDuplicates(Listed(st.drainers[d].phase))
    ensures NoDuplicates(Listed(Apply(st, Scan(d)).drainers[d].phase))
  {
    var p := st.drainers[d].phase;
    assert p.items + p.rest == p.items + [p.rest[0]] + p.rest[1..];
    assert NoDuplicates(p.items + p.rest[1..]) by {
      forall i, j | 0 <= i < j < |p.items + p.rest[1..]| ensures (p.items + p.rest[1..])[i] != (p.items + p.rest[1..])[j] {
        var k := if i < |p.items| then i else i + 1;
        var l := if j < |p.items| then j else j + 1;
        assert Listed(p)[k] == (p.items + p.rest[1..])[i] && Listed(p)[l] == (p.items + p.rest[1..])[j];
      }
    }
  }

  /** The drainer that moves. */
  lemma MoverCounts(own: seq<Turn>, st: State, ev: Event)
    requires Enabled(st, ev) && ByDrainer(ev) && ev.d in Apply(st, ev).drainers && Counts(own, st.drainers[ev.d].phase)
    ensures Counts(own + Mine(st, ev, ev.d), Apply(st, ev).drainers[ev.d].phase)
  {
    var p, p' := st.drainers[ev.d].phase, Apply(st, ev).drainers[ev.d].phase;
    var own' := own + [Turn(ev, p)];
    match ev
    case Scan(d) => ScanListed(st, d);
    case Claim(_, batch) => assert [] + batch == batch;
    case EndScan(_) => assert p.items + [] == p.items;
    case AttemptFail(_) => ListedNext(p.items);
    case ReplyDone(_) => ListedNext(p.items);
    case _ =>
  }

  lemma StepCounts(own: seq<Turn>, st: State, ev: Event, d: DrainerId)
    requires Enabled(st, ev) && d in Apply(st, ev).drainers
    requires d in st.drainers ==> Counts(own, st.drainers[d].phase)
    ensures Counts(own + Mine(st, ev, d), Apply(st, ev).drainers[d].phase)
  {
    if ByDrainer(ev) && ev.d == d {
      MoverCounts(own, st, ev);
    } else {
      OthersUnmoved(st, ev, d);
      assert own + [] == own;
    }
  }

  /** One more event of the run adds to its drainer's steps only. */
  ghost predicate OwnNext(evs: seq<Event>, st: State, ev: Event)
    requires Enabled(st, ev)
  {
    forall d :: Own(EMPTY, evs + [ev], d) == Own(EMPTY, evs, d) + Mine(st, ev, d)
  }

  /** A step only adds to what is explained. */
  lemma StillExplained(evs: seq<Event>, st: State, ev: Event, job: Job, id: JobId)
    requires Enabled(st, ev) && Explained(evs, job, id)
    requires OwnNext(evs, st, ev)
    ensures Explained(evs + [ev], job, id)
  {
    if FailedEightTimes(evs, id) {
      var d, i :| EightFrom(Own(EMPTY, evs, d), i, id);
      assert EightFrom(Own(EMPTY, evs + [ev], d), i, id);
    }
  }

  /** A row becomes blocked only by the scan of an undecodable payload or by the
      eighth failed attempt in a row. */
  lemma NewlyBlocked(evs: seq<Event>, st: State, ev: Event, id: JobId)
    requires Safe(st) && Enabled(st, ev) && CountsAll(evs, st)
    requires OwnNext(evs, st, ev)
    requires id in st.jobs && st.jobs[id].status != Blocked && id in Table(st, ev) && Table(st, ev)[id].status == Blocked
    ensures Explained(evs + [ev], st.jobs[id], id)
  {
    if ev.AttemptFail? {
      var p, own := st.drainers[ev.d].phase, Own(EMPTY, evs, ev.d);
      assert SafeDrainer(st.jobs, st.ingested, st.nextSession, st.drainers[ev.d]);
      assert Counts(own, p) && p.attempts == 7 && p.items[0] == id;
      assert EightFrom(own + [Turn(ev, p)], |own| - 7, id);
    }
  }

  lemma StepExplained(evs: seq<Event>, st: State, ev: Event)
    requires Safe(st) && Enabled(st, ev) && CountsAll(evs, st) && BlockedExplained(evs, st)
    requires OwnNext(evs, st, ev)
    ensures BlockedExplained(evs + [ev], Apply(st, ev))
  {
    var st' := Apply(st, ev);
    StepEvolves(st, ev);
    TableOf(st, ev);
    forall id | id in st'.jobs && st'.jobs[id].status == Blocked ensures Explained(evs + [ev], st'.jobs[id], id) {
      if st.jobs[id].status == Blocked { StillExplained(evs, st, ev, st.jobs[id], id); } else { NewlyBlocked(evs, st, ev, id); }
    }
  }

  lemma {:induction false} RunCounts(evs: seq<Event>, st: State)
    requires Leads(EMPTY, evs, st)
    ensures CountsAll(evs, st) && BlockedExplained(evs, st)
    decreases |evs|
  {
    if evs != [] {
      var n := |evs| - 1;
      var mid := LeadsSplits(EMPTY, evs, st);
      RunCounts(evs[..n], mid);
      RunStaysSafe(EMPTY, evs[..n], mid);
      assert evs == evs[..n] + [evs[n]];
      forall d | d in st.drainers ensures Counts(Own(EMPTY, evs, d), st.drainers[d].phase) { StepCounts(Own(EMPTY, evs[..n], d), mid, evs[n], d); }
      assert OwnNext(evs[..n], mid, evs[n]);
      StepExplained(evs[..n], mid, evs[n]);
    }
  }

  /** No job is blocked without cause.  In every interleaving a blocked job does not
      decode, or some drainer failed at it eight times in a row, with no other step
      of its own in between. */
  lemma BlockedMeansHopeless(evs: seq<Event>, st: State, id: JobId)
    requires Leads(EMPTY, evs, st) && id in st.jobs && st.jobs[id].status == Blocked
    ensures st.jobs[id].payload.Undecodable? || FailedEightTimes(evs, id)
  {
    RunCounts(evs, st);
    assert Explained(evs, st.jobs[id], id);
  }

  /** The drainer's last seven steps were failed attempts at the job. */
  ghost predicate JustFailedSevenTimes(evs: seq<Event>, d: DrainerId, id: JobId) {
    var own := Own(EMPTY, evs, d);
    |own| >= 7 && forall j :: |own| - 7 <= j < |own| ==> FailsAt(own[j], id)
  }

  /** Seven attempts are behind a drainer exactly when its last seven steps were
      failed attempts at the job. */
  lemma AttemptsAreSteps(own: seq<Turn>, p: Phase, id: JobId)
    requires p.Retrying? && Counts(own, p) && p.attempts < 8 && p.items[0] == id
    ensures p.attempts == 7 <==> |own| >= 7 && forall j :: |own| - 7 <= j < |own| ==> FailsAt(own[j], id)
  {
    if p.attempts < 7 && |own| >= 7 { assert !FailsAt(own[|own| - p.attempts - 1], id); }
  }

  lemma AttemptsKnown(evs: seq<Event>, st: State, d: DrainerId)
    requires Leads(EMPTY, evs, st) && d in st.drainers && Enabled(st, AttemptFail(d))
    ensures var p := st.drainers[d].phase;
      p.attempts < 8 && (p.attempts == 7 <==> JustFailedSevenTimes(evs, d, p.items[0]))
    ensures var items := st.drainers[d].phase.items; NoDuplicates(items)
  {
    RunCounts(evs, st);
    RunStaysSafe(EMPTY, evs, st);
    assert SafeDrainer(st.jobs, st.ingested, st.nextSession, st.drainers[d]);
    assert Counts(Own(EMPTY, evs, d), st.drainers[d].phase);
    AttemptsAreSteps(Own(EMPTY, evs, d), st.drainers[d].phase, st.drainers[d].phase.items[0]);
  }

  /** And it is blocked then: a failed attempt at a row still "cur" blocks it if
      and only if the drainer's last seven steps were failed attempts at it; till
      then it is tried again. */
  lemma EighthFailureBlocks(evs: seq<Event>, st: State, d: DrainerId)
    requires Leads(EMPTY, evs, st) && d in st.drainers && Enabled(st, AttemptFail(d))
    ensures var p, p' := st.drainers[d].phase, Apply(st, AttemptFail(d)).drainers[d].phase;
      var id := p.items[0];
      && (id in st.jobs && st.jobs[id].status == Cur ==>
           (Apply(st, AttemptFail(d)).jobs[id].status == Blocked <==> JustFailedSevenTimes(evs, d, id)))
      && (p'.Retrying? && p'.items[0] == id <==> !JustFailedSevenTimes(evs, d, id))
  {
    AttemptsKnown(evs, st, d);
    ListedNext(st.drainers[d].phase.items);
    FailOutcome(st, d);
  }

  lemma FailOutcome(st: State, d: DrainerId)
    requires Enabled(st, AttemptFail(d)) && st.drainers[d].phase.attempts < 8
    ensures var p, p' := st.drainers[d].phase, Apply(st, AttemptFail(d)).drainers[d].phase;
      var id := p.items[0];
      && (p.attempts < 7 ==> p' == Retrying(p.session, p.items, p.attempts + 1) && Apply(st, AttemptFail(d)).jobs == st.jobs)
      && (p.attempts == 7 ==> p' == Next(p.session, p.items) && Apply(st, AttemptFail(d)).jobs == ReplyJob(st.jobs, id, Blocked))
  {
  }

  /** The reply after a successful batch is "done": every row still "cur" under the
      session is done after it, by either form of the reply; so is a job after the
      reply to its own successful attempt. */
  lemma IngestedIsRepliedDone(evs: seq<Event>, st: State, ev: Event, id: JobId)
    requires Leads(EMPTY, evs, st) && Enabled(st, ev)
    requires (ev.RetireSession? && ev.fast) || ev.RetireEach? || (ev.ReplyDone? && id == st.drainers[ev.d].phase.items[0])
    requires Under(st.jobs, st.drainers[ev.d].phase.session, id)
    ensures Apply(st, ev).jobs[id].status == Done
  {
    RunStaysSafe(EMPTY, evs, st);
    assert SafeDrainer(st.jobs, st.ingested, st.nextSession, st.drainers[ev.d]);
    assert Claims(st.drainers[ev.d].phase, id);
  }

  // ------------------------------------------------------------- ingestion

  /** In this step a drainer of the stream has the job ingested: in its batch, in
      the part of a failed batch that got through, or on its own. */
  ghost predicate Ingests(st: State, ev: Event, stream: Stream, id: JobId)
    requires Enabled(st, ev)
  {
    && ByDrainer(ev) && st.drainers[ev.d].stream == stream
    && match ev
       case BatchOk(d) => id in st.drainers[d].phase.items
       case BatchFail(_, partial) => id in partial
       case AttemptOk(d) => st.drainers[d].phase.items[0] == id
       case _ => false
  }

  ghost predicate IngestsAt(evs: seq<Event>, i: int, mid: State, stream: Stream, id: JobId) {
    0 <= i < |evs| && Leads(EMPTY, evs[..i], mid) && Enabled(mid, evs[i]) && Ingests(mid, evs[i], stream, id)
  }

  /** Some step of the run ingested the job. */
  ghost predicate WasIngested(evs: seq<Event>, stream: Stream, id: JobId) {
    exists i, mid :: IngestsAt(evs, i, mid, stream, id)
  }

  lemma WasIngestedNext(evs: seq<Event>, mid: State, stream: Stream, id: JobId)
    requires evs != [] && Leads(EMPTY, evs[..|evs| - 1], mid) && Enabled(mid, evs[|evs| - 1])
    ensures WasIngested(evs, stream, id) <==> WasIngested(evs[..|evs| - 1], stream, id) || Ingests(mid, evs[|evs| - 1], stream, id)
  {
    var n := |evs| - 1;
    if i, m :| IngestsAt(evs[..n], i, m, stream, id) {
      assert evs[..n][..i] == evs[..i];
      assert IngestsAt(evs, i, m, stream, id);
    }
    if Ingests(mid, evs[n], stream, id) { assert IngestsAt(evs, n, mid, stream, id); }
    if i, m :| IngestsAt(evs, i, m, stream, id) {
      if i == n {
        LeadsToOne(EMPTY, evs[..n], m, mid);
      } else {
        assert evs[..n][..i] == evs[..i];
        assert IngestsAt(evs[..n], i, m, stream, id);
      }
    }
  }

  lemma {:induction false} LeadsToOne(st: State, evs: seq<Event>, a: State, b: State)
    requires Leads(st, evs, a) && Leads(st, evs, b)
    ensures a == b
    decreases evs
  {
    if evs != [] { LeadsToOne(Apply(st, evs[0]), evs[1..], a, b); }
  }

  /** The record of what was ingested is exactly that of the run's own steps. */
  lemma {:induction false} IngestedIsWitnessed(evs: seq<Event>, st: State, stream: Stream, id: JobId)
    requires Leads(EMPTY, evs, st)
    ensures (stream, id) in st.ingested <==> WasIngested(evs, stream, id)
    decreases |evs|
  {
    if evs != [] {
      var n := |evs| - 1;
      var mid := LeadsSplits(EMPTY, evs, st);
      IngestedIsWitnessed(evs[..n], mid, stream, id);
      WasIngestedNext(evs, mid, stream, id);
    }
  }

  /** At-least-once over the run's own steps: a job is done only if it is empty or
      an earlier step of a drainer of its stream ingested it. */
  lemma DoneMeansAStepIngestedIt(evs: seq<Event>, st: State, id: JobId)
    requires Leads(EMPTY, evs, st) && id in st.jobs && st.jobs[id].status == Done
    ensures st.jobs[id].payload.Decoded?
    ensures st.jobs[id].payload.text == [] || WasIngested(evs, st.jobs[id].stream, id)
  {
    DoneMeansIngested(evs, st, id);
    IngestedIsWitnessed(evs, st, st.jobs[id].stream, id);
  }
}
