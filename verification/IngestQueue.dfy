/** The ingest drain protocol: a shared job table, one lease per stream, and any
    number of drainers that claim, ingest and reply, crash and take over.  The
    queue is its table and its stated contract: a reply flips only rows that are
    "cur", and a reclaim touches one stream. */
module IngestQueue {
  import opened Options
  import opened Ordering

  type JobId = nat
  type DrainerId = nat

  datatype Stream = Encode | Import
  datatype Status = New | Cur | Done | Blocked
  datatype Payload = Undecodable | Decoded(source: Bytes, text: Bytes)

  /** `session` names the claim a "cur" row is under. */
  datatype Job = Job(stream: Stream, status: Status, session: nat, payload: Payload)
  type Jobs = map<JobId, Job>

  /** Where a drainer is in its loop. */
  datatype Phase =
    | Standby
    | Mounting
    | Ready
    | Scanning(session: nat, rest: seq<JobId>, items: seq<JobId>)
    | Batching(session: nat, items: seq<JobId>)
    | Retiring(session: nat, items: seq<JobId>)
    | RetiringEach(session: nat, items: seq<JobId>)
    | Retrying(session: nat, items: seq<JobId>, attempts: nat)
    | Landed(session: nat, items: seq<JobId>)

  datatype Drainer = Drainer(stream: Stream, reclaimed: bool, phase: Phase)

  /** `ingested` records, job by job, which stream's ingest call ran for it. */
  datatype State = State(
    jobs: Jobs,
    drainers: map<DrainerId, Drainer>,
    lease: map<Stream, DrainerId>,
    ingested: set<(Stream, JobId)>,
    nextSession: nat)

  const MAX_ATTEMPTS: nat := 8

  // ------------------------------------------------------------- the table

  function Replied(job: Job, status: Status): Job {
    if job.status == Cur then job.(status := status) else job
  }

  function ReplyJob(jobs: Jobs, id: JobId, status: Status): Jobs {
    map x | x in jobs :: if x == id then Replied(jobs[x], status) else jobs[x]
  }

  function ReplySession(jobs: Jobs, session: nat, status: Status): Jobs {
    map x | x in jobs :: if jobs[x].session == session then Replied(jobs[x], status) else jobs[x]
  }

  function ReplyEach(jobs: Jobs, ids: seq<JobId>, status: Status): Jobs {
    map x | x in jobs :: if x in ids then Replied(jobs[x], status) else jobs[x]
  }

  function ReclaimStream(jobs: Jobs, stream: Stream): Jobs {
    map x | x in jobs :: if jobs[x].stream == stream && jobs[x].status == Cur then jobs[x].(status := New) else jobs[x]
  }

  /** One claim takes every available job of the stream under one session. */
  function ClaimStream(jobs: Jobs, stream: Stream, session: nat): Jobs {
    map x | x in jobs :: if Available(jobs, stream, x) then jobs[x].(status := Cur, session := session) else jobs[x]
  }

  predicate Available(jobs: Jobs, stream: Stream, id: JobId) {
    id in jobs && jobs[id].stream == stream && jobs[id].status == New
  }

  /** A row is still "cur" under the session. */
  predicate Under(jobs: Jobs, session: nat, id: JobId) {
    id in jobs && jobs[id].status == Cur && jobs[id].session == session
  }

  // ----------------------------------------------------------------- steps

  /** `fast` says whether the backend can reply to a whole session at once; if it
      cannot, its reply reports that nothing was completed. */
  datatype Event =
    | Enqueue(id: JobId, stream: Stream, payload: Payload)
    | Mount(d: DrainerId, on: Stream)
    | Expire(lapsed: Stream)
    | Crash(d: DrainerId)
    | Acquire(d: DrainerId)
    | Reclaim(d: DrainerId)
    | StandDown(d: DrainerId)
    | Claim(d: DrainerId, batch: seq<JobId>)
    | Scan(d: DrainerId)
    | EndScan(d: DrainerId)
    | BatchOk(d: DrainerId)
    | BatchFail(d: DrainerId, partial: set<JobId>)
    | RetireSession(d: DrainerId, fast: bool)
    | RetireEach(d: DrainerId)
    | AttemptOk(d: DrainerId)
    | AttemptFail(d: DrainerId)
    | ReplyDone(d: DrainerId)

  predicate ByDrainer(ev: Event) {
    !ev.Enqueue? && !ev.Mount? && !ev.Expire?
  }

  /** The batch names every available job of the stream once. */
  ghost predicate WholeBatch(jobs: Jobs, stream: Stream, batch: seq<JobId>) {
    batch != [] && NoDuplicates(batch) && forall id :: id in batch <==> Available(jobs, stream, id)
  }

  ghost predicate Enabled(st: State, ev: Event) {
    (ByDrainer(ev) ==> ev.d in st.drainers) &&
    match ev
    case Enqueue(id, _, _) => id !in st.jobs
    case Mount(d, _) => d !in st.drainers
    case Expire(_) => true
    case Crash(_) => true
    case Acquire(d) => (st.drainers[d].phase.Standby? || st.drainers[d].phase.Ready?)
                       && (st.drainers[d].stream in st.lease ==> st.lease[st.drainers[d].stream] == d)
    case Reclaim(d) => st.drainers[d].phase.Mounting?
    case StandDown(d) => st.drainers[d].phase.Ready?
    case Claim(d, batch) => st.drainers[d].phase.Ready? && WholeBatch(st.jobs, st.drainers[d].stream, batch)
    case Scan(d) => st.drainers[d].phase.Scanning? && st.drainers[d].phase.rest != []
    case EndScan(d) => st.drainers[d].phase.Scanning? && st.drainers[d].phase.rest == []
    case BatchOk(d) => st.drainers[d].phase.Batching?
    case BatchFail(d, partial) => st.drainers[d].phase.Batching? && forall id :: id in partial ==> id in st.drainers[d].phase.items
    case RetireSession(d, _) => st.drainers[d].phase.Retiring?
    case RetireEach(d) => st.drainers[d].phase.RetiringEach?
    case AttemptOk(d) => st.drainers[d].phase.Retrying? && st.drainers[d].phase.items != []
    case AttemptFail(d) => st.drainers[d].phase.Retrying? && st.drainers[d].phase.items != []
    case ReplyDone(d) => st.drainers[d].phase.Landed? && st.drainers[d].phase.items != []
  }

  function Move(st: State, d: DrainerId, phase: Phase): State
    requires d in st.drainers
  {
    st.(drainers := st.drainers[d := st.drainers[d].(phase := phase)])
  }

  /** These jobs were ingested, by the call of this stream. */
  function Effects(stream: Stream, ids: set<JobId>): set<(Stream, JobId)> {
    set id | id in ids :: (stream, id)
  }

  function Ids(items: seq<JobId>): set<JobId> {
    set id | id in items
  }

  /** On to the next job of the fallback, or back to polling. */
  function Next(session: nat, items: seq<JobId>): Phase {
    if |items| <= 1 then Ready else Retrying(session, items[1..], 0)
  }

  ghost function Apply(st: State, ev: Event): State
    requires Enabled(st, ev)
  {
    match ev
    case Enqueue(id, stream, payload) => st.(jobs := st.jobs[id := Job(stream, New, 0, payload)])
    case Mount(d, stream) => st.(drainers := st.drainers[d := Drainer(stream, false, Standby)])
    case Expire(stream) => st.(lease := st.lease - {stream})
    case Crash(d) => st.(drainers := st.drainers - {d})
    case Acquire(d) =>
      var mine := st.drainers[d];
      Move(st.(lease := st.lease[mine.stream := d]), d, if mine.reclaimed then Ready else Mounting)
    case Reclaim(d) =>
      var mine := st.drainers[d];
      st.(jobs := ReclaimStream(st.jobs, mine.stream), drainers := st.drainers[d := Drainer(mine.stream, true, Ready)])
    case StandDown(d) => Move(st, d, Standby)
    case Claim(d, batch) =>
      Move(st.(jobs := ClaimStream(st.jobs, st.drainers[d].stream, st.nextSession), nextSession := st.nextSession + 1),
           d, Scanning(st.nextSession, batch, []))
    case Scan(d) => ScanOne(st, d)
    case EndScan(d) =>
      var p := st.drainers[d].phase;
      Move(st, d, if p.items == [] then Ready else Batching(p.session, p.items))
    case BatchOk(d) =>
      var p := st.drainers[d].phase;
      Move(st.(ingested := st.ingested + Effects(st.drainers[d].stream, Ids(p.items))), d, Retiring(p.session, p.items))
    case BatchFail(d, partial) =>
      var p := st.drainers[d].phase;
      Move(st.(ingested := st.ingested + Effects(st.drainers[d].stream, partial)), d, Retrying(p.session, p.items, 0))
    case RetireSession(d, fast) =>
      var p := st.drainers[d].phase;
      var completed := fast && exists id :: Under(st.jobs, p.session, id);
      Move(st.(jobs := if fast then ReplySession(st.jobs, p.session, Done) else st.jobs), d,
           if completed then Ready else RetiringEach(p.session, p.items))
    case RetireEach(d) =>
      var p := st.drainers[d].phase;
      Move(st.(jobs := ReplyEach(st.jobs, p.items, Done)), d, Ready)
    case AttemptOk(d) =>
      var p := st.drainers[d].phase;
      Move(st.(ingested := st.ingested + Effects(st.drainers[d].stream, {p.items[0]})), d, Landed(p.session, p.items))
    case AttemptFail(d) =>
      var p := st.drainers[d].phase;
      if p.attempts + 1 < MAX_ATTEMPTS then Move(st, d, Retrying(p.session, p.items, p.attempts + 1))
      else Move(st.(jobs := ReplyJob(st.jobs, p.items[0], Blocked)), d, Next(p.session, p.items))
    case ReplyDone(d) =>
      var p := st.drainers[d].phase;
      Move(st.(jobs := ReplyJob(st.jobs, p.items[0], Done)), d, Next(p.session, p.items))
  }

  /** Look at the next claimed job: undecodable is blocked, empty is done, the
      rest is collected for the batch. */
  ghost function ScanOne(st: State, d: DrainerId): State
    requires d in st.drainers && st.drainers[d].phase.Scanning? && st.drainers[d].phase.rest != []
  {
    var p := st.drainers[d].phase;
    var id := p.rest[0];
    if id !in st.jobs then Move(st, d, Scanning(p.session, p.rest[1..], p.items)) else
      match st.jobs[id].payload
      case Undecodable => Move(st.(jobs := ReplyJob(st.jobs, id, Blocked)), d, Scanning(p.session, p.rest[1..], p.items))
      case Decoded(_, text) =>
        if text == [] then Move(st.(jobs := ReplyJob(st.jobs, id, Done)), d, Scanning(p.session, p.rest[1..], p.items))
        else Move(st, d, Scanning(p.session, p.rest[1..], p.items + [id]))
  }

  // ------------------------------------------------------------- evolution

  /** What any step may do to the table: jobs stay, with their stream and payload;
      "done" and "blocked" are final; a row under an earlier session is as it
      was. */
  ghost predicate Evolves(jobs: Jobs, jobs': Jobs, nextSession: nat) {
    && (forall id :: id in jobs ==> id in jobs' && KeepsJob(jobs[id], jobs'[id], nextSession))
    && (forall id :: id in jobs' && id !in jobs ==> jobs'[id].status == New)
  }

  predicate KeepsJob(job: Job, job': Job, nextSession: nat) {
    && job'.stream == job.stream && job'.payload == job.payload
    && (job.status == Done || job.status == Blocked ==> job' == job)
    && (job'.status == Cur && job'.session < nextSession ==> job' == job)
  }

  lemma ReplyJobEvolves(jobs: Jobs, id: JobId, status: Status, nextSession: nat)
    requires status == Done || status == Blocked
    ensures Evolves(jobs, ReplyJob(jobs, id, status), nextSession)
  {
  }

  lemma RetireEvolves(jobs: Jobs, session: nat, ids: seq<JobId>, nextSession: nat)
    ensures Evolves(jobs, ReplySession(jobs, session, Done), nextSession)
    ensures Evolves(jobs, ReplyEach(jobs, ids, Done), nextSession)
  {
  }

  lemma ClaimEvolves(jobs: Jobs, stream: Stream, nextSession: nat)
    ensures Evolves(jobs, ClaimStream(jobs, stream, nextSession), nextSession)
    ensures Evolves(jobs, ReclaimStream(jobs, stream), nextSession)
  {
  }

  /** The table after a step: one of its few operations, or as it was. */
  ghost function Table(st: State, ev: Event): Jobs
    requires Enabled(st, ev)
  {
    match ev
    case Enqueue(id, stream, payload) => st.jobs[id := Job(stream, New, 0, payload)]
    case Reclaim(d) => ReclaimStream(st.jobs, st.drainers[d].stream)
    case Claim(d, _) => ClaimStream(st.jobs, st.drainers[d].stream, st.nextSession)
    case Scan(d) => ScanTable(st.jobs, st.drainers[d].phase.rest[0])
    case RetireSession(d, fast) => if fast then ReplySession(st.jobs, st.drainers[d].phase.session, Done) else st.jobs
    case RetireEach(d) => ReplyEach(st.jobs, st.drainers[d].phase.items, Done)
    case AttemptFail(d) =>
      if st.drainers[d].phase.attempts + 1 < MAX_ATTEMPTS then st.jobs else ReplyJob(st.jobs, st.drainers[d].phase.items[0], Blocked)
    case ReplyDone(d) => ReplyJob(st.jobs, st.drainers[d].phase.items[0], Done)
    case _ => st.jobs
  }

  function ScanTable(jobs: Jobs, id: JobId): Jobs {
    if id !in jobs then jobs
    else if jobs[id].payload.Undecodable? then ReplyJob(jobs, id, Blocked)
    else if jobs[id].payload.text == [] then ReplyJob(jobs, id, Done)
    else jobs
  }

  lemma TableOf(st: State, ev: Event)
    requires Enabled(st, ev)
    ensures Apply(st, ev).jobs == Table(st, ev)
    ensures st.ingested <= Apply(st, ev).ingested && st.nextSession <= Apply(st, ev).nextSession
    ensures Apply(st, ev).nextSession == if ev.Claim? then st.nextSession + 1 else st.nextSession
  {
  }

  lemma TableEvolves(st: State, ev: Event)
    requires Enabled(st, ev)
    ensures Evolves(st.jobs, Table(st, ev), st.nextSession)
  {
    match ev
    case Reclaim(d) => ClaimEvolves(st.jobs, st.drainers[d].stream, st.nextSession);
    case Claim(d, _) => ClaimEvolves(st.jobs, st.drainers[d].stream, st.nextSession);
    case Scan(d) =>
      ReplyJobEvolves(st.jobs, st.drainers[d].phase.rest[0], Done, st.nextSession);
      ReplyJobEvolves(st.jobs, st.drainers[d].phase.rest[0], Blocked, st.nextSession);
    case RetireSession(d, _) => RetireEvolves(st.jobs, st.drainers[d].phase.session, [], st.nextSession);
    case RetireEach(d) => RetireEvolves(st.jobs, 0, st.drainers[d].phase.items, st.nextSession);
    case AttemptFail(d) => ReplyJobEvolves(st.jobs, st.drainers[d].phase.items[0], Blocked, st.nextSession);
    case ReplyDone(d) => ReplyJobEvolves(st.jobs, st.drainers[d].phase.items[0], Done, st.nextSession);
    case _ =>
  }

  /** Conservation: every step keeps every job, and no terminal status is left. */
  lemma StepEvolves(st: State, ev: Event)
    requires Enabled(st, ev)
    ensures Evolves(st.jobs, Apply(st, ev).jobs, st.nextSession) && st.nextSession <= Apply(st, ev).nextSession
    ensures st.ingested <= Apply(st, ev).ingested
  {
    TableOf(st, ev);
    TableEvolves(st, ev);
  }

  // ------------------------------------------------------------- invariant

  predicate Ingestable(p: Payload) {
    p.Decoded? && p.text != []
  }

  /** A done job decoded, and was empty or was itself ingested. */
  predicate SafeJob(id: JobId, job: Job, ingested: set<(Stream, JobId)>, nextSession: nat) {
    && (job.status == Done ==> job.payload.Decoded? && (job.payload.text == [] || (job.stream, id) in ingested))
    && (job.status == Cur ==> job.session < nextSession)
  }

  /** The ids a phase is responsible for. */
  predicate Claims(p: Phase, id: JobId) {
    match p
    case Scanning(_, rest, items) => id in rest || id in items
    case Batching(_, items) => id in items
    case Retiring(_, items) => id in items
    case RetiringEach(_, items) => id in items
    case Retrying(_, items, _) => id in items
    case Landed(_, items) => id in items
    case _ => false
  }

  function SessionOf(p: Phase): Option<nat> {
    if p.Standby? || p.Mounting? || p.Ready? then None else Some(p.session)
  }

  ghost predicate AllIngestable(jobs: Jobs, ids: seq<JobId>) {
    forall id :: id in ids ==> id in jobs && Ingestable(jobs[id].payload)
  }

  ghost predicate AllIngested(stream: Stream, ids: seq<JobId>, ingested: set<(Stream, JobId)>) {
    forall id :: id in ids ==> (stream, id) in ingested
  }

  /** The claimed ids are jobs of the drainer's stream, and every row still "cur"
      under its session is among them. */
  ghost predicate SafeDrainer(jobs: Jobs, ingested: set<(Stream, JobId)>, nextSession: nat, d: Drainer) {
    && (forall id :: Claims(d.phase, id) ==> id in jobs && jobs[id].stream == d.stream)
    && (SessionOf(d.phase).Some? ==>
         SessionOf(d.phase).value < nextSession && forall id :: Under(jobs, SessionOf(d.phase).value, id) ==> Claims(d.phase, id))
    && SafePhase(jobs, ingested, d.stream, d.phase)
  }

  ghost predicate SafePhase(jobs: Jobs, ingested: set<(Stream, JobId)>, stream: Stream, p: Phase) {
    match p
    case Scanning(s, rest, items) => AllIngestable(jobs, items)
    case Batching(s, items) => AllIngestable(jobs, items) && items != []
    case Retiring(s, items) => AllIngestable(jobs, items) && AllIngested(stream, items, ingested)
    case RetiringEach(s, items) => AllIngestable(jobs, items) && AllIngested(stream, items, ingested)
    case Retrying(s, items, attempts) => AllIngestable(jobs, items) && items != [] && attempts < MAX_ATTEMPTS
    case Landed(s, items) => AllIngestable(jobs, items) && items != [] && AllIngested(stream, items[..1], ingested)
    case _ => true
  }

  ghost predicate Safe(st: State) {
    JobsSafe(st) && DrainersSafe(st)
  }

  ghost predicate JobsSafe(st: State) {
    forall id :: id in st.jobs ==> SafeJob(id, st.jobs[id], st.ingested, st.nextSession)
  }

  ghost predicate DrainersSafe(st: State) {
    forall d :: d in st.drainers ==> SafeDrainer(st.jobs, st.ingested, st.nextSession, st.drainers[d])
  }

  /** A drainer that does not move stays safe, whatever the others do: a row that
      was reclaimed and claimed again is under another session. */
  lemma BystanderStaysSafe(jobs: Jobs, jobs': Jobs, ingested: set<(Stream, JobId)>, ingested': set<(Stream, JobId)>,
                           nextSession: nat, nextSession': nat, d: Drainer)
    requires SafeDrainer(jobs, ingested, nextSession, d)
    requires Evolves(jobs, jobs', nextSession) && ingested <= ingested' && nextSession <= nextSession'
    ensures SafeDrainer(jobs', ingested', nextSession', d)
  {
    if SessionOf(d.phase).Some? {
      var s := SessionOf(d.phase).value;
      forall id | Under(jobs', s, id) ensures Under(jobs, s, id) { }
    }
  }

  /** A reply "done" is only sent for an empty or an ingested job. */
  lemma JobStaysSafe(st: State, ev: Event, id: JobId)
    requires Enabled(st, ev) && id in st.jobs && SafeJob(id, st.jobs[id], st.ingested, st.nextSession)
    requires ByDrainer(ev) ==> SafeDrainer(st.jobs, st.ingested, st.nextSession, st.drainers[ev.d])
    ensures id in Table(st, ev) && SafeJob(id, Table(st, ev)[id], st.ingested, Apply(st, ev).nextSession)
  {
    TableOf(st, ev);
    TableEvolves(st, ev);
    match ev
    case RetireSession(d, _) => RetiredIsIngested(st, d, id);
    case RetireEach(d) => RetiredIsIngested(st, d, id);
    case ReplyDone(d) => LandedIsIngested(st, d, id);
    case _ =>
  }

  lemma RetiredIsIngested(st: State, d: DrainerId, id: JobId)
    requires d in st.drainers && SafeDrainer(st.jobs, st.ingested, st.nextSession, st.drainers[d]) && id in st.jobs
    requires st.drainers[d].phase.Retiring? || st.drainers[d].phase.RetiringEach?
    ensures Claims(st.drainers[d].phase, id) ==>
      Ingestable(st.jobs[id].payload) && (st.jobs[id].stream, id) in st.ingested
  {
    assert Claims(st.drainers[d].phase, id) ==> id in st.drainers[d].phase.items;
  }

  lemma LandedIsIngested(st: State, d: DrainerId, id: JobId)
    requires d in st.drainers && SafeDrainer(st.jobs, st.ingested, st.nextSession, st.drainers[d]) && id in st.jobs
    requires st.drainers[d].phase.Landed?
    ensures id == st.drainers[d].phase.items[0] ==>
      Ingestable(st.jobs[id].payload) && (st.jobs[id].stream, id) in st.ingested
  {
    var p := st.drainers[d].phase;
    if id == p.items[0] {
      assert id in p.items && id in p.items[..1];
      assert Claims(p, id);
    }
  }

  /** The drainer that moves. */
  lemma MoverStaysSafe(st: State, ev: Event)
    requires Safe(st) && Enabled(st, ev) && ByDrainer(ev) && ev.d in Apply(st, ev).drainers
    ensures var st' := Apply(st, ev); SafeDrainer(st'.jobs, st'.ingested, st'.nextSession, st'.drainers[ev.d])
  {
    var mine, st' := st.drainers[ev.d], Apply(st, ev);
    assert SafeDrainer(st.jobs, st.ingested, st.nextSession, mine);
    match ev
    case Claim(d, batch) => ClaimIsSafe(st, d, batch);
    case Scan(d) => ScanIsSafe(st, d);
    case BatchOk(d) => BatchOkIsSafe(st, d);
    case RetireSession(d, fast) => RetireIsSafe(st, d, fast);
    case AttemptOk(d) => AttemptIsSafe(st, d);
    case AttemptFail(d) => if mine.phase.attempts + 1 >= MAX_ATTEMPTS { ReplyIsSafe(st, ev); }
    case ReplyDone(d) => ReplyIsSafe(st, ev);
    case _ =>
  }

  lemma ClaimIsSafe(st: State, d: DrainerId, batch: seq<JobId>)
    requires Safe(st) && Enabled(st, Claim(d, batch))
    ensures var st' := Apply(st, Claim(d, batch)); SafeDrainer(st'.jobs, st'.ingested, st'.nextSession, st'.drainers[d])
  {
    var st' := Apply(st, Claim(d, batch));
    forall id | Under(st'.jobs, st.nextSession, id) ensures id in batch {
      assert SafeJob(id, st.jobs[id], st.ingested, st.nextSession);
    }
  }

  lemma FirstAndRest(ids: seq<JobId>)
    requires ids != []
    ensures forall id :: id in ids <==> id == ids[0] || id in ids[1..]
  {
    assert ids == [ids[0]] + ids[1..];
  }

  lemma ScanIsSafe(st: State, d: DrainerId)
    requires Safe(st) && Enabled(st, Scan(d))
    ensures var st' := Apply(st, Scan(d)); SafeDrainer(st'.jobs, st'.ingested, st'.nextSession, st'.drainers[d])
  {
    var mine, st' := st.drainers[d], Apply(st, Scan(d));
    var p, p' := mine.phase, st'.drainers[d].phase;
    assert SafeDrainer(st.jobs, st.ingested, st.nextSession, mine);
    FirstAndRest(p.rest);
    assert Claims(p, p.rest[0]);
    forall id | Claims(p', id) ensures Claims(p, id) { }
    forall id | Under(st'.jobs, p.session, id) ensures Claims(p', id) { assert Under(st.jobs, p.session, id); }
  }

  lemma BatchOkIsSafe(st: State, d: DrainerId)
    requires Safe(st) && Enabled(st, BatchOk(d))
    ensures var st' := Apply(st, BatchOk(d)); SafeDrainer(st'.jobs, st'.ingested, st'.nextSession, st'.drainers[d])
  {
    var mine, st' := st.drainers[d], Apply(st, BatchOk(d));
    assert SafeDrainer(st.jobs, st.ingested, st.nextSession, mine);
    forall id | id in mine.phase.items ensures (mine.stream, id) in st'.ingested {
      assert id in Ids(mine.phase.items);
    }
    assert forall id :: Claims(Retiring(mine.phase.session, mine.phase.items), id) <==> Claims(mine.phase, id);
  }

  lemma RetireIsSafe(st: State, d: DrainerId, fast: bool)
    requires Safe(st) && Enabled(st, RetireSession(d, fast))
    ensures var st' := Apply(st, RetireSession(d, fast)); SafeDrainer(st'.jobs, st'.ingested, st'.nextSession, st'.drainers[d])
  {
    var mine, st' := st.drainers[d], Apply(st, RetireSession(d, fast));
    assert SafeDrainer(st.jobs, st.ingested, st.nextSession, mine);
    assert AllIngestable(st'.jobs, mine.phase.items) && AllIngested(mine.stream, mine.phase.items, st'.ingested);
    assert forall id :: Claims(RetiringEach(mine.phase.session, mine.phase.items), id) <==> Claims(mine.phase, id);
    assert forall id :: Under(st'.jobs, mine.phase.session, id) ==> Under(st.jobs, mine.phase.session, id);
  }

  lemma AttemptIsSafe(st: State, d: DrainerId)
    requires Safe(st) && Enabled(st, AttemptOk(d))
    ensures var st' := Apply(st, AttemptOk(d)); SafeDrainer(st'.jobs, st'.ingested, st'.nextSession, st'.drainers[d])
  {
    var mine, st' := st.drainers[d], Apply(st, AttemptOk(d));
    assert SafeDrainer(st.jobs, st.ingested, st.nextSession, mine);
    var first := mine.phase.items[0];
    assert first in mine.phase.items;
    forall id | id in mine.phase.items[..1] ensures (mine.stream, id) in st'.ingested {
      assert id == first;
    }
    assert forall id :: Claims(Landed(mine.phase.session, mine.phase.items), id) <==> Claims(mine.phase, id);
  }

  /** After a terminal reply to the first job, the rest is what is still held. */
  lemma ReplyIsSafe(st: State, ev: Event)
    requires Safe(st) && Enabled(st, ev)
    requires ev.ReplyDone? || (ev.AttemptFail? && st.drainers[ev.d].phase.attempts + 1 >= MAX_ATTEMPTS)
    ensures var st' := Apply(st, ev); SafeDrainer(st'.jobs, st'.ingested, st'.nextSession, st'.drainers[ev.d])
  {
    var mine, st' := st.drainers[ev.d], Apply(st, ev);
    var items, p' := mine.phase.items, st'.drainers[ev.d].phase;
    assert SafeDrainer(st.jobs, st.ingested, st.nextSession, mine);
    FirstAndRest(items);
    forall id | Claims(p', id) ensures Claims(mine.phase, id) { }
    forall id | Under(st'.jobs, mine.phase.session, id) ensures id in items[1..] {
      assert Under(st.jobs, mine.phase.session, id);
      assert Claims(mine.phase, id);
    }
  }

  lemma StepStaysSafe(st: State, ev: Event)
    requires Safe(st) && Enabled(st, ev)
    ensures Safe(Apply(st, ev))
  {
    JobsStaySafe(st, ev);
    DrainersStaySafe(st, ev);
  }

  lemma JobsStaySafe(st: State, ev: Event)
    requires Safe(st) && Enabled(st, ev)
    ensures JobsSafe(Apply(st, ev))
  {
    var st' := Apply(st, ev);
    TableOf(st, ev);
    TableEvolves(st, ev);
    forall id | id in st'.jobs ensures SafeJob(id, st'.jobs[id], st'.ingested, st'.nextSession) {
      if id in st.jobs { JobStaysSafe(st, ev, id); }
    }
  }

  lemma DrainersStaySafe(st: State, ev: Event)
    requires Safe(st) && Enabled(st, ev)
    ensures DrainersSafe(Apply(st, ev))
  {
    var st' := Apply(st, ev);
    StepEvolves(st, ev);
    forall d | d in st'.drainers ensures SafeDrainer(st'.jobs, st'.ingested, st'.nextSession, st'.drainers[d]) {
      if ByDrainer(ev) && d == ev.d {
        MoverStaysSafe(st, ev);
      } else {
        OthersUnmoved(st, ev, d);
        if d in st.drainers {
          BystanderStaysSafe(st.jobs, st'.jobs, st.ingested, st'.ingested, st.nextSession, st'.nextSession, st.drainers[d]);
        }
      }
    }
  }

  lemma OthersUnmoved(st: State, ev: Event, d: DrainerId)
    requires Enabled(st, ev) && d in Apply(st, ev).drainers && !(ByDrainer(ev) && d == ev.d)
    ensures if d in st.drainers then Apply(st, ev).drainers[d] == st.drainers[d] else Apply(st, ev).drainers[d].phase == Standby
  {
  }
}
