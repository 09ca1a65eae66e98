/** The locked sections of WebJobs: each function is what one critical section does to the state
    the mutex protects. `write` says whether the durable write of that section succeeded. */
module JobCore {
  import opened Common
  import opened Claims
  import opened JobModel
  import opened JobFeed
  import opened JobHolds

  datatype Fault = Forbidden | NotFound | Conflict | Busy | Canceled | InvalidPhase | InvalidSnapshot | WriteFailed

  /** A commit that replaces one job. */
  function Put(c: Core, actor: Id, op: Operation, j: Job): Core {
    Commit(c, actor, j.id, op, c.store.(jobs := c.store.jobs[j.id := j]))
  }

  /** Calling the cancel function kept for a job, when there is one. */
  function EndContext(c: Core, id: Id): Core {
    if id in c.cancels then c.(dead := c.dead + {c.cancels[id]}) else c
  }

  function Release(c: Core, id: Id): Core { EndContext(c, id).(cancels := c.cancels - {id}) }

  // ---------- planning and starting ----------

  predicate ValidPlan(p: SavedPlan) {
    && p.actor != "" && p.fingerprint == p.prepared.fingerprint && ValidPrepared(p.prepared)
  }

  function CreatePlan(c: Core, p: SavedPlan): Core {
    Commit(c, p.actor, "", PlanCreated, c.store.(plans := c.store.plans[p.id := p]))
  }

  /** The digest input of an idempotency key. Digests are taken as injective. */
  function KeyText(actor: Id, key: string): string { actor + ":" + key }

  datatype Verdict = Replayed(job: Id) | Fresh(plan: SavedPlan) | Rejected(fault: Fault)

  function Acceptance(s: Store, a: Actor, plan: Id, key: string, now: int): Verdict {
    var k := KeyText(a.id, key);
    if k in s.keys then (if s.keys[k].body != plan then Rejected(Conflict) else Replayed(s.keys[k].job))
    else if plan !in s.plans || s.plans[plan].actor != a.id then Rejected(NotFound)
    else if now >= s.plans[plan].expiresAt then Rejected(Conflict)
    else Fresh(s.plans[plan])
  }

  function NewJob(a: Actor, plan: Id, p: SavedPlan, id: Id, now: int): Job {
    Job(id, a.id, p.input.workspace, plan, p.input.operation, now, Accepted, [], p.input.retention, Unknown,
        NoReason, "", [], [], [], None, None)
  }

  /** The second critical section of Start: `p` was read by the first one and `current` is what the
      engine prepared in between. */
  function StartVerdict(s: Store, a: Actor, plan: Id, key: string, p: SavedPlan, current: Prepared,
                        launched: map<Id, set<string>>, now: int): Verdict
  {
    match Acceptance(s, a, plan, key, now)
    case Fresh(latest) =>
      if !ValidPrepared(current) || current.fingerprint != p.prepared.fingerprint || current.claims != p.prepared.claims
         || latest.prepared.fingerprint != current.fingerprint ||
            latest.prepared.claims != current.claims then Rejected(Conflict)
      else if exists id :: id in s.jobs && Blocks(s, launched, s.jobs[id], p.input.workspace, p.prepared.claims) then
        Rejected(Busy)
      else Fresh(latest)
    case other => other
  }

  function Accept(c: Core, a: Actor, key: string, j: Job, ctx: nat): Core {
    Commit(c, a.id, j.id, JobAccepted,
           c.store.(jobs := c.store.jobs[j.id := j], keys := c.store.keys[KeyText(a.id, key) := Key(j.plan, j.id)]))
      .(cancels := c.cancels[j.id := ctx])
  }

  // ---------- the executor ----------

  function ProgressFault(c: Core, id: Id, p: Phase): Option<Fault>
    requires id in c.store.jobs
  {
    var j := c.store.jobs[id];
    if j.state == Cancelling || Terminal(j.state) then Some(Canceled)
    else if j.plan !in c.store.plans || p.name !in c.store.plans[j.plan].prepared.phases
            || !(p.state == PhaseRunning || p.state == PhaseSucceeded || p.state == PhaseFailed) then Some(InvalidPhase)
    else None
  }

  function Progress(c: Core, id: Id, p: Phase, write: bool): Core
    requires id in c.store.jobs
  {
    var j := c.store.jobs[id];
    if ProgressFault(c, id, p).None? && write then Put(c, j.actor, JobPhase, j.(phases := PutPhase(j.phases, p))) else c
  }

  function RecordRunning(c: Core, id: Id, write: bool): Core
    requires id in c.store.jobs
  {
    var j := c.store.jobs[id];
    if write then Put(c, j.actor, JobRunning, MarkRunning(j)) else c
  }

  function RefuseBeforeRunning(c: Core, id: Id, error: JobError, write: bool): Core
    requires id in c.store.jobs
  {
    var j := c.store.jobs[id];
    if write then Release(Put(c, j.actor, JobEnded(Failed), Refuse(j, error)), id) else c
  }

  /** Clean only when requested and still authorized. */
  predicate WantsCleanup(j: Job) { j.retention == Cleanup && (j.reason == NoReason || j.reason == ByUser) }

  function DecideCleanup(c: Core, id: Id, cleanup: nat): Core
    requires id in c.store.jobs
  {
    if WantsCleanup(c.store.jobs[id]) then EndContext(c, id).(cancels := c.cancels[id := cleanup]) else c
  }

  function FinishJob(c: Core, id: Id, r: EngineResult, failed: bool, message: string, now: int, write: bool): Core
    requires id in c.store.jobs
  {
    var j := c.store.jobs[id];
    if write then
      Release(Put(c, j.actor, JobEnded(FinalState(j, r, failed)), Finish(j, r, failed, message, now)), id) else c
  }

  // ---------- cancelling, revoking, reconciling ----------

  function CancelLocked(c: Core, actor: Id, id: Id, reason: Reason, write: bool): Core
    requires id in c.store.jobs
  {
    if write then EndContext(Put(c, actor, CancelRequested, RequestCancel(c.store.jobs[id], reason)), id) else c
  }

  function CancelFault(c: Core, a: Actor, id: Id): Option<Fault> {
    if id !in c.store.jobs then Some(NotFound)
    else if c.store.jobs[id].actor != a.id && a.role != "admin" then Some(Forbidden)
    else None
  }

  /** A cancellation with a note is two commits under one lock; `note` is the second write. */
  function CancelJob(c: Core, a: Actor, id: Id, message: string, write: bool, note: bool): Core {
    if CancelFault(c, a, id).Some? || Terminal(c.store.jobs[id].state) || !write then c
    else
      var c1 := CancelLocked(c, a.id, id, ByUser, true);
      if message == "" || !note || id !in c1.store.jobs then c1
      else Put(c1, a.id, CancelNote, c1.store.jobs[id].(cancelMessage := message))
  }

  predicate Uses(s: Store, j: Job, credential: Id) {
    || credential == ""
    || (j.plan in s.plans &&
       (credential in s.plans[j.plan].input.credentials.Values || credential in s.plans[j.plan].input.accounts.Values))
  }

  /** The jobs a revocation cancels. */
  predicate Revoked(s: Store, id: Id, owner: Id, credential: Id) {
    id in s.jobs && s.jobs[id].actor == owner && !Terminal(s.jobs[id].state) && Uses(s, s.jobs[id], credential)
  }

  function ReconcileJob(c: Core, actor: Id, id: Id, o: Outcome, write: bool): Core
    requires id in c.store.jobs
  {
    if write then Put(c, actor, JobReconciled, Reconcile(c.store.jobs[id], o)) else c
  }

  // ---------- opening ----------

  ghost predicate SnapshotValid(s: Store) {
    && (forall id :: id in s.plans ==> s.plans[id].id == id && ValidPlan(s.plans[id]))
    && (forall k :: k in s.keys ==> s.keys[k].job in s.jobs)
    && (forall id :: id in s.jobs ==> JobMatchesPlan(s, id))
  }

  predicate JobMatchesPlan(s: Store, id: Id)
    requires id in s.jobs
  {
    var j := s.jobs[id];
    && j.id == id && j.plan in s.plans && s.plans[j.plan].actor == j.actor
    && s.plans[j.plan].workspace == j.workspace && s.plans[j.plan].operation == j.operation
  }

  function ResourcesOf(s: Store, j: Job): seq<string> { if j.plan in s.plans then s.plans[j.plan].resources else [] }

  function InterruptAll(s: Store): Store {
    s.(jobs := map id | id in s.jobs :: Interrupt(s.jobs[id], ResourcesOf(s, s.jobs[id])))
  }

  predicate AnyLive(s: Store) { exists id :: id in s.jobs && !Terminal(s.jobs[id].state) }

  function Loaded(s: Store, instance: string): Core { Core(s, instance, [], map[], 0, map[], {}) }

  /** A server opened on a snapshot it accepts, once its own first write succeeded. */
  function Opened(s: Store, instance: string): Core {
    if AnyLive(s) then Commit(Loaded(s, instance), "system", "", JobsInterrupted, InterruptAll(s))
    else Loaded(s, instance)
  }
}
