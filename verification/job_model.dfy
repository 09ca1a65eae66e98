/** The durable records of the job protocol and what each committed change does to one job. */
module JobModel {
  import opened Common
  import opened Claims

  type Id = string

  datatype JobState = Accepted | Running | Cancelling | Succeeded | Failed | Cancelled | Interrupted

  predicate Terminal(s: JobState) { s.Succeeded? || s.Failed? || s.Cancelled? || s.Interrupted? }

  datatype Reason = NoReason | ByUser | CredentialRevoked | AccountRevoked

  predicate Revocation(r: Reason) { r.CredentialRevoked? || r.AccountRevoked? }

  datatype Retention = Retain | Cleanup

  /** Unreported is the engine's empty answer; no stored job keeps it after it ends. */
  datatype Disposition = Unreported | Unknown | Retained | Cleaned | CleanupFailed | Reported(text: string)

  datatype PhaseState = PhaseRunning | PhaseSucceeded | PhaseFailed | PhaseCancelled | PhaseOther(text: string)

  datatype Phase = Phase(name: string, state: PhaseState, finishedAt: int, message: string)

  datatype JobError = JobError(code: string, message: string)

  datatype Outcome = Absent | Present | Unverified

  datatype Job = Job(
    id: Id, actor: Id, workspace: Id, plan: Id, operation: string, createdAt: int,
    state: JobState, phases: seq<Phase>, retention: Retention, disposition: Disposition,
    reason: Reason, cancelMessage: string, runIds: seq<string>, effects: seq<string>,
    unresolved: seq<string>, error: Option<JobError>, reconciliation: Option<Outcome>)

  datatype Actor = Actor(id: Id, role: string)

  predicate CanEdit(a: Actor) { a.id != "" && (a.role == "admin" || a.role == "operator") }

  datatype Prepared = Prepared(fingerprint: string, claims: seq<Claim>, phases: seq<string>)

  datatype PlanInput = PlanInput(workspace: Id, operation: string, retention: Retention,
                                 credentials: map<string, Id>, accounts: map<string, Id>)

  datatype SavedPlan = SavedPlan(id: Id, actor: Id, workspace: Id, operation: string, fingerprint: string,
                                 expiresAt: int, resources: seq<string>, input: PlanInput, prepared: Prepared)

  /** What a user asks to be planned; the retention is text. */
  datatype PlanAsk = PlanAsk(workspace: Id, operation: string, retention: string,
                             credentials: map<string, Id>, accounts: map<string, Id>)

  const PLAN_LIFETIME: int := 15 * 60 * 1_000_000_000

  /** Asking for no retention is asking to retain; any other text is refused. */
  function RetentionOf(text: string): Option<Retention> {
    if text == "" || text == "retain" then Some(Retain) else if text == "cleanup" then Some(Cleanup) else None
  }

  datatype Key = Key(body: Id, job: Id)

  datatype Operation =
    | PlanCreated | JobAccepted | JobRunning | JobPhase | CancelRequested | CancelNote
    | JobEnded(state: JobState) | JobReconciled | JobsInterrupted

  datatype Entry = Entry(actor: Id, job: Id, operation: Operation)

  datatype Store = Store(plans: map<Id, SavedPlan>, jobs: map<Id, Job>, keys: map<string, Key>, audit: seq<Entry>)

  predicate NeedsCheck(j: Job) { Terminal(j.state) && (j.state == Interrupted || j.disposition == Unknown) }

  // ---------- what a plan must satisfy ----------

  predicate HexDigit(c: char) { '0' <= c <= '9' || 'a' <= c <= 'f' || 'A' <= c <= 'F' }

  predicate ValidClaim(c: Claim) {
    && c.host != "" && (c.dataPath != "" || c.ports != [] || c.executable != "")
    && (c.executable != "" ==> c.dataPath == "" && c.ports == [] && '/' !in c.executable && '\0' !in c.executable)
    && (c.dataPath != "" ==> c.dataPath[0] == '/' && '\0' !in c.dataPath)
    && forall p :: p in c.ports ==> 1 <= p <= 65535
  }

  /** validatePrepared without its JSON syntax test. */
  predicate ValidPrepared(p: Prepared) {
    && |p.fingerprint| == 64 && (forall i :: 0 <= i < 64 ==> HexDigit(p.fingerprint[i]))
    && p.claims != [] && forall c :: c in p.claims ==> ValidClaim(c)
  }

  /** How a plan names what it will occupy; idle claims are not named. */
  function ResourceTexts(claims: seq<Claim>): seq<string> {
    if claims == [] then []
    else
      var c := claims[|claims| - 1];
      ResourceTexts(claims[..|claims| - 1]) +
        if c.idle then []
        else [if c.executable != "" then c.host + ":process:" + c.executable else c.host + ":" + c.dataPath]
  }

  // ---------- the changes a commit makes to one job ----------

  /** A reported phase replaces the first phase of that name, or is added. */
  function PutPhase(phases: seq<Phase>, p: Phase): (r: seq<Phase>)
    ensures p in r && |phases| <= |r| <= |phases| + 1
  {
    if phases == [] then [p]
    else if phases[0].name == p.name then [p] + phases[1..]
    else [phases[0]] + PutPhase(phases[1..], p)
  }

  function MarkRunning(j: Job): Job { if j.state == Accepted then j.(state := Running) else j }

  function Refuse(j: Job, error: JobError): Job {
    if j.state != Accepted then j else j.(state := Failed, disposition := Retained, error := Some(error))
  }

  /** Ordinary cancellation never replaces an earlier revocation, and a revocation retains. */
  function RequestCancel(j: Job, reason: Reason): Job {
    j.(state := Cancelling,
       reason := if j.reason == NoReason || reason != ByUser then reason else j.reason,
       retention := if reason != ByUser then Retain else j.retention)
  }

  datatype EngineResult = EngineResult(runIds: seq<string>, effects: seq<string>, unresolved: seq<string>,
                                       disposition: Disposition)

  const NO_RESULT := EngineResult([], [], [], Unreported)

  /** What a finished Cleanup adds to the result of Execute. */
  function WithCleanup(r: EngineResult, cleaned: EngineResult, failed: bool): EngineResult {
    EngineResult(r.runIds, r.effects + cleaned.effects,
                 if failed then r.unresolved + cleaned.unresolved else cleaned.unresolved,
                 if failed then CleanupFailed else cleaned.disposition)
  }

  function FinalState(j: Job, r: EngineResult, failed: bool): (s: JobState)
    ensures Terminal(s)
  {
    if j.reason != NoReason then (if r.disposition == CleanupFailed then Failed else Cancelled)
    else if failed then Failed
    else Succeeded
  }

  function FinalDisposition(j: Job, r: EngineResult): Disposition {
    if r.disposition != Unreported then r.disposition
    else if Revocation(j.reason) then Retained
    else Unknown
  }

  function EndPhase(p: Phase, s: JobState, now: int): Phase {
    if p.state != PhaseRunning then p
    else p.(state := match s
      case Succeeded => PhaseSucceeded case Failed => PhaseFailed case _ => PhaseCancelled, finishedAt := now)
  }

  function EndPhases(phases: seq<Phase>, s: JobState, now: int): (r: seq<Phase>)
    ensures |r| == |phases|
    ensures forall i :: 0 <= i < |r| ==> r[i] == EndPhase(phases[i], s, now)
  {
    seq(|phases|, i requires 0 <= i < |phases| => EndPhase(phases[i], s, now))
  }

  function Finish(j: Job, r: EngineResult, failed: bool, message: string, now: int): Job {
    var s := FinalState(j, r, failed);
    j.(state := s, disposition := FinalDisposition(j, r), phases := EndPhases(j.phases, s, now),
       runIds := j.runIds + r.runIds, effects := j.effects + r.effects, unresolved := j.unresolved + r.unresolved,
       error := if message != "" then Some(JobError("engine_error", message)) else j.error)
  }

  function Reconcile(j: Job, o: Outcome): Job {
    match o
    case Absent => j.(reconciliation := Some(o), disposition := Cleaned, unresolved := [])
    case Present => j.(reconciliation := Some(o), disposition := Retained, unresolved := [])
    case Unverified => j.(reconciliation := Some(o), disposition := Unknown)
  }

  const RESTARTED := JobError("server_restarted",
                              "Server restarted; inspect retained resources before starting another operation.")

  function Interrupt(j: Job, resources: seq<string>): Job {
    if Terminal(j.state) then j
    else j.(state := Interrupted, disposition := Unknown, error := Some(RESTARTED),
            unresolved := j.unresolved + resources)
  }

  // ---------- the order in which a job may change ----------

  predicate SameIdentity(a: Job, b: Job) {
    && a.id == b.id && a.actor == b.actor && a.workspace == b.workspace && a.plan == b.plan
    && a.operation == b.operation && a.createdAt == b.createdAt
  }

  /** What no later commit of any run may undo. */
  ghost predicate JobLater(a: Job, b: Job) {
    && SameIdentity(a, b)
    && (Terminal(a.state) ==>
       b.state == a.state && b.reason == a.reason && b.retention == a.retention && b.phases == a.phases)
    && (a.reason != NoReason ==> b.reason != NoReason)
    && (Revocation(a.reason) ==> Revocation(b.reason))
    && (a.retention == Retain ==> b.retention == Retain)
    && (a.state != Accepted ==> b.state != Accepted)
  }

  /** A job as the protocol keeps it. */
  predicate JobShape(j: Job) {
    && (j.state == Cancelling ==> j.reason != NoReason)
    && (j.state == Accepted || j.state == Running ==> j.reason == NoReason)
    && (Revocation(j.reason) ==> j.retention == Retain)
    && (Terminal(j.state) ==> j.disposition != Unreported)
  }
}
