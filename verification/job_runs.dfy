/** The job protocol as a step system. Every critical section, every engine call that returns and every
    restart is one step; the engine, the clock, the network and the disk choose freely. */
module JobRuns {
  import opened Common
  import opened JobModel
  import opened JobFeed
  import opened JobHolds
  import opened JobCore
  import opened JobSafety

  /** How an executor returned: having recorded the end of the job, having refused it while it was
      in state `found`, or because a write failed. */
  datatype Ending = Finished | Refused(found: JobState) | Stopped

  /** Where a job's executor is between two of its critical sections. */
  datatype Pc =
    | Admitting | Refusing | Admitted | Recorded(before: JobState) | Executing
    | Executed(result: EngineResult, failed: bool)
    | Decided(result: EngineResult, failed: bool, clean: bool, cleanup: nat)
    | Cleaning(result: EngineResult, failed: bool, cleanup: nat)
    | Finishing(result: EngineResult, failed: bool)
    | Ended(how: Ending)

  datatype Worker = Worker(ctx: nat, pc: Pc)

  /** A Start call whose first critical section passed and whose Prepare is running. */
  datatype Starting = Starting(actor: Actor, plan: Id, key: string, saved: SavedPlan)

  /** One server process: the locked state, the executors, the calls in flight, what each subscriber
      has taken from its channel, and how many contexts exist. */
  datatype System = System(core: Core, workers: map<Id, Worker>, starts: map<nat, Starting>,
                           checks: set<Id>, taken: map<nat, seq<Change>>, contexts: nat)

  datatype Action =
    | MakePlan(plan: SavedPlan)
    | BeginStart(call: nat, actor: Actor, planId: Id, key: string, now: int)
    | FinishStart(call: nat, current: Prepared, launched: map<Id, set<string>>, job: Id, now: int)
    | DropStart(call: nat)
    | Admit(job: Id, refuse: bool)
    | RefuseRun(job: Id, error: JobError, write: bool)
    | Record(job: Id, write: bool)
    | Launch(job: Id, allowed: bool)
    | Report(job: Id, phase: Phase)
    | EngineReturn(job: Id, result: EngineResult, failed: bool)
    | Decide(job: Id)
    | CallCleanup(job: Id)
    | CleanupReturn(job: Id, cleaned: EngineResult, failed: bool)
    | SkipCleanup(job: Id)
    | FinishRun(job: Id, message: string, now: int, write: bool)
    | Cancel(actor: Actor, job: Id, note: string, noteWritten: bool)
    | Revoke(job: Id, owner: Id, credential: Id, reason: Reason)
    | BeginCheck(job: Id)
    | EndCheck(actor: Actor, job: Id, outcome: Outcome)
    | Subscribe(sub: nat, cursor: string)
    | Receive(sub: nat)
    | Unsubscribe(sub: nat)
    | Expire(ctx: nat)
    | Restart(instance: string)

  predicate At(s: System, id: Id) { id in s.workers && id in s.core.store.jobs }

  predicate Enabled(s: System, a: Action) {
    match a
    case MakePlan(p) =>
      p.id !in s.core.store.plans && p.id != "" && ValidPlan(p) && p.input.workspace == p.workspace &&
          p.input.operation == p.operation
    case BeginStart(call, actor, plan, key, now) =>
      call !in s.starts && CanEdit(actor) && Acceptance(s.core.store, actor, plan, key, now).Fresh?
    case FinishStart(call, current, launched, job, now) =>
      && call in s.starts && job != "" && job !in s.core.store.jobs
      && var c := s.starts[call];
         StartVerdict(s.core.store, c.actor, c.plan, c.key, c.saved, current, launched, now).Fresh?
    case DropStart(call) => call in s.starts
    case Admit(id, refuse) => At(s, id) && s.workers[id].pc.Admitting? && (refuse ==> s.workers[id].ctx !in s.core.dead)
    case RefuseRun(id, error, write) => At(s, id) && s.workers[id].pc.Refusing?
    case Record(id, write) => At(s, id) && s.workers[id].pc.Admitted?
    case Launch(id, allowed) => At(s, id) && s.workers[id].pc.Recorded?
    case Report(id, phase) => At(s, id)
    case EngineReturn(id, result, failed) => At(s, id) && s.workers[id].pc.Executing?
    case Decide(id) => At(s, id) && s.workers[id].pc.Executed?
    case CallCleanup(id) => At(s, id) && s.workers[id].pc.Decided? && s.workers[id].pc.clean
    case CleanupReturn(id, cleaned, failed) => At(s, id) && s.workers[id].pc.Cleaning?
    case SkipCleanup(id) => At(s, id) && s.workers[id].pc.Decided?
    case FinishRun(id, message, now, write) => At(s, id) && s.workers[id].pc.Finishing?
    case Cancel(actor, id, note, noteWritten) => CanEdit(actor)
    case Revoke(id, owner, credential, reason) => Revocation(reason) && Revoked(s.core.store, id, owner, credential)
    case BeginCheck(id) => id in s.core.store.jobs && NeedsCheck(s.core.store.jobs[id])
    case EndCheck(actor, id, outcome) => id in s.checks && id in s.core.store.jobs
    case Subscribe(sub, cursor) => sub !in s.core.subs && sub !in s.taken && |s.core.subs| < MAX_SUBSCRIBERS
    case Receive(sub) => sub in s.core.subs && sub in s.taken && s.core.subs[sub] != []
    case Unsubscribe(sub) => sub in s.core.subs
    case Expire(ctx) => ctx < s.contexts
    case Restart(instance) => ':' !in instance
  }

  function Step(s: System, id: Id, core: Core, pc: Pc): System
    requires At(s, id)
  {
    s.(core := core, workers := s.workers[id := s.workers[id].(pc := pc)])
  }

  function Kill(c: Core, ctx: nat): Core { c.(dead := c.dead + {ctx}) }

  function Do(s: System, a: Action): System
    requires Enabled(s, a)
  {
    var c := s.core;
    match a
    case MakePlan(p) => s.(core := CreatePlan(c, p))
    case BeginStart(call, actor, plan, key, now) =>
      s.(starts := s.starts[call := Starting(actor, plan, key, Acceptance(c.store, actor, plan, key, now).plan)])
    case FinishStart(call, current, launched, job, now) =>
      var st := s.starts[call];
      s.(core := Accept(c, st.actor, st.key, NewJob(st.actor, st.plan, st.saved, job, now), s.contexts),
         workers := s.workers[job := Worker(s.contexts, Admitting)],
         starts := s.starts - {call}, contexts := s.contexts + 1)
    case DropStart(call) => s.(starts := s.starts - {call})
    case Admit(id, refuse) => Step(s, id, c, if refuse then Refusing else Admitted)
    case RefuseRun(id, error, write) =>
      Step(s, id, RefuseBeforeRunning(c, id, error, write),
           Ended(if write then Refused(c.store.jobs[id].state) else Stopped))
    case Record(id, write) =>
      Step(s, id, RecordRunning(c, id, write), if write then Recorded(c.store.jobs[id].state) else Ended(Stopped))
    case Launch(id, allowed) =>
      Step(s, id, c, if s.workers[id].pc.before == Cancelling || s.workers[id].ctx in c.dead || !allowed
                     then Executed(NO_RESULT, true) else Executing)
    case Report(id, phase) => s.(core := Progress(c, id, phase, true))
    case EngineReturn(id, result, failed) => Step(s, id, c, Executed(result, failed))
    case Decide(id) =>
      var pc := s.workers[id].pc;
      Step(s, id, DecideCleanup(c, id, s.contexts),
           Decided(pc.result, pc.failed, WantsCleanup(c.store.jobs[id]), s.contexts))
        .(contexts := s.contexts + 1)
    case CallCleanup(id) => var pc := s.workers[id].pc; Step(s, id, c, Cleaning(pc.result, pc.failed, pc.cleanup))
    case CleanupReturn(id, cleaned, failed) =>
      var pc := s.workers[id].pc;
      Step(s, id, Kill(c, pc.cleanup), Finishing(WithCleanup(pc.result, cleaned, failed), pc.failed || failed))
    case SkipCleanup(id) =>
      var pc := s.workers[id].pc; Step(s, id, Kill(c, pc.cleanup), Finishing(pc.result, pc.failed))
    case FinishRun(id, message, now, write) =>
      var pc := s.workers[id].pc;
      Step(s, id, FinishJob(c, id, pc.result, pc.failed, message, now, write),
           Ended(if write then Finished else Stopped))
    case Cancel(actor, id, note, noteWritten) => s.(core := CancelJob(c, actor, id, note, true, noteWritten))
    case Revoke(id, owner, credential, reason) => s.(core := CancelLocked(c, "system", id, reason, true))
    case BeginCheck(id) => s.(checks := s.checks + {id})
    case EndCheck(actor, id, outcome) => s.(core := ReconcileJob(c, actor.id, id, outcome, true))
    case Subscribe(sub, cursor) =>
      s.(core := c.(subs := c.subs[sub := Opening(c, cursor)]), taken := s.taken[sub := []])
    case Receive(sub) =>
      s.(core := c.(subs := c.subs[sub := c.subs[sub][1..]]), taken := s.taken[sub := s.taken[sub] + [c.subs[sub][0]]])
    case Unsubscribe(sub) => s.(core := c.(subs := c.subs - {sub}))
    case Expire(ctx) => s.(core := Kill(c, ctx))
    case Restart(instance) => System(Opened(c.store, instance), map[], map[], {}, map[], s.contexts)
  }

  function Initial(instance: string): System {
    System(Loaded(Store(map[], map[], map[], []), instance), map[], map[], {}, map[], 0)
  }

  // ---------- runs ----------

  /** The actions can be taken one after the other from s. */
  ghost predicate Runs(s: System, actions: seq<Action>)
    decreases |actions|
  {
    actions != [] ==> Enabled(s, actions[0]) && Runs(Do(s, actions[0]), actions[1..])
  }

  ghost function Final(s: System, actions: seq<Action>): System
    requires Runs(s, actions)
    decreases |actions|
  {
    if actions == [] then s else Final(Do(s, actions[0]), actions[1..])
  }

  // ---------- the invariant ----------

  ghost predicate CoreOk(c: Core) {
    && StoreOk(c.store) && JournalOk(c) && ':' !in c.instance
    && forall sub :: sub in c.subs ==> |c.subs[sub]| <= BUFFER
  }

  predicate Holds(c: Core, id: Id, ctx: nat) { id in c.cancels && c.cancels[id] == ctx }

  /** What is true of a job and its contexts while its executor is at each point. */
  ghost predicate WorkerOk(c: Core, id: Id, w: Worker)
    requires id in c.store.jobs
  {
    var j := c.store.jobs[id];
    var active := j.state == Running || j.state == Cancelling;
    var cancelSeen := j.reason != NoReason ==> w.ctx in c.dead;
    match w.pc
    case Admitting => (j.state == Accepted || j.state == Cancelling) && Holds(c, id, w.ctx) && cancelSeen
    case Refusing => (j.state == Accepted || j.state == Cancelling) && Holds(c, id, w.ctx) && cancelSeen
    case Admitted => (j.state == Accepted || j.state == Cancelling) && Holds(c, id, w.ctx) && cancelSeen
    case Recorded(before) => active && (before == Accepted || before == Cancelling) && Holds(c, id, w.ctx) && cancelSeen
    case Executing => active && Holds(c, id, w.ctx) && cancelSeen
    case Executed(_, _) => active && Holds(c, id, w.ctx) && cancelSeen
    case Decided(_, _, clean, cleanup) =>
      active && (clean ==> Holds(c, id, cleanup) && (Revocation(j.reason) ==> cleanup in c.dead))
    case Cleaning(_, _, cleanup) => active && Holds(c, id, cleanup) && (Revocation(j.reason) ==> cleanup in c.dead)
    case Finishing(_, _) => active
    case Ended(Finished) => Terminal(j.state) && id !in c.cancels
    case Ended(Refused(found)) =>
      id !in c.cancels &&
          (if found == Accepted then j.state == Failed else found == Cancelling && j.state == Cancelling)
    case Ended(Stopped) => !Terminal(j.state)
  }

  ghost predicate WorkersOk(s: System) {
    && (forall id :: id in s.workers ==> id in s.core.store.jobs && WorkerOk(s.core, id, s.workers[id]))
    && (forall id :: id in s.core.store.jobs && !Terminal(s.core.store.jobs[id].state) ==> id in s.workers)
  }

  ghost predicate CallsOk(s: System) {
    && (forall call :: call in s.starts ==>
          s.starts[call].plan in s.core.store.plans && s.starts[call].saved == s.core.store.plans[s.starts[call].plan])
    && (forall id :: id in s.checks ==> id in s.core.store.jobs && Terminal(s.core.store.jobs[id].state))
  }

  ghost predicate Inv(s: System) { CoreOk(s.core) && WorkersOk(s) && CallsOk(s) }

  // ---------- what a critical section does around the job it names ----------

  /** Only job `id` and its cancel function may differ, and ended contexts stay ended. */
  ghost predicate Touches(c: Core, d: Core, id: Id) {
    && c.store.jobs.Keys <= d.store.jobs.Keys <= c.store.jobs.Keys + {id}
    && (forall x :: x in c.store.jobs && x != id ==> d.store.jobs[x] == c.store.jobs[x])
    && (forall x :: x != id ==>
       (x in c.cancels <==> x in d.cancels) && (x in c.cancels ==> d.cancels[x] == c.cancels[x]))
    && c.dead <= d.dead
  }

  /** A section that leaves the locked state well formed and only moves it forward around one job. */
  ghost predicate Section(c: Core, d: Core, id: Id) {
    CoreOk(d) && StoreLater(c.store, d.store) && Touches(c, d, id)
  }

  lemma PutSection(c: Core, actor: Id, op: Operation, j: Job)
    requires CoreOk(c) && op != JobAccepted && j.id in c.store.jobs && JobShape(j) && JobLater(c.store.jobs[j.id], j)
    ensures var d := Put(c, actor, op, j);
            && Section(c, d, j.id) && d.store.jobs[j.id] == j
            && d.cancels == c.cancels && d.dead == c.dead
  {
    hide StoreOk, StoreLater, JournalOk, JobShape, JobLater, Event;
    ReplacedOk(c.store, actor, op, j);
    CommitKeepsJournal(c, actor, j.id, op, c.store.(jobs := c.store.jobs[j.id := j]));
    assert Put(c, actor, op, j).store == Replaced(c.store, actor, op, j);
  }

  /** Cancel functions of the job and ended contexts do not matter to the rest. */
  ghost predicate SameButContexts(d: Core, e: Core, id: Id) {
    && e == d.(cancels := e.cancels, dead := e.dead) && d.dead <= e.dead
    && forall x :: x != id ==> (x in d.cancels <==> x in e.cancels) && (x in d.cancels ==> e.cancels[x] == d.cancels[x])
  }

  lemma ContextSection(c: Core, d: Core, e: Core, id: Id)
    requires Section(c, d, id) && SameButContexts(d, e, id)
    ensures Section(c, e, id)
  {
    hide StoreOk, StoreLater;
    assert CoreOk(e);
  }

  lemma SameSection(c: Core, id: Id)
    requires CoreOk(c)
    ensures Section(c, c, id)
  {
    hide StoreOk, JournalOk, StoreLater;
    LaterReflexive(c.store);
  }

  lemma OthersUndisturbed(c: Core, d: Core, id: Id, x: Id, w: Worker)
    requires Touches(c, d, id) && x != id && x in c.store.jobs && WorkerOk(c, x, w)
    ensures x in d.store.jobs && WorkerOk(d, x, w)
  {
  }

  ghost predicate OwnWorkerOk(t: System, id: Id) {
    && (id in t.workers ==> id in t.core.store.jobs && WorkerOk(t.core, id, t.workers[id]))
    && (id in t.core.store.jobs && !Terminal(t.core.store.jobs[id].state) ==> id in t.workers)
  }

  lemma SectionKeepsWorkers(s: System, t: System, id: Id)
    requires WorkersOk(s) && Touches(s.core, t.core, id) && OwnWorkerOk(t, id)
    requires forall x :: x != id ==>
               (x in t.workers <==> x in s.workers) && (x in s.workers ==> t.workers[x] == s.workers[x])
    ensures WorkersOk(t)
  {
    hide WorkerOk;
    forall x | x in t.workers ensures x in t.core.store.jobs && WorkerOk(t.core, x, t.workers[x]) {
      if x != id {
        OthersUndisturbed(s.core, t.core, id, x, s.workers[x]);
      }
    }
  }

  lemma SectionKeepsCalls(s: System, t: System)
    requires CallsOk(s) && StoreLater(s.core.store, t.core.store) && t.checks == s.checks
    requires forall call :: call in t.starts ==> call in s.starts && t.starts[call] == s.starts[call]
    ensures CallsOk(t)
  {
    forall x | x in t.checks ensures x in t.core.store.jobs && Terminal(t.core.store.jobs[x].state) {
      assert JobLater(s.core.store.jobs[x], t.core.store.jobs[x]);
    }
  }

  /** A section around one job keeps the invariant once that job's own executor is accounted for. */
  lemma SectionKeepsInv(s: System, t: System, id: Id)
    requires Inv(s) && Section(s.core, t.core, id) && OwnWorkerOk(t, id) && t.checks == s.checks
    requires forall call :: call in t.starts ==> call in s.starts && t.starts[call] == s.starts[call]
    requires forall x :: x != id ==>
               (x in t.workers <==> x in s.workers) && (x in s.workers ==> t.workers[x] == s.workers[x])
    ensures Inv(t) && StoreLater(s.core.store, t.core.store)
  {
    hide CoreOk, WorkersOk, CallsOk, Touches, StoreLater, OwnWorkerOk;
    SectionKeepsWorkers(s, t, id);
    SectionKeepsCalls(s, t);
  }

  // ---------- every step keeps the invariant ----------

  lemma StoredJob(c: Core, id: Id)
    requires CoreOk(c) && id in c.store.jobs
    ensures c.store.jobs[id].id == id && JobShape(c.store.jobs[id]) && id != ""
  {
    assert SnapshotValid(c.store) && ShapesOk(c.store);
    assert JobMatchesPlan(c.store, id);
  }

  /** Steps of an executor that only move it or end contexts. */
  lemma QuietStep(s: System, t: System, id: Id)
    requires Inv(s) && At(s, id) && SameButContexts(s.core, t.core, id)
    requires t.workers.Keys == s.workers.Keys &&
             (forall x :: x in s.workers && x != id ==> t.workers[x] == s.workers[x])
    requires t.starts == s.starts && t.checks == s.checks
    requires WorkerOk(t.core, id, t.workers[id])
    ensures Inv(t) && StoreLater(s.core.store, t.core.store)
  {
    hide CoreOk, WorkerOk, StoreLater;
    LaterReflexive(s.core.store);
    SameSection(s.core, id);
    ContextSection(s.core, s.core, t.core, id);
    SectionKeepsInv(s, t, id);
  }

  lemma WorkerAt(s: System, id: Id)
    requires Inv(s) && At(s, id)
    ensures WorkerOk(s.core, id, s.workers[id])
  {
    hide CoreOk, CallsOk, WorkerOk;
  }

  lemma MoveKeeps(s: System, id: Id, core: Core, pc: Pc, contexts: nat)
    requires Inv(s) && At(s, id) && SameButContexts(s.core, core, id) && WorkerOk(core, id, s.workers[id].(pc := pc))
    ensures Inv(Step(s, id, core, pc).(contexts := contexts)) && StoreLater(s.core.store, core.store)
  {
    hide Inv, WorkerOk, SameButContexts, StoreLater;
    QuietStep(s, Step(s, id, core, pc).(contexts := contexts), id);
  }

  lemma ExecutorMoves(s: System, a: Action)
    requires Inv(s) && Enabled(s, a)
    requires a.Admit? || a.Launch? || a.EngineReturn? || a.CallCleanup? || a.CleanupReturn? || a.SkipCleanup?
    ensures Inv(Do(s, a)) && StoreLater(s.core.store, Do(s, a).core.store)
  {
    hide Inv, StoreLater;
    WorkerAt(s, a.job);
    var t := Do(s, a);
    MoveKeeps(s, a.job, t.core, t.workers[a.job].pc, s.contexts);
  }

  lemma DecideKeeps(s: System, id: Id)
    requires Inv(s) && Enabled(s, Decide(id))
    ensures Inv(Do(s, Decide(id))) && StoreLater(s.core.store, Do(s, Decide(id)).core.store)
  {
    hide Inv, StoreLater;
    WorkerAt(s, id);
    var t := Do(s, Decide(id));
    MoveKeeps(s, id, t.core, t.workers[id].pc, t.contexts);
  }

  lemma RefusedOk(j: Job, error: JobError)
    requires JobShape(j) && !Terminal(j.state)
    ensures JobShape(Refuse(j, error)) && JobLater(j, Refuse(j, error)) && Refuse(j, error).id == j.id
  {
  }

  lemma RefuseSection(c: Core, id: Id, error: JobError)
    requires CoreOk(c) && id in c.store.jobs && !Terminal(c.store.jobs[id].state)
    ensures var d := RefuseBeforeRunning(c, id, error, true);
            Section(c, d, id) && id in d.store.jobs && d.store.jobs[id] == Refuse(c.store.jobs[id], error) &&
                id !in d.cancels
  {
    hide CoreOk, StoreLater, JobShape, JobLater, Commit, Refuse;
    var j := c.store.jobs[id];
    StoredJob(c, id);
    RefusedOk(j, error);
    PutSection(c, j.actor, JobEnded(Failed), Refuse(j, error));
    ContextSection(c, Put(c, j.actor, JobEnded(Failed), Refuse(j, error)), RefuseBeforeRunning(c, id, error, true), id);
  }

  lemma RefuseKeeps(s: System, id: Id, error: JobError, write: bool)
    requires Inv(s) && Enabled(s, RefuseRun(id, error, write))
    ensures Inv(Do(s, RefuseRun(id, error, write))) &&
            StoreLater(s.core.store, Do(s, RefuseRun(id, error, write)).core.store)
  {
    hide StoreLater, CoreOk, WorkersOk, CallsOk, Section, RefuseBeforeRunning, SameButContexts;
    var c := s.core;
    var t := Do(s, RefuseRun(id, error, write));
    WorkerAt(s, id);
    if write {
      RefuseSection(c, id, error);
      SectionKeepsInv(s, t, id);
    } else {
      NotWritten(c, id);
      QuietStep(s, t, id);
    }
  }

  lemma NotWritten(c: Core, id: Id)
    requires id in c.store.jobs
    ensures SameButContexts(c, c, id)
    ensures forall e :: RefuseBeforeRunning(c, id, e, false) == c
    ensures forall r, f, m, n :: FinishJob(c, id, r, f, m, n, false) == c
  {
  }

  lemma LiveStates(j: Job)
    ensures j.state == Accepted || j.state == Running || j.state == Cancelling <==> !Terminal(j.state)
  {
  }

  lemma MarkedOk(j: Job)
    requires JobShape(j) && !Terminal(j.state)
    ensures JobShape(MarkRunning(j)) && JobLater(j, MarkRunning(j)) && MarkRunning(j).id == j.id
  {
  }

  lemma RecordKeeps(s: System, id: Id, write: bool)
    requires Inv(s) && Enabled(s, Record(id, write))
    ensures Inv(Do(s, Record(id, write))) && StoreLater(s.core.store, Do(s, Record(id, write)).core.store)
  {
    hide Inv, CoreOk, StoreLater, JobShape, JobLater, Commit, Terminal;
    var c := s.core;
    var j := c.store.jobs[id];
    var t := Do(s, Record(id, write));
    WorkerAt(s, id);
    LiveStates(j);
    if write {
      InvCore(s);
      StoredJob(c, id);
      MarkedOk(j);
      PutSection(c, j.actor, JobRunning, MarkRunning(j));
      SectionKeepsInv(s, t, id);
    } else {
      QuietStep(s, t, id);
    }
  }

  lemma InvCore(s: System)
    requires Inv(s)
    ensures CoreOk(s.core)
  {
  }

  lemma FinishedOk(j: Job, r: EngineResult, failed: bool, message: string, now: int)
    requires JobShape(j) && (j.state == Running || j.state == Cancelling)
    ensures var k := Finish(j, r, failed, message, now);
            JobShape(k) && JobLater(j, k) && k.id == j.id && Terminal(k.state)
  {
  }

  lemma FinishSection(c: Core, id: Id, r: EngineResult, failed: bool, message: string, now: int)
    requires CoreOk(c) && id in c.store.jobs &&
             (c.store.jobs[id].state == Running || c.store.jobs[id].state == Cancelling)
    ensures var d := FinishJob(c, id, r, failed, message, now, true);
            Section(c, d, id) && id in d.store.jobs && Terminal(d.store.jobs[id].state) && id !in d.cancels
  {
    hide CoreOk, StoreLater, JobShape, JobLater, Commit, Finish;
    var j := c.store.jobs[id];
    var k := Finish(j, r, failed, message, now);
    StoredJob(c, id);
    FinishedOk(j, r, failed, message, now);
    var op := JobEnded(FinalState(j, r, failed));
    PutSection(c, j.actor, op, k);
    ContextSection(c, Put(c, j.actor, op, k), FinishJob(c, id, r, failed, message, now, true), id);
  }

  lemma FinishKeeps(s: System, id: Id, message: string, now: int, write: bool)
    requires Inv(s) && Enabled(s, FinishRun(id, message, now, write))
    ensures Inv(Do(s, FinishRun(id, message, now, write))) &&
            StoreLater(s.core.store, Do(s, FinishRun(id, message, now, write)).core.store)
  {
    hide StoreLater, CoreOk, WorkersOk, CallsOk, Section, FinishJob, SameButContexts;
    var c := s.core;
    var pc := s.workers[id].pc;
    var t := Do(s, FinishRun(id, message, now, write));
    WorkerAt(s, id);
    if write {
      FinishSection(c, id, pc.result, pc.failed, message, now);
      SectionKeepsInv(s, t, id);
    } else {
      NotWritten(c, id);
      QuietStep(s, t, id);
    }
  }

  /** A commit that leaves a job's state and cancel reason alone leaves its executor's facts alone. */
  lemma AnnotateKeeps(s: System, actor: Id, op: Operation, k: Job)
    requires Inv(s) && op != JobAccepted && k.id in s.core.store.jobs && JobShape(k) &&
             JobLater(s.core.store.jobs[k.id], k)
    requires k.state == s.core.store.jobs[k.id].state && k.reason == s.core.store.jobs[k.id].reason
    ensures Inv(s.(core := Put(s.core, actor, op, k))) && StoreLater(s.core.store, Put(s.core, actor, op, k).store)
  {
    hide Inv, CoreOk, StoreLater, JobShape, JobLater, Commit;
    var t := s.(core := Put(s.core, actor, op, k));
    InvCore(s);
    PutSection(s.core, actor, op, k);
    OwnWorkerAt(s, k.id);
    SectionKeepsInv(s, t, k.id);
  }

  lemma OwnWorkerAt(s: System, id: Id)
    requires Inv(s)
    ensures OwnWorkerOk(s, id)
  {
    hide CoreOk, CallsOk;
  }

  lemma ReportKeeps(s: System, id: Id, p: Phase)
    requires Inv(s) && Enabled(s, Report(id, p))
    ensures Inv(Do(s, Report(id, p))) && StoreLater(s.core.store, Do(s, Report(id, p)).core.store)
  {
    hide CoreOk, StoreLater, Commit, WorkerOk;
    var j := s.core.store.jobs[id];
    StoredJob(s.core, id);
    LaterReflexive(s.core.store);
    if ProgressFault(s.core, id, p).None? {
      AnnotateKeeps(s, j.actor, JobPhase, j.(phases := PutPhase(j.phases, p)));
    }
  }

  lemma EndCheckKeeps(s: System, actor: Actor, id: Id, o: Outcome)
    requires Inv(s) && Enabled(s, EndCheck(actor, id, o))
    ensures Inv(Do(s, EndCheck(actor, id, o))) && StoreLater(s.core.store, Do(s, EndCheck(actor, id, o)).core.store)
  {
    hide Inv, CoreOk, StoreLater, Commit;
    InvCore(s);
    StoredJob(s.core, id);
    AnnotateKeeps(s, actor.id, JobReconciled, Reconcile(s.core.store.jobs[id], o));
  }

  lemma CancelOk(j: Job, reason: Reason)
    requires JobShape(j) && !Terminal(j.state) && reason != NoReason
    ensures var k := RequestCancel(j, reason); JobShape(k) && JobLater(j, k) && k.id == j.id
    ensures var k := RequestCancel(j, reason);
            k.state == Cancelling && k.reason != NoReason && (Revocation(reason) ==> Revocation(k.reason))
  {
  }

  lemma CancelLockedSection(c: Core, actor: Id, id: Id, reason: Reason)
    requires CoreOk(c) && id in c.store.jobs && !Terminal(c.store.jobs[id].state) && reason != NoReason
    ensures var d := CancelLocked(c, actor, id, reason, true);
            && Section(c, d, id) && d.store.jobs[id] == RequestCancel(c.store.jobs[id], reason)
            && d.cancels == c.cancels && d.dead == (if id in c.cancels then c.dead + {c.cancels[id]} else c.dead)
  {
    hide CoreOk, StoreLater, JobShape, JobLater, Commit, RequestCancel;
    var k := RequestCancel(c.store.jobs[id], reason);
    StoredJob(c, id);
    CancelOk(c.store.jobs[id], reason);
    PutSection(c, actor, CancelRequested, k);
    ContextSection(c, Put(c, actor, CancelRequested, k), CancelLocked(c, actor, id, reason, true), id);
  }

  lemma CancelledWorker(s: System, actor: Id, id: Id, reason: Reason)
    requires Inv(s) && id in s.core.store.jobs && !Terminal(s.core.store.jobs[id].state) && reason != NoReason
    ensures Inv(s.(core := CancelLocked(s.core, actor, id, reason, true)))
    ensures StoreLater(s.core.store, CancelLocked(s.core, actor, id, reason, true).store)
  {
    hide CoreOk, StoreLater, JobShape, JobLater, CancelLocked;
    var t := s.(core := CancelLocked(s.core, actor, id, reason, true));
    CancelLockedSection(s.core, actor, id, reason);
    StoredJob(s.core, id);
    CancelOk(s.core.store.jobs[id], reason);
    assert id in s.workers && WorkerOk(s.core, id, s.workers[id]);
    SectionKeepsInv(s, t, id);
  }

  lemma CancelKeeps(s: System, actor: Actor, id: Id, note: string, noteWritten: bool)
    requires Inv(s)
    ensures Inv(s.(core := CancelJob(s.core, actor, id, note, true, noteWritten)))
    ensures StoreLater(s.core.store, CancelJob(s.core, actor, id, note, true, noteWritten).store)
  {
    hide CoreOk, StoreLater, CancelLocked, Commit, WorkerOk;
    LaterReflexive(s.core.store);
    if CancelFault(s.core, actor, id).None? && !Terminal(s.core.store.jobs[id].state) {
      CancelLockedSection(s.core, actor.id, id, ByUser);
      CancelledWorker(s, actor.id, id, ByUser);
      var t := s.(core := CancelLocked(s.core, actor.id, id, ByUser, true));
      if note != "" && noteWritten {
        StoredJob(t.core, id);
        AnnotateKeeps(t, actor.id, CancelNote, t.core.store.jobs[id].(cancelMessage := note));
        LaterTransitive(s.core.store, t.core.store, CancelJob(s.core, actor, id, note, true, noteWritten).store);
      }
    }
  }

  lemma PlanSection(c: Core, p: SavedPlan)
    requires CoreOk(c) && p.id !in c.store.plans && PlanAdded(p, p.id)
    ensures Section(c, CreatePlan(c, p), "") && CreatePlan(c, p).store.jobs == c.store.jobs
  {
    hide StoreOk, StoreLater, JournalOk, Event, PlanAdded;
    PlanOk(c.store, p);
    CommitKeepsJournal(c, p.actor, "", PlanCreated, c.store.(plans := c.store.plans[p.id := p]));
    assert CreatePlan(c, p).store == WithPlan(c.store, p);
  }

  lemma NoEmptyWorker(s: System)
    requires Inv(s)
    ensures "" !in s.workers && "" !in s.core.store.jobs
  {
    hide SnapshotValid, PlansOk, KeysOk, AcceptedOnce, Exclusive, JobShape, JournalOk, WorkerOk, CallsOk;
  }

  lemma PlanKeeps(s: System, p: SavedPlan)
    requires Inv(s) && Enabled(s, MakePlan(p))
    ensures Inv(Do(s, MakePlan(p))) && StoreLater(s.core.store, Do(s, MakePlan(p)).core.store)
  {
    hide StoreLater, CoreOk, WorkersOk, CallsOk, Section, CreatePlan;
    NoEmptyWorker(s);
    PlanSection(s.core, p);
    SectionKeepsInv(s, Do(s, MakePlan(p)), "");
  }

  lemma AcceptSection(c: Core, a: Actor, plan: Id, key: string, current: Prepared, launched: map<Id, set<string>>,
                      id: Id, now: int, ctx: nat)
    requires CoreOk(c) && id != "" && id !in c.store.jobs && plan in c.store.plans
    requires StartVerdict(c.store, a, plan, key, c.store.plans[plan], current, launched, now).Fresh?
    ensures var j := NewJob(a, plan, c.store.plans[plan], id, now);
            var d := Accept(c, a, key, j, ctx);
            Section(c, d, id) && id in d.store.jobs && d.store.jobs[id] == j && Holds(d, id, ctx)
  {
    hide StoreOk, StoreLater, Event, StartVerdict, KeyText;
    var j := NewJob(a, plan, c.store.plans[plan], id, now);
    AcceptOk(c.store, a, plan, key, current, launched, id, now);
    CommitKeepsJournal(c, a.id, id, JobAccepted,
      c.store.(jobs := c.store.jobs[id := j], keys := c.store.keys[KeyText(a.id, key) := Key(plan, id)]));
    assert Accept(c, a, key, j, ctx).store == WithJob(c.store, a, key, j);
  }

  lemma FinishStartKeeps(s: System, call: nat, current: Prepared, launched: map<Id, set<string>>, job: Id, now: int)
    requires Inv(s) && Enabled(s, FinishStart(call, current, launched, job, now))
    ensures Inv(Do(s, FinishStart(call, current, launched, job, now))) &&
            StoreLater(s.core.store, Do(s, FinishStart(call, current, launched, job, now)).core.store)
  {
    hide StoreLater, CoreOk, WorkersOk, Section, Accept, StartVerdict;
    var st := s.starts[call];
    AcceptSection(s.core, st.actor, st.plan, st.key, current, launched, job, now, s.contexts);
    SectionKeepsInv(s, Do(s, FinishStart(call, current, launched, job, now)), job);
  }

  /** Steps that leave the store and the executors alone. */
  lemma BystanderKeeps(s: System, t: System)
    requires Inv(s) && t.workers == s.workers && CallsOk(t)
    requires t.core == s.core.(subs := t.core.subs, dead := t.core.dead) && s.core.dead <= t.core.dead
    requires forall sub :: sub in t.core.subs ==> |t.core.subs[sub]| <= BUFFER
    ensures Inv(t) && StoreLater(s.core.store, t.core.store)
  {
    hide StoreOk, CallsOk, StoreLater;
    LaterReflexive(s.core.store);
  }

  lemma OpeningFits(c: Core, cursor: string)
    requires CoreOk(c)
    ensures |Opening(c, cursor)| <= BUFFER
  {
    hide StoreOk;
    AfterFits(c.journal, if Requested(c, cursor).Ok? then Requested(c, cursor).value else 0);
  }

  lemma {:induction false} AfterFits(j: seq<Change>, v: nat)
    ensures |After(j, v)| <= |j|
  {
    if j != [] { AfterFits(j[1..], v); }
  }

  lemma CallSteps(s: System, a: Action)
    requires Inv(s) && Enabled(s, a) && (a.BeginStart? || a.DropStart? || a.BeginCheck?)
    ensures Inv(Do(s, a)) && StoreLater(s.core.store, Do(s, a).core.store)
  {
    hide CoreOk, WorkerOk, KeyText, StoreLater;
    LaterReflexive(s.core.store);
  }

  lemma ChannelKeeps(s: System, t: System)
    requires Inv(s) && t.workers == s.workers && t.starts == s.starts && t.checks == s.checks
    requires t.core == s.core.(subs := t.core.subs, dead := t.core.dead) && s.core.dead <= t.core.dead
    requires forall sub :: sub in t.core.subs ==> |t.core.subs[sub]| <= BUFFER
    ensures Inv(t) && StoreLater(s.core.store, t.core.store)
  {
    hide StoreOk, CoreOk, WorkersOk, StoreLater;
    assert CallsOk(t);
    BystanderKeeps(s, t);
  }

  lemma ChannelBounds(s: System)
    requires Inv(s)
    ensures forall sub :: sub in s.core.subs ==> |s.core.subs[sub]| <= BUFFER
  {
    hide StoreOk, JournalOk, WorkersOk, CallsOk;
  }

  lemma ChannelSteps(s: System, a: Action)
    requires Inv(s) && Enabled(s, a) && (a.Subscribe? || a.Receive? || a.Unsubscribe? || a.Expire?)
    ensures Inv(Do(s, a)) && StoreLater(s.core.store, Do(s, a).core.store)
  {
    hide StoreLater, CoreOk, WorkersOk, CallsOk, Opening;
    ChannelBounds(s);
    if a.Subscribe? {
      OpeningFits(s.core, a.cursor);
    }
    ChannelKeeps(s, Do(s, a));
  }

  lemma RestartKeeps(s: System, instance: string)
    requires Inv(s) && Enabled(s, Restart(instance))
    ensures Inv(Do(s, Restart(instance))) && StoreLater(s.core.store, Do(s, Restart(instance)).core.store)
  {
    hide StoreOk, StoreLater, JournalOk, SnapshotValid, InterruptAll, Event;
    ReopenSucceeds(s.core.store, instance);
  }

  /** Every step, from any state, keeps the invariant. */
  lemma StepKeepsInv(s: System, a: Action)
    requires Inv(s) && Enabled(s, a)
    ensures Inv(Do(s, a)) && StoreLater(s.core.store, Do(s, a).core.store)
  {
    hide Inv, Do, StoreLater;
    match a
    case MakePlan(p) => PlanKeeps(s, p);
    case FinishStart(call, current, launched, job, now) => FinishStartKeeps(s, call, current, launched, job, now);
    case RefuseRun(id, error, write) => RefuseKeeps(s, id, error, write);
    case Record(id, write) => RecordKeeps(s, id, write);
    case Report(id, phase) => ReportKeeps(s, id, phase);
    case Decide(id) => DecideKeeps(s, id);
    case FinishRun(id, message, now, write) => FinishKeeps(s, id, message, now, write);
    case Cancel(actor, id, note, noteWritten) => CancelStepKeeps(s, actor, id, note, noteWritten);
    case Revoke(id, owner, credential, reason) => RevokeKeeps(s, id, owner, credential, reason);
    case EndCheck(actor, id, outcome) => EndCheckKeeps(s, actor, id, outcome);
    case Restart(instance) => RestartKeeps(s, instance);
    case Admit(_, _) => ExecutorMoves(s, a);
    case Launch(_, _) => ExecutorMoves(s, a);
    case EngineReturn(_, _, _) => ExecutorMoves(s, a);
    case CallCleanup(_) => ExecutorMoves(s, a);
    case CleanupReturn(_, _, _) => ExecutorMoves(s, a);
    case SkipCleanup(_) => ExecutorMoves(s, a);
    case BeginStart(_, _, _, _, _) => CallSteps(s, a);
    case DropStart(_) => CallSteps(s, a);
    case BeginCheck(_) => CallSteps(s, a);
    case _ => ChannelSteps(s, a);
  }

  lemma CancelStepKeeps(s: System, actor: Actor, id: Id, note: string, noteWritten: bool)
    requires Inv(s) && Enabled(s, Cancel(actor, id, note, noteWritten))
    ensures Inv(Do(s, Cancel(actor, id, note, noteWritten))) &&
            StoreLater(s.core.store, Do(s, Cancel(actor, id, note, noteWritten)).core.store)
  {
    hide StoreLater, Inv, CancelJob;
    CancelKeeps(s, actor, id, note, noteWritten);
  }

  lemma RevokeKeeps(s: System, id: Id, owner: Id, credential: Id, reason: Reason)
    requires Inv(s) && Enabled(s, Revoke(id, owner, credential, reason))
    ensures Inv(Do(s, Revoke(id, owner, credential, reason))) &&
            StoreLater(s.core.store, Do(s, Revoke(id, owner, credential, reason)).core.store)
  {
    hide StoreLater, Inv, CancelLocked;
    CancelledWorker(s, "system", id, reason);
  }

  lemma InitialInv(instance: string)
    requires ':' !in instance
    ensures Inv(Initial(instance))
  {
  }

  /** After every run the invariant holds and nothing that must last was undone. */
  lemma {:induction false} RunKeepsInv(s: System, actions: seq<Action>)
    requires Inv(s) && Runs(s, actions)
    ensures Inv(Final(s, actions)) && StoreLater(s.core.store, Final(s, actions).core.store)
    decreases |actions|
  {
    hide Inv, Do, Enabled, StoreLater;
    LaterReflexive(s.core.store);
    if actions != [] {
      StepKeepsInv(s, actions[0]);
      RunKeepsInv(Do(s, actions[0]), actions[1..]);
      LaterTransitive(s.core.store, Do(s, actions[0]).core.store, Final(s, actions).core.store);
    }
  }
}
