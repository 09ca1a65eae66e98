/** What the recorded outcomes of the job protocol mean, in the terms of the engine's answers, the plan's bindings
    and the job's own fields. */
module JobMeaning {
  import opened Common
  import opened Claims
  import opened JobModel
  import opened JobFeed
  import opened JobHolds
  import opened JobCore
  import opened JobSafety
  import opened JobRuns
  import opened JobTheorems
  import JobServer

  // ---------- how a job ends ----------

  /** A step in which the job's engine call fails: the engine is not started although it is this executor's turn,
      or Execute or Cleanup returns an error. */
  predicate BreaksAt(s: System, a: Action, id: Id)
    requires Enabled(s, a)
  {
    match a
    case Launch(job, _) => job == id && !Do(s, a).workers[id].pc.Executing?
    case EngineReturn(job, _, failed) => job == id && failed
    case CleanupReturn(job, _, failed) => job == id && failed
    case _ => false
  }

  ghost predicate BreaksOver(s: System, actions: seq<Action>, id: Id)
    requires Runs(s, actions)
    decreases |actions|
  {
    actions != [] && (BreaksAt(s, actions[0], id) || BreaksOver(Do(s, actions[0]), actions[1..], id))
  }

  /** The disposition the engine has last answered for the job, if `before` was the last one so far. */
  function AnsweredAt(a: Action, id: Id, before: Disposition): Disposition {
    match a
    case EngineReturn(job, result, _) => if job == id then result.disposition else before
    case CleanupReturn(job, cleaned, failed) =>
      if job != id then before else if failed then CleanupFailed else cleaned.disposition
    case _ => before
  }

  function AnsweredOver(actions: seq<Action>, id: Id, before: Disposition): Disposition {
    if actions == [] then before else AnsweredOver(actions[1..], id, AnsweredAt(actions[0], id, before))
  }

  predicate Failing(pc: Pc) {
    match pc
    case Executed(_, failed) => failed
    case Decided(_, failed, _, _) => failed
    case Cleaning(_, failed, _) => failed
    case Finishing(_, failed) => failed
    case _ => false
  }

  function Answer(pc: Pc): Disposition {
    match pc
    case Executed(result, _) => result.disposition
    case Decided(result, _, _, _) => result.disposition
    case Cleaning(result, _, _) => result.disposition
    case Finishing(result, _) => result.disposition
    case _ => Unreported
  }

  /** Where an executor stands after a step, whatever the step does to the store. */
  lemma AnswerStep(s: System, a: Action, id: Id)
    requires Enabled(s, a) && !a.Restart? && At(s, id)
    ensures id in Do(s, a).workers && (s.workers[id].pc.Ended? ==> Do(s, a).workers[id].pc.Ended?)
    ensures var t := Do(s, a);
            !t.workers[id].pc.Ended? ==>
              && (Failing(t.workers[id].pc) <==> Failing(s.workers[id].pc) || BreaksAt(s, a, id))
              && Answer(t.workers[id].pc) == AnsweredAt(a, id, Answer(s.workers[id].pc))
  {
    hide Commit, CreatePlan, Accept, RefuseBeforeRunning, RecordRunning, Progress, DecideCleanup, FinishJob, CancelJob,
         CancelLocked, ReconcileJob, Opening, Opened, StartVerdict, Acceptance;
  }

  lemma StillAt(s: System, a: Action, id: Id)
    requires Inv(s) && Enabled(s, a) && !a.Restart? && At(s, id)
    ensures At(Do(s, a), id)
  {
    hide Inv, Do, Enabled, JobLater;
    AnswerStep(s, a, id);
    StepKeepsInv(s, a);
  }

  lemma {:induction false} AnswersOverRun(s: System, actions: seq<Action>, id: Id)
    requires Inv(s) && At(s, id) && Runs(s, actions) && NoRestart(actions)
    ensures At(Final(s, actions), id)
    ensures s.workers[id].pc.Ended? ==> Final(s, actions).workers[id].pc.Ended?
    ensures var pc := Final(s, actions).workers[id].pc;
            !pc.Ended? ==>
              && (Failing(pc) <==> Failing(s.workers[id].pc) || BreaksOver(s, actions, id))
              && Answer(pc) == AnsweredOver(actions, id, Answer(s.workers[id].pc))
    decreases |actions|
  {
    hide Inv, Do, Enabled, BreaksAt, AnsweredAt, Failing, Answer, StoreLater;
    if actions != [] {
      assert actions[0] in actions && forall b :: b in actions[1..] ==> b in actions;
      AnswerStep(s, actions[0], id);
      StillAt(s, actions[0], id);
      StepKeepsInv(s, actions[0]);
      AnswersOverRun(Do(s, actions[0]), actions[1..], id);
    }
  }

  /** What finish makes of a job, field by field. */
  lemma FinishMeaning(j: Job, r: EngineResult, failed: bool, message: string, now: int)
    ensures var k := Finish(j, r, failed, message, now);
            && (k.state == Succeeded <==> j.reason == NoReason && !failed)
            && (k.state == Cancelled <==> j.reason != NoReason && r.disposition != CleanupFailed)
            && (k.state == Failed <==> k.state != Succeeded && k.state != Cancelled)
            && k.disposition == (if r.disposition != Unreported then r.disposition
                                 else if j.reason == CredentialRevoked || j.reason == AccountRevoked then Retained
                                 else Unknown)
            && k.reason == j.reason && k.retention == j.retention && SameIdentity(j, k)
            && k.runIds == j.runIds + r.runIds && k.effects == j.effects + r.effects
            && k.unresolved == j.unresolved + r.unresolved
            && k.error == (if message != "" then Some(JobError("engine_error", message)) else j.error)
            && |k.phases| == |j.phases|
    ensures var k := Finish(j, r, failed, message, now);
            forall i :: 0 <= i < |j.phases| ==>
              && k.phases[i].name == j.phases[i].name && k.phases[i].message == j.phases[i].message
              && (j.phases[i].state != PhaseRunning ==> k.phases[i] == j.phases[i])
              && (j.phases[i].state == PhaseRunning ==>
                    && k.phases[i].finishedAt == now
                    && (k.phases[i].state == PhaseSucceeded <==> k.state == Succeeded)
                    && (k.phases[i].state == PhaseFailed <==> k.state == Failed)
                    && (k.phases[i].state == PhaseCancelled <==> k.state == Cancelled))
  {
  }

  /** A cleanup that succeeded leaves unresolved what it says; a failed one adds to what Execute left. */
  lemma CleanupMeaning(r: EngineResult, cleaned: EngineResult, failed: bool)
    ensures var w := WithCleanup(r, cleaned, failed);
            && w.runIds == r.runIds && w.effects == r.effects + cleaned.effects
            && (failed ==> w.disposition == CleanupFailed && w.unresolved == r.unresolved + cleaned.unresolved)
            && (!failed ==> w.disposition == cleaned.disposition && w.unresolved == cleaned.unresolved)
  {
  }

  /** From one store to the next the job ended as the engine's answers say: it succeeded exactly when nobody cancelled
      it and nothing broke, and is cancelled exactly when somebody did and no failed cleanup was answered last. Of its
      nodes the last answer is recorded, and without one "retained" after a revocation and "unknown" else. */
  predicate EndsAs(before: Store, after: Store, id: Id, broke: bool, answer: Disposition) {
    && id in before.jobs && id in after.jobs
    && var j, k := before.jobs[id], after.jobs[id];
       && k.reason == j.reason
       && (k.state == Succeeded <==> j.reason == NoReason && !broke)
       && (k.state == Cancelled <==> j.reason != NoReason && answer != CleanupFailed)
       && (k.state == Failed <==> k.state != Succeeded && k.state != Cancelled)
       && k.disposition == (if answer != Unreported then answer
                            else if j.reason == CredentialRevoked || j.reason == AccountRevoked then Retained
                            else Unknown)
  }

  /** Over every run from a job's admission to the written commit of its end, the job ends as the engine calls of that
      run say. */
  lemma EndedAs(s: System, actions: seq<Action>, id: Id, t: System, message: string, now: int)
    requires Inv(s) && At(s, id) && s.workers[id].pc == Admitting && Runs(s, actions) && NoRestart(actions)
    requires t == Final(s, actions) && Enabled(t, FinishRun(id, message, now, true))
    ensures EndsAs(t.core.store, Do(t, FinishRun(id, message, now, true)).core.store, id, BreaksOver(s, actions, id),
                   AnsweredOver(actions, id, Unreported))
  {
    hide Inv, Enabled, Do, BreaksOver, AnsweredOver, Finish, FinalState, StoreLater, CoreOk, Runs, Final;
    AnswersOverRun(s, actions, id);
    RunKeepsInv(s, actions);
    AtFinishing(t, id, message, now);
    InvCore(t);
    StoredJob(t.core, id);
    var pc := t.workers[id].pc;
    FinishMeaning(t.core.store.jobs[id], pc.result, pc.failed, message, now);
    FinishedRecord(t, id, message, now);
  }

  lemma AtFinishing(t: System, id: Id, message: string, now: int)
    requires Enabled(t, FinishRun(id, message, now, true))
    ensures At(t, id) && t.workers[id].pc.Finishing?
  {
  }

  lemma FinishedRecord(t: System, id: Id, message: string, now: int)
    requires Enabled(t, FinishRun(id, message, now, true)) && At(t, id) && t.workers[id].pc.Finishing?
    requires t.core.store.jobs[id].id == id
    ensures var u := Do(t, FinishRun(id, message, now, true));
            var pc := t.workers[id].pc;
            id in u.core.store.jobs &&
            u.core.store.jobs[id] == Finish(t.core.store.jobs[id], pc.result, pc.failed, message, now)
  {
    hide FinalState, FinalDisposition, EndPhases, Event;
  }

  /** A cleanup is decided on exactly when the plan asked for one and no revocation came before. */
  lemma CleanupIsWanted(s: System, id: Id)
    requires Enabled(s, Decide(id)) && id in s.core.store.jobs
    ensures var j := s.core.store.jobs[id];
            Enabled(Do(s, Decide(id)), CallCleanup(id)) <==>
              j.retention == Cleanup && j.reason != CredentialRevoked && j.reason != AccountRevoked
  {
  }

  // ---------- what readers are told ----------

  predicate EndState(state: JobState) {
    state == Succeeded || state == Failed || state == Cancelled || state == Interrupted
  }

  /** The two answers beside a job tell whether it has ended, and whether a check of its machines may begin. */
  lemma ViewTells(s: System, id: Id)
    requires id in s.core.store.jobs
    ensures id in Views(s.core.store.jobs)
    ensures var v, j := Views(s.core.store.jobs)[id], s.core.store.jobs[id];
            && v.job == j && (v.terminal <==> EndState(j.state))
            && (v.needsCheck <==> Enabled(s, BeginCheck(id)))
            && (v.needsCheck <==> EndState(j.state) && (j.state == Interrupted || j.disposition == Unknown))
  {
  }

  /** A job shown as ended stays as it ended, in every later state of every run. */
  lemma ShownEndIsFinal(s: System, actions: seq<Action>, id: Id)
    requires Inv(s) && Runs(s, actions) && id in s.core.store.jobs && Views(s.core.store.jobs)[id].terminal
    ensures var t := Final(s, actions);
            id in t.core.store.jobs && t.core.store.jobs[id].state == s.core.store.jobs[id].state &&
            Views(t.core.store.jobs)[id].terminal
  {
    hide Inv, Runs, Final;
    JobSafetyOverRuns(s, actions, id);
  }

  /** The event of a commit carries the job it names, with the same two answers, and nothing else. */
  lemma EventTells(c: Core, actor: Id, id: Id, op: Operation, next: Store)
    ensures var d := Commit(c, actor, id, op, next);
            && d.journal != []
            && var e := d.journal[|d.journal| - 1];
               && e.Published? && e.version == |next.audit| + 1
               && e.cursor == StreamCursor(c.instance, |next.audit| + 1)
               && (e.job.Some? <==> id in next.jobs)
               && (e.job.Some? ==>
                     && e.job.value.job == next.jobs[id] && (e.job.value.terminal <==> EndState(next.jobs[id].state))
                     && (e.job.value.needsCheck <==>
                           EndState(next.jobs[id].state) &&
                           (next.jobs[id].state == Interrupted || next.jobs[id].disposition == Unknown)))
  {
  }

  // ---------- cancelling and revoking ----------

  /** What a request to cancel does to a job: a first reason is kept unless a revocation comes, and a revocation
      retains. */
  lemma CancelMeaning(j: Job, reason: Reason)
    requires reason != NoReason
    ensures var k := RequestCancel(j, reason);
            && k.state == Cancelling && k == j.(state := k.state, reason := k.reason, retention := k.retention)
            && (reason == ByUser ==>
                  k.retention == j.retention && k.reason == (if j.reason == NoReason then ByUser else j.reason))
            && (reason != ByUser ==> k.retention == Retain && k.reason == reason)
  {
  }

  /** What a cancellation by this actor makes of a job: only its owner or an administrator cancels it, and an ended one
      is left alone. */
  predicate CancelsAs(c: Core, d: Core, a: Actor, id: Id)
    requires id in c.store.jobs
  {
    var j := c.store.jobs[id];
    if (j.actor == a.id || a.role == "admin") && !EndState(j.state) then
      && id in d.store.jobs && d.store.jobs[id].state == Cancelling && d.store.jobs[id].reason != NoReason
      && (j.reason == NoReason ==> d.store.jobs[id].reason == ByUser)
      && (id in c.cancels ==> c.cancels[id] in d.dead)
    else d == c
  }

  lemma CancelPermission(c: Core, a: Actor, id: Id, message: string, note: bool)
    requires id in c.store.jobs && c.store.jobs[id].id == id
    ensures CancelsAs(c, CancelJob(c, a, id, message, true, note), a, id)
  {
    hide Event, RequestCancel;
    CancelMeaning(c.store.jobs[id], ByUser);
    CancelKeepsId(c.store.jobs[id]);
  }

  lemma CancelKeepsId(j: Job)
    ensures RequestCancel(j, ByUser).id == j.id
  {
  }

  /** The plan of the job binds the credential, to a server or to an account. */
  predicate Binds(s: Store, j: Job, credential: Id) {
    j.plan in s.plans &&
    var input := s.plans[j.plan].input;
    || (exists server :: server in input.credentials && input.credentials[server] == credential)
    || (exists account :: account in input.accounts && input.accounts[account] == credential)
  }

  /** A revocation that went through cancelled exactly the owner's unfinished jobs whose plan binds the credential to
      any server or account, all of them when no credential is named, and ended their contexts. */
  lemma RevocationReaches(c: Core, owner: Id, credential: Id, reason: Reason, ids: seq<Id>, id: Id)
    requires Revocation(reason) && id in c.store.jobs && forall x :: x in c.store.jobs ==> c.store.jobs[x].id == x
    requires forall x :: x in ids <==> Revoked(c.store, x, owner, credential)
    requires forall i, k :: 0 <= i < k < |ids| ==> ids[i] != ids[k]
    ensures var d := JobServer.RevokeAll(c, reason, ids);
            var j := c.store.jobs[id];
            && id in d.store.jobs
            && (if j.actor == owner && !EndState(j.state) && (credential == "" || Binds(c.store, j, credential)) then
                  && d.store.jobs[id].state == Cancelling && d.store.jobs[id].reason == reason
                  && d.store.jobs[id].retention == Retain && (id in c.cancels ==> c.cancels[id] in d.dead)
                else d.store.jobs[id] == j)
  {
    hide JobServer.RevokeAll, RequestCancel;
    JobServer.RevokeAllEffect(c, reason, ids);
    CancelMeaning(c.store.jobs[id], reason);
    UsesBinding(c.store, c.store.jobs[id], credential);
    assert id in ids <==> Revoked(c.store, id, owner, credential);
  }

  lemma UsesBinding(s: Store, j: Job, credential: Id)
    ensures Uses(s, j, credential) <==> credential == "" || Binds(s, j, credential)
  {
    if j.plan in s.plans {
      var input := s.plans[j.plan].input;
      if credential in input.credentials.Values {
        var server :| server in input.credentials && input.credentials[server] == credential;
      }
      if credential in input.accounts.Values {
        var account :| account in input.accounts && input.accounts[account] == credential;
      }
    }
  }

  // ---------- reconciling, and what it lets others do ----------

  /** The three outcomes of a check. */
  lemma ReconcileMeaning(j: Job, o: Outcome)
    ensures var k := Reconcile(j, o);
            && k.reconciliation == Some(o) && k.state == j.state
            && k == j.(reconciliation := Some(o), disposition := k.disposition, unresolved := k.unresolved)
            && (o == Absent ==> k.disposition == Cleaned && k.unresolved == [])
            && (o == Present ==> k.disposition == Retained && k.unresolved == [])
            && (o == Unverified ==> k.disposition == Unknown && k.unresolved == j.unresolved)
  {
  }

  /** A network found absent holds nothing any more; one found running, or not verified, holds on to every claim
      that no later cleanup released. */
  lemma ReconciledHolds(s: Store, j: Job, o: Outcome, launched: map<Id, set<string>>, workspace: Id, claims: seq<Claim>,
                        held: Claim, r: Claim)
    requires EndState(j.state) && j.workspace != workspace && held in ClaimsOf(s, j) && held.executable == ""
    requires r in claims && Overlap(r, held) && !ClaimCleaned(s, Reconcile(j, o), held)
    ensures Blocks(s, launched, Reconcile(j, o), workspace, claims) <==> o != Absent
  {
    hide ClaimCleaned, Overlap;
    var k := Reconcile(j, o);
    assert ClaimsOf(s, k) == ClaimsOf(s, j);
    if o != Absent {
      assert !VerifiedCleanup(k);
      assert ClaimBlocks(s, if k.workspace in launched then launched[k.workspace] else {}, k, held, claims);
    }
  }

  /** An ended launch that was not cleaned blocks a process on its host exactly while its network is recorded as
      running that executable, or as running anything. */
  lemma LaunchedHolds(s: Store, j: Job, launched: map<Id, set<string>>, workspace: Id, held: Claim, r: Claim)
    requires EndState(j.state) && j.workspace != workspace && j.disposition != Cleaned
    requires ClaimsOf(s, j) == [held] && held.executable != "" && !ClaimCleaned(s, j, held)
    requires r.host == held.host && r.executable != ""
    ensures Blocks(s, launched, j, workspace, [r]) <==>
              j.workspace in launched && (r.executable in launched[j.workspace] || "*" in launched[j.workspace])
  {
    hide ClaimCleaned, Overlap, ClaimsOf;
    assert held in [held] && r in [r];
    assert [held][0] == held && [r][0] == r;
  }

  /** A later-accepted job of the same workspace that provably removed this resource. */
  predicate Released(s: Store, owner: Job, held: Claim, cleanup: Id, i: nat, k: nat) {
    && i < k < |s.audit| && cleanup in s.jobs
    && s.audit[i].operation == JobAccepted && s.audit[i].job == owner.id
    && s.audit[k].operation == JobAccepted && s.audit[k].job == s.jobs[cleanup].id
    && s.jobs[cleanup].workspace == owner.workspace && EndState(s.jobs[cleanup].state)
    && s.jobs[cleanup].disposition == Cleaned && s.jobs[cleanup].unresolved == []
    && exists r :: r in ClaimsOf(s, s.jobs[cleanup]) && CleanupCovers(held, r)
  }

  /** An ended holder's claim is released exactly by such a job, when each job was accepted once. */
  lemma ReleasedByLaterCleanup(s: Store, owner: Job, held: Claim)
    requires AcceptedOnce(s)
    ensures ClaimCleaned(s, owner, held) <==> exists cleanup, i, k :: Released(s, owner, held, cleanup, i, k)
  {
    hide CleanedBy, Released, AcceptedAt, AcceptedOnce;
    if ClaimCleaned(s, owner, held) {
      var o := AcceptedAt(s.audit, owner.id).value;
      var id :| id in s.jobs && CleanedBy(s, o, owner, held, s.jobs[id]);
      CleanedIsReleased(s, owner, held, id);
      var k := AcceptedAt(s.audit, s.jobs[id].id).value;
      assert Released(s, owner, held, id, o, k);
      assert exists cleanup, i, k :: Released(s, owner, held, cleanup, i, k);
    }
    if exists cleanup, i, k :: Released(s, owner, held, cleanup, i, k) {
      var cleanup, i, k :| Released(s, owner, held, cleanup, i, k);
      ReleasedIsCleaned(s, owner, held, cleanup, i, k);
    }
  }

  lemma CleanedIsReleased(s: Store, owner: Job, held: Claim, id: Id)
    requires id in s.jobs && AcceptedAt(s.audit, owner.id).Some?
    requires CleanedBy(s, AcceptedAt(s.audit, owner.id).value, owner, held, s.jobs[id])
    ensures AcceptedAt(s.audit, s.jobs[id].id).Some?
    ensures Released(s, owner, held, id, AcceptedAt(s.audit, owner.id).value, AcceptedAt(s.audit, s.jobs[id].id).value)
  {
    hide CleanupCovers, AcceptedAt;
  }

  lemma ReleasedIsCleaned(s: Store, owner: Job, held: Claim, cleanup: Id, i: nat, k: nat)
    requires AcceptedOnce(s) && Released(s, owner, held, cleanup, i, k)
    ensures ClaimCleaned(s, owner, held)
  {
    hide CleanupCovers, AcceptedAt, AcceptedOnce;
    OnlyAcceptance(s, owner.id, i);
    OnlyAcceptance(s, s.jobs[cleanup].id, k);
    assert CleanedBy(s, i, owner, held, s.jobs[cleanup]);
  }

  lemma OnlyAcceptance(s: Store, id: Id, i: nat)
    requires AcceptedOnce(s) && i < |s.audit| && s.audit[i].operation == JobAccepted && s.audit[i].job == id
    ensures AcceptedAt(s.audit, id) == Some(i)
  {
  }

  // ---------- starting ----------

  /** A start is accepted exactly when the key is new, the plan is the actor's own and has not expired, what the engine
      prepared now is valid and is what was planned, and no recorded job blocks the claims. */
  lemma StartMeaning(s: Store, a: Actor, plan: Id, key: string, p: SavedPlan, current: Prepared,
                     launched: map<Id, set<string>>, now: int)
    ensures StartVerdict(s, a, plan, key, p, current, launched, now).Fresh? <==>
              && KeyText(a.id, key) !in s.keys && plan in s.plans && s.plans[plan].actor == a.id
              && now < s.plans[plan].expiresAt && ValidPrepared(current)
              && current.fingerprint == p.prepared.fingerprint == s.plans[plan].prepared.fingerprint
              && current.claims == p.prepared.claims == s.plans[plan].prepared.claims
              && forall id :: id in s.jobs ==> !Blocks(s, launched, s.jobs[id], p.input.workspace, p.prepared.claims)
    ensures StartVerdict(s, a, plan, key, p, current, launched, now).Replayed? ==>
              && KeyText(a.id, key) in s.keys && s.keys[KeyText(a.id, key)].body == plan
              && StartVerdict(s, a, plan, key, p, current, launched, now).job == s.keys[KeyText(a.id, key)].job
  {
    hide Blocks, ValidPrepared;
  }

  // ---------- phases ----------

  /** A report is taken exactly while the job runs, for a phase of its plan, in a state an engine may report. */
  lemma ReportMeaning(c: Core, id: Id, p: Phase)
    requires id in c.store.jobs && c.store.jobs[id].plan in c.store.plans
    ensures var j := c.store.jobs[id];
            ProgressFault(c, id, p).None? <==>
              && (j.state == Accepted || j.state == Running) && p.name in c.store.plans[j.plan].prepared.phases
              && (p.state == PhaseRunning || p.state == PhaseSucceeded || p.state == PhaseFailed)
  {
  }

  // ---------- reopening ----------

  /** Reopening interrupts exactly the unfinished jobs: their nodes are unknown, and what their plan would occupy is
      unresolved. Ended jobs, plans and keys stay. */
  lemma ReopenMeaning(s: Store, instance: string, id: Id)
    requires id in s.jobs
    ensures var t := Opened(s, instance).store;
            && t.plans == s.plans && t.keys == s.keys && id in t.jobs
            && (EndState(s.jobs[id].state) ==> t.jobs[id] == s.jobs[id])
            && (!EndState(s.jobs[id].state) ==>
                  && t.jobs[id].state == Interrupted && t.jobs[id].disposition == Unknown
                  && t.jobs[id].error == Some(RESTARTED) && SameIdentity(s.jobs[id], t.jobs[id])
                  && t.jobs[id].reason == s.jobs[id].reason && t.jobs[id].phases == s.jobs[id].phases
                  && (s.jobs[id].plan in s.plans ==>
                        t.jobs[id].unresolved == s.jobs[id].unresolved + s.plans[s.jobs[id].plan].resources))
  {
  }

  /** A plan's list of resources names each claim that will not stay idle, in order: a process by host and executable,
      any other by host and path. */
  lemma {:induction false} ResourcesMeaning(a: seq<Claim>, b: seq<Claim>, c: Claim)
    ensures ResourceTexts(a + b) == ResourceTexts(a) + ResourceTexts(b)
    ensures c.idle ==> ResourceTexts([c]) == []
    ensures !c.idle && c.executable != "" ==> ResourceTexts([c]) == [c.host + ":process:" + c.executable]
    ensures !c.idle && c.executable == "" ==> ResourceTexts([c]) == [c.host + ":" + c.dataPath]
    decreases |b|
  {
    assert [c][..0] == [];
    if b == [] {
      assert a + b == a;
    } else {
      assert (a + b)[..|a + b| - 1] == a + b[..|b| - 1];
      ResourcesMeaning(a, b[..|b| - 1], c);
    }
  }
}
