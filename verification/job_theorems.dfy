/** Whole-run safety of the job protocol. Every lemma speaks of an arbitrary run: any interleaving of
    requests, executors, revocations and restarts from a state that satisfies the invariant, in
    particular from the empty store. */
module JobTheorems {
  import opened Common
  import opened Claims
  import opened JobModel
  import opened JobFeed
  import opened JobHolds
  import opened JobCore
  import opened JobSafety
  import opened JobRuns
  import JobServer

  /** Terminal states are absorbing, a revocation is never downgraded, and retention stays. */
  lemma JobSafetyOverRuns(s: System, actions: seq<Action>, id: Id)
    requires Inv(s) && Runs(s, actions) && id in s.core.store.jobs
    ensures var t := Final(s, actions);
            && id in t.core.store.jobs
            && var j, k := s.core.store.jobs[id], t.core.store.jobs[id];
               && (Terminal(j.state) ==> k.state == j.state && k.phases == j.phases)
               && (Revocation(j.reason) ==> Revocation(k.reason) && k.retention == Retain)
               && (j.reason != NoReason ==> k.reason != NoReason)
               && k.actor == j.actor && k.plan == j.plan && k.workspace == j.workspace
               && (Terminal(k.state) ==> k.disposition != Unreported)
  {
    hide Inv, Runs, Final;
    RunKeepsInv(s, actions);
    var t := Final(s, actions);
    InvStore(t);
    StoredJob(t.core, id);
    assert JobLater(s.core.store.jobs[id], t.core.store.jobs[id]);
  }

  lemma InvStore(s: System)
    requires Inv(s)
    ensures CoreOk(s.core) && StoreOk(s.core.store) && Exclusive(s.core.store) && AcceptedOnce(s.core.store) &&
            KeysOk(s.core.store)
  {
    hide SnapshotValid, PlansOk, ShapesOk, KeysOk, AcceptedOnce, Exclusive, WorkersOk, CallsOk, JournalOk;
  }

  /** Whatever a run did, restarting the server succeeds and leaves every job ended. */
  lemma RestartEndsEveryJob(s: System, actions: seq<Action>, instance: string)
    requires Inv(s) && Runs(s, actions) && ':' !in instance
    ensures var t := Final(s, actions);
            && SnapshotValid(t.core.store)
            && var u := Do(t, Restart(instance));
               forall id :: id in u.core.store.jobs ==> Terminal(u.core.store.jobs[id].state)
  {
    hide Inv, Runs, Final, StoreOk, SnapshotValid, StoreLater, JournalOk, Opened;
    RunKeepsInv(s, actions);
    InvStore(Final(s, actions));
    ReopenSucceeds(Final(s, actions).core.store, instance);
  }

  /** No reachable state has two unfinished jobs with overlapping claims, and every job was accepted
      under exactly one key. */
  lemma ExclusionOverRuns(instance: string, actions: seq<Action>)
    requires ':' !in instance && Runs(Initial(instance), actions)
    ensures var t := Final(Initial(instance), actions);
            Exclusive(t.core.store) && AcceptedOnce(t.core.store) && KeysOk(t.core.store)
  {
    hide Inv, Runs, Final, Exclusive, AcceptedOnce, KeysOk, StoreLater, Initial;
    InitialInv(instance);
    RunKeepsInv(Initial(instance), actions);
    InvStore(Final(Initial(instance), actions));
  }

  // ---------- starting exactly once ----------

  /** Once a job is accepted under an actor's key, every later Start with that key, in any run and
      across restarts, either returns that job or is refused: it never accepts another. */
  lemma StartIsExactlyOnce(s: System, a: Action, actions: seq<Action>, other: Id, now: int)
    requires Inv(s) && a.FinishStart? && Enabled(s, a) && Runs(Do(s, a), actions)
    ensures var st := s.starts[a.call];
            var t := Final(Do(s, a), actions).core.store;
            && Acceptance(t, st.actor, st.plan, st.key, now) == Replayed(a.job)
            && (other != st.plan ==> Acceptance(t, st.actor, other, st.key, now) == Rejected(Conflict))
            && a.job in t.jobs && t.jobs[a.job].plan == st.plan && t.jobs[a.job].actor == st.actor.id
            && forall k :: k in t.keys && t.keys[k].job == a.job ==> k == KeyText(st.actor.id, st.key)
  {
    hide Inv, Runs, Final, StartVerdict, Event, KeyText;
    var st := s.starts[a.call];
    var d := Do(s, a);
    StepKeepsInv(s, a);
    RunKeepsInv(d, actions);
    var t := Final(d, actions);
    InvStore(t);
    var k := KeyText(st.actor.id, st.key);
    assert d.core.store.keys[k] == Key(st.plan, a.job);
    assert t.core.store.keys[k] == Key(st.plan, a.job);
    assert JobLater(d.core.store.jobs[a.job], t.core.store.jobs[a.job]);
  }

  // ---------- executors ----------

  /** The engine is only started for a job that is durably running and that nobody has cancelled. */
  lemma LaunchIsRecorded(s: System, id: Id, allowed: bool)
    requires Inv(s) && Enabled(s, Launch(id, allowed)) && Do(s, Launch(id, allowed)).workers[id].pc == Executing
    ensures s.core.store.jobs[id].state == Running && s.core.store.jobs[id].reason == NoReason
  {
    hide Inv, CoreOk;
    InvCore(s);
    WorkerAt(s, id);
    StoredJob(s.core, id);
  }

  /** An executor that returned with all its commits done left its job ended, unless it refused a job
      that had been cancelled in the meantime; that one stays "cancelling" with nobody to end it. */
  lemma ReturnedExecutor(s: System, id: Id)
    requires Inv(s) && At(s, id) && s.workers[id].pc.Ended? && s.workers[id].pc.how != Stopped
    ensures Terminal(s.core.store.jobs[id].state) <==> s.workers[id].pc.how != Refused(Cancelling)
    ensures s.workers[id].pc.how == Refused(Cancelling) ==> s.core.store.jobs[id].state == Cancelling
    ensures id !in s.core.cancels
  {
    hide Inv;
    WorkerAt(s, id);
  }

  /** Which of the two it is depends only on the state the refusal finds under the lock. */
  lemma RefusalOutcome(s: System, id: Id, error: JobError)
    requires Inv(s) && Enabled(s, RefuseRun(id, error, true))
    ensures var t := Do(s, RefuseRun(id, error, true));
            && id in t.core.store.jobs && At(t, id) && t.workers[id].pc.Ended?
            && (Terminal(t.core.store.jobs[id].state) <==> s.core.store.jobs[id].state == Accepted)
  {
    hide Inv, WorkerOk, StoreLater;
    WorkerAt(s, id);
    StepKeepsInv(s, RefuseRun(id, error, true));
    var t := Do(s, RefuseRun(id, error, true));
    StillThere(s, RefuseRun(id, error, true), id);
    ReturnedExecutor(t, id);
    RefusingStates(s.core, id, s.workers[id]);
  }

  lemma RefusingStates(c: Core, id: Id, w: Worker)
    requires id in c.store.jobs && WorkerOk(c, id, w) && w.pc.Refusing?
    ensures c.store.jobs[id].state == Accepted || c.store.jobs[id].state == Cancelling
  {
  }

  lemma StillThere(s: System, a: Action, id: Id)
    requires Inv(s) && Enabled(s, a) && id in s.core.store.jobs
    ensures id in Do(s, a).core.store.jobs
  {
    hide Inv, Do;
    StepKeepsInv(s, a);
  }

  predicate NoRestart(actions: seq<Action>) { forall a :: a in actions ==> !a.Restart? }

  lemma EndedStays(s: System, a: Action, id: Id)
    requires Inv(s) && Enabled(s, a) && !a.Restart? && id in s.workers && s.workers[id].pc.Ended? &&
             id in s.core.store.jobs
    ensures id in Do(s, a).workers && Do(s, a).workers[id] == s.workers[id]
  {
    hide Inv, Commit, CreatePlan, Accept, RefuseBeforeRunning, RecordRunning, Progress, DecideCleanup, FinishJob,
         CancelJob, CancelLocked, ReconcileJob, Opening, Opened, StartVerdict, Acceptance;
  }

  /** A job stuck in "cancelling" stays there for as long as this server lives. */
  lemma {:induction false} StuckUntilRestart(s: System, actions: seq<Action>, id: Id)
    requires Inv(s) && Runs(s, actions) && NoRestart(actions) && At(s, id) &&
             s.workers[id].pc == Ended(Refused(Cancelling))
    ensures var t := Final(s, actions);
            id in t.core.store.jobs && t.core.store.jobs[id].state == Cancelling && id !in t.core.cancels
    decreases |actions|
  {
    hide Inv, Do, Enabled, StoreLater;
    if actions == [] {
      ReturnedExecutor(s, id);
    } else {
      var a := actions[0];
      assert a in actions;
      StepKeepsInv(s, a);
      StillThere(s, a, id);
      EndedStays(s, a, id);
      assert forall b :: b in actions[1..] ==> b in actions;
      StuckUntilRestart(Do(s, a), actions[1..], id);
    }
  }

  lemma RunOneMore(s: System, a: Action, rest: seq<Action>)
    requires Enabled(s, a) && Runs(Do(s, a), rest)
    ensures Runs(s, [a] + rest) && Final(s, [a] + rest) == Final(Do(s, a), rest)
  {
    hide Do, Enabled;
    assert ([a] + rest)[1..] == rest;
  }

  /** Such a job exists: refusal decided, cancellation committed, refusal committed, in that order. It
      happens to every freshly accepted job whose executor finds its check failing. */
  lemma RefusalCanStrand(s: System, id: Id, a: Actor, error: JobError) returns (actions: seq<Action>)
    requires Inv(s) && At(s, id) && s.workers[id].pc == Admitting && s.workers[id].ctx !in s.core.dead
    requires s.core.store.jobs[id].state == Accepted && CanEdit(a) && s.core.store.jobs[id].actor == a.id
    ensures NoRestart(actions) && Runs(s, actions)
    ensures var t := Final(s, actions);
            && At(t, id) && t.workers[id].pc == Ended(Refused(Cancelling))
            && t.core.store.jobs[id].state == Cancelling && id !in t.core.cancels
  {
    hide Inv, Do, Runs, Final, StoreLater;
    var a0, a1, a2 := Admit(id, true), Cancel(a, id, "", true), RefuseRun(id, error, true);
    AdmitEffect(s, id);
    StepKeepsInv(s, a0);
    var s1 := Do(s, a0);
    CancelEffect(s1, id, a);
    CancelStep(s1, id, a);
    StepKeepsInv(s1, a1);
    var s2 := Do(s1, a1);
    RefuseEffect(s2, id, error);
    NothingRuns(Do(s2, a2));
    RunOneMore(s2, a2, []);
    RunOneMore(s1, a1, [a2] + []);
    RunOneMore(s, a0, [a1] + ([a2] + []));
    actions := [a0] + ([a1] + ([a2] + []));
  }

  /** A freshly accepted job: plan, begin and finish a start on a new server. Its executor is about to be
      admitted and its context is live. */
  lemma FreshJob(instance: string, p: SavedPlan, a: Actor, key: string, call: nat, job: Id, now: int,
                 launched: map<Id, set<string>>)
    requires ':' !in instance && CanEdit(a) && p.actor == a.id && p.id != "" && job != "" && now < p.expiresAt
    requires ValidPlan(p) && p.input.workspace == p.workspace && p.input.operation == p.operation
    ensures var s := Initial(instance);
            var a0, a1, a2 := MakePlan(p), BeginStart(call, a, p.id, key, now),
                FinishStart(call, p.prepared, launched, job, now);
            && Enabled(s, a0) && Enabled(Do(s, a0), a1) && Enabled(Do(Do(s, a0), a1), a2)
            && var t := Do(Do(Do(s, a0), a1), a2);
               && At(t, job) && t.workers[job].pc == Admitting && t.workers[job].ctx !in t.core.dead
               && t.core.store.jobs[job].state == Accepted && t.core.store.jobs[job].actor == a.id
  {
    hide ValidPrepared, Event, Blocks;
  }

  /** So a stranded job is reachable: a run from a new server, with any valid plan of any operator, that ends with
      the job cancelling and nobody left to end it. */
  lemma StrandedFromStart(instance: string, p: SavedPlan, a: Actor, key: string, call: nat, job: Id, now: int,
                          launched: map<Id, set<string>>, error: JobError)
    returns (actions: seq<Action>)
    requires ':' !in instance && CanEdit(a) && p.actor == a.id && p.id != "" && job != "" && now < p.expiresAt
    requires ValidPlan(p) && p.input.workspace == p.workspace && p.input.operation == p.operation
    ensures NoRestart(actions) && Runs(Initial(instance), actions)
    ensures var t := Final(Initial(instance), actions);
            && At(t, job) && t.workers[job].pc == Ended(Refused(Cancelling))
            && t.core.store.jobs[job].state == Cancelling && job !in t.core.cancels
  {
    hide Inv, Do, Enabled, Runs, Final, StoreLater, Initial, ValidPlan;
    var s := Initial(instance);
    var a0, a1, a2 := MakePlan(p), BeginStart(call, a, p.id, key, now),
        FinishStart(call, p.prepared, launched, job, now);
    FreshJob(instance, p, a, key, call, job, now, launched);
    InitialInv(instance);
    StepKeepsInv(s, a0);
    var s1 := Do(s, a0);
    StepKeepsInv(s1, a1);
    var s2 := Do(s1, a1);
    StepKeepsInv(s2, a2);
    var rest := RefusalCanStrand(Do(s2, a2), job, a, error);
    RunOneMore(s2, a2, rest);
    RunOneMore(s1, a1, [a2] + rest);
    RunOneMore(s, a0, [a1] + ([a2] + rest));
    actions := [a0] + ([a1] + ([a2] + rest));
  }

  lemma AdmitEffect(s: System, id: Id)
    requires Enabled(s, Admit(id, true))
    ensures var t := Do(s, Admit(id, true)); At(t, id) && t.workers[id].pc == Refusing && t.core == s.core
  {
  }

  lemma CancelStep(s: System, id: Id, a: Actor)
    requires CanEdit(a)
    ensures Enabled(s, Cancel(a, id, "", true))
    ensures Do(s, Cancel(a, id, "", true)) == s.(core := CancelJob(s.core, a, id, "", true, true))
  {
    hide CancelJob;
  }

  lemma CancelEffect(s: System, id: Id, a: Actor)
    requires Inv(s) && At(s, id) && s.core.store.jobs[id].actor == a.id && !Terminal(s.core.store.jobs[id].state)
    ensures var d := CancelJob(s.core, a, id, "", true, true);
            id in d.store.jobs && d.store.jobs[id].state == Cancelling
  {
    hide Inv, CancelLocked, CancelJob, CoreOk, StoreOk, Exclusive, AcceptedOnce, KeysOk;
    InvStore(s);
    CancelledJob(s.core, a.id, id);
    PlainCancel(s.core, a, id);
  }

  lemma PlainCancel(c: Core, a: Actor, id: Id)
    requires id in c.store.jobs && c.store.jobs[id].actor == a.id && !Terminal(c.store.jobs[id].state)
    ensures CancelJob(c, a, id, "", true, true) == CancelLocked(c, a.id, id, ByUser, true)
  {
    hide CancelLocked;
  }

  lemma CancelledJob(c: Core, actor: Id, id: Id)
    requires CoreOk(c) && id in c.store.jobs && !Terminal(c.store.jobs[id].state)
    ensures var d := CancelLocked(c, actor, id, ByUser, true);
            id in d.store.jobs && d.store.jobs[id].state == Cancelling
  {
    hide CoreOk, StoreLater, CancelLocked;
    CancelLockedSection(c, actor, id, ByUser);
  }

  lemma RefuseEffect(s: System, id: Id, error: JobError)
    requires Inv(s) && Enabled(s, RefuseRun(id, error, true)) && s.core.store.jobs[id].state == Cancelling
    ensures var t := Do(s, RefuseRun(id, error, true));
            && At(t, id) && t.workers[id].pc == Ended(Refused(Cancelling))
            && t.core.store.jobs[id].state == Cancelling && id !in t.core.cancels
  {
    hide Inv, CoreOk, RefuseBeforeRunning, Section;
    InvCore(s);
    RefuseSection(s.core, id, error);
  }

  lemma NothingRuns(s: System)
    ensures Runs(s, []) && Final(s, []) == s
  {
  }

  // ---------- revocation and cleanup ----------

  /** The job is revoked and its executor has not been told to clean. */
  ghost predicate Spared(s: System, id: Id) {
    && id in s.core.store.jobs && Revocation(s.core.store.jobs[id].reason)
    && (id in s.workers ==> !s.workers[id].pc.Cleaning? && !(s.workers[id].pc.Decided? && s.workers[id].pc.clean))
  }

  lemma SparedWorker(s: System, a: Action, id: Id)
    requires Inv(s) && Enabled(s, a) && Spared(s, id)
    ensures a != CallCleanup(id)
    ensures var t := Do(s, a);
            id in t.workers ==> !t.workers[id].pc.Cleaning? && !(t.workers[id].pc.Decided? && t.workers[id].pc.clean)
  {
    hide Inv, Commit, CreatePlan, Accept, RefuseBeforeRunning, RecordRunning, Progress, DecideCleanup, FinishJob,
         CancelJob, CancelLocked, ReconcileJob, Opening, Opened, StartVerdict, Acceptance;
  }

  lemma SparedStep(s: System, a: Action, id: Id)
    requires Inv(s) && Enabled(s, a) && Spared(s, id)
    ensures a != CallCleanup(id) && Spared(Do(s, a), id)
  {
    hide Inv, Do, Enabled;
    SparedWorker(s, a, id);
    StepKeepsInv(s, a);
    assert JobLater(s.core.store.jobs[id], Do(s, a).core.store.jobs[id]);
  }

  /** A revocation that commits before the cleanup decision: no run ever calls Cleanup for that job. */
  lemma {:induction false} RevokedBeforeDecision(s: System, actions: seq<Action>, id: Id)
    requires Inv(s) && Runs(s, actions) && Spared(s, id)
    ensures CallCleanup(id) !in actions && Spared(Final(s, actions), id)
    decreases |actions|
  {
    hide Inv, Do, Enabled, Spared, StoreLater;
    if actions != [] {
      StepKeepsInv(s, actions[0]);
      SparedStep(s, actions[0], id);
      RevokedBeforeDecision(Do(s, actions[0]), actions[1..], id);
      assert actions == [actions[0]] + actions[1..];
    }
  }

  /** A revocation that commits after the decision: in every reachable state in which Cleanup is running
      for a revoked job, the context it was given has been cancelled. */
  lemma RevokedDuringCleanup(s: System, actions: seq<Action>, id: Id)
    requires Inv(s) && Runs(s, actions)
    ensures var t := Final(s, actions);
            (At(t, id) && t.workers[id].pc.Cleaning? && Revocation(t.core.store.jobs[id].reason)) ==>
              t.workers[id].pc.cleanup in t.core.dead
  {
    hide Inv, Runs, Final, StoreLater;
    RunKeepsInv(s, actions);
    var t := Final(s, actions);
    if At(t, id) {
      WorkerAt(t, id);
    }
  }

  lemma {:induction false} RunsAppend(s: System, xs: seq<Action>, a: Action)
    requires Runs(s, xs) && Enabled(Final(s, xs), a)
    ensures Runs(s, xs + [a]) && Final(s, xs + [a]) == Do(Final(s, xs), a)
    decreases |xs|
  {
    hide Do, Enabled;
    if xs == [] {
      NothingRuns(Do(s, a));
      assert [a][1..] == [];
    } else {
      RunsAppend(Do(s, xs[0]), xs[1..], a);
      assert (xs + [a])[1..] == xs[1..] + [a];
    }
  }

  function RevokeEach(ids: seq<Id>, owner: Id, credential: Id, reason: Reason): (r: seq<Action>)
    ensures |r| == |ids| && forall i :: 0 <= i < |ids| ==> r[i] == Revoke(ids[i], owner, credential, reason)
  {
    seq(|ids|, i requires 0 <= i < |ids| => Revoke(ids[i], owner, credential, reason))
  }

  lemma NoRevocation(c: Core, reason: Reason)
    ensures JobServer.RevokeAll(c, reason, []) == c
  {
  }

  lemma NextRevocation(s: System, rest: seq<Id>, last: Id, owner: Id, credential: Id, reason: Reason)
    requires forall id :: id in rest ==> id in s.core.store.jobs && s.core.store.jobs[id].id == id
    requires forall i, k :: 0 <= i < k < |rest| ==> rest[i] != rest[k]
    requires last !in rest && Revocation(reason) && Revoked(s.core.store, last, owner, credential)
    ensures var t := s.(core := JobServer.RevokeAll(s.core, reason, rest));
            && Enabled(t, Revoke(last, owner, credential, reason))
            && Do(t, Revoke(last, owner, credential, reason)) ==
               s.(core := JobServer.RevokeAll(s.core, reason, rest + [last]))
  {
    hide CancelLocked, RequestCancel;
    JobServer.RevokeAllEffect(s.core, reason, rest);
    var d := JobServer.RevokeAll(s.core, reason, rest);
    assert d.store.jobs[last] == s.core.store.jobs[last];
    assert (rest + [last])[..|rest|] == rest;
  }

  /** The revocation loop, which holds the lock throughout, is a run of single revocation steps, so
      whatever holds after every run holds after it. */
  lemma {:induction false} RevocationIsARun(s: System, ids: seq<Id>, owner: Id, credential: Id, reason: Reason)
    requires Inv(s) && Revocation(reason) && (forall id :: id in ids ==> Revoked(s.core.store, id, owner, credential))
    requires forall i, k :: 0 <= i < k < |ids| ==> ids[i] != ids[k]
    ensures var run := RevokeEach(ids, owner, credential, reason);
            Runs(s, run) && Final(s, run) == s.(core := JobServer.RevokeAll(s.core, reason, ids))
  {
    hide Inv, Runs, Final, Enabled, Do, CoreOk, JobShape, JobServer.RevokeAll;
    if ids == [] {
      NothingRuns(s);
      NoRevocation(s.core, reason);
      assert RevokeEach(ids, owner, credential, reason) == [];
    } else {
      var rest, last := ids[..|ids| - 1], ids[|ids| - 1];
      assert ids == rest + [last] && last in ids && last !in rest;
      RevocationIsARun(s, rest, owner, credential, reason);
      InvCore(s);
      forall id | id in rest ensures id in s.core.store.jobs && s.core.store.jobs[id].id == id {
        assert Revoked(s.core.store, id, owner, credential);
        StoredJob(s.core, id);
      }
      NextRevocation(s, rest, last, owner, credential, reason);
      var run := RevokeEach(rest, owner, credential, reason);
      RunsAppend(s, run, Revoke(last, owner, credential, reason));
      assert RevokeEach(ids, owner, credential, reason) == run + [Revoke(last, owner, credential, reason)];
    }
  }

  // ---------- the change feed over runs ----------

  lemma PutNames(c: Core, id: Id, j: Job)
    requires j.id == id
    ensures Names(c.store.jobs, c.store.jobs[id := j], id)
  {
  }

  ghost predicate Quiet(c: Core, d: Core) {
    d.store == c.store && d.instance == c.instance && d.journal == c.journal && d.dropped == c.dropped
  }

  /** From c to d the locked state changed only by commits that each named the job they changed. */
  ghost predicate ByNamedCommits(c: Core, d: Core, sub: nat) {
    && Gains(c, d, sub)
    && (forall v: nat, base: map<Id, JobView> :: JournalOk(c) && Follows(c, v, base) ==> Follows(d, v, base))
    && (forall v: nat, base: map<Id, JobView>, taken: seq<Change> ::
          Delivered(c, sub, taken, v, base) ==> Delivered(d, sub, taken, v, base))
  }

  lemma NamedCommit(c: Core, actor: Id, id: Id, op: Operation, next: Store, sub: nat)
    requires next.audit == c.store.audit && Names(c.store.jobs, next.jobs, id)
    ensures ByNamedCommits(c, Commit(c, actor, id, op, next), sub)
  {
    hide JournalOk, Follows, Delivered, Names, Event, Commit, Gains;
    CommitGains(c, actor, id, op, next, sub);
    forall v: nat, base: map<Id, JobView> | JournalOk(c) && Follows(c, v, base)
      ensures Follows(Commit(c, actor, id, op, next), v, base)
    {
      FollowsCommit(c, v, base, actor, id, op, next);
    }
    forall v: nat, base: map<Id, JobView>, taken: seq<Change> | Delivered(c, sub, taken, v, base)
      ensures Delivered(Commit(c, actor, id, op, next), sub, taken, v, base)
    {
      DeliveredCommit(c, sub, taken, v, base, actor, id, op, next);
    }
  }

  lemma NamedPut(c: Core, d: Core, actor: Id, op: Operation, j: Job, sub: nat)
    requires Quiet(Put(c, actor, op, j), d) && (sub in d.subs <==> sub in Put(c, actor, op, j).subs)
    requires sub in d.subs ==> d.subs[sub] == Put(c, actor, op, j).subs[sub]
    ensures ByNamedCommits(c, d, sub)
  {
    var e := Put(c, actor, op, j);
    PutNames(c, j.id, j);
    NamedCommit(c, actor, j.id, op, c.store.(jobs := c.store.jobs[j.id := j]), sub);
    QuietCommits(e, d, sub);
  }

  lemma QuietCommits(c: Core, d: Core, sub: nat)
    requires Quiet(c, d) && (sub in d.subs <==> sub in c.subs) && (sub in d.subs ==> d.subs[sub] == c.subs[sub])
    ensures ByNamedCommits(c, d, sub)
  {
    hide ApplyAll, Views;
  }

  lemma CommitsTransitive(c: Core, d: Core, e: Core, sub: nat)
    requires JournalOk(d) && ByNamedCommits(c, d, sub) && ByNamedCommits(d, e, sub)
    ensures ByNamedCommits(c, e, sub)
  {
    hide JournalOk, Follows, Delivered;
  }

  lemma CancelByNamedCommits(c: Core, a: Actor, id: Id, note: string, noteWritten: bool, sub: nat)
    requires CoreOk(c)
    ensures ByNamedCommits(c, CancelJob(c, a, id, note, true, noteWritten), sub)
  {
    hide StoreOk, ByNamedCommits, Commit, JournalOk;
    var e := CancelJob(c, a, id, note, true, noteWritten);
    if CancelFault(c, a, id).Some? || Terminal(c.store.jobs[id].state) {
      QuietCommits(c, c, sub);
    } else {
      StoredJob(c, id);
      var d := CancelLocked(c, a.id, id, ByUser, true);
      NamedPut(c, d, a.id, CancelRequested, RequestCancel(c.store.jobs[id], ByUser), sub);
      CancelLockedSection(c, a.id, id, ByUser);
      if e != d {
        NamedPut(d, e, a.id, CancelNote, d.store.jobs[id].(cancelMessage := note), sub);
        CommitsTransitive(c, d, e, sub);
      }
    }
  }

  /** The executor's sections, written or not. */
  lemma SectionsByNamedCommits(c: Core, id: Id, sub: nat)
    requires CoreOk(c) && id in c.store.jobs
    ensures forall error, write :: ByNamedCommits(c, RefuseBeforeRunning(c, id, error, write), sub)
    ensures forall write :: ByNamedCommits(c, RecordRunning(c, id, write), sub)
    ensures forall r, failed, message, now, write ::
            ByNamedCommits(c, FinishJob(c, id, r, failed, message, now, write), sub)
  {
    hide ByNamedCommits, Commit, StoreOk, JournalOk, Finish, MarkRunning, Refuse, FinalState;
    var j := c.store.jobs[id];
    QuietCommits(c, c, sub);
    forall error, write ensures ByNamedCommits(c, RefuseBeforeRunning(c, id, error, write), sub) {
      if write {
        RefusedId(j, error);
        StoredJob(c, id);
        NamedPut(c, RefuseBeforeRunning(c, id, error, write), j.actor, JobEnded(Failed), Refuse(j, error), sub);
      }
    }
    forall write ensures ByNamedCommits(c, RecordRunning(c, id, write), sub) {
      if write {
        NamedPut(c, RecordRunning(c, id, write), j.actor, JobRunning, MarkRunning(j), sub);
      }
    }
    forall r, failed, message, now, write
      ensures ByNamedCommits(c, FinishJob(c, id, r, failed, message, now, write), sub) {
      if write {
        NamedPut(c, FinishJob(c, id, r, failed, message, now, write), j.actor, JobEnded(FinalState(j, r, failed)),
                 Finish(j, r, failed, message, now), sub);
      }
    }
  }

  lemma RefusedId(j: Job, error: JobError)
    ensures Refuse(j, error).id == j.id
  {
  }

  lemma RequestsByNamedCommits(c: Core, id: Id, sub: nat)
    requires CoreOk(c) && id in c.store.jobs
    ensures forall p :: ByNamedCommits(c, Progress(c, id, p, true), sub)
    ensures forall reason :: ByNamedCommits(c, CancelLocked(c, "system", id, reason, true), sub)
    ensures forall actor, o :: ByNamedCommits(c, ReconcileJob(c, actor, id, o, true), sub)
  {
    hide ByNamedCommits, Commit, StoreOk, JournalOk, ProgressFault, Reconcile, RequestCancel;
    var j := c.store.jobs[id];
    QuietCommits(c, c, sub);
    forall p ensures ByNamedCommits(c, Progress(c, id, p, true), sub) {
      if ProgressFault(c, id, p).None? {
        NamedPut(c, Progress(c, id, p, true), j.actor, JobPhase, j.(phases := PutPhase(j.phases, p)), sub);
      }
    }
    forall reason ensures ByNamedCommits(c, CancelLocked(c, "system", id, reason, true), sub) {
      NamedPut(c, CancelLocked(c, "system", id, reason, true), "system", CancelRequested, RequestCancel(j, reason),
               sub);
    }
    forall actor, o ensures ByNamedCommits(c, ReconcileJob(c, actor, id, o, true), sub) {
      NamedPut(c, ReconcileJob(c, actor, id, o, true), actor, JobReconciled, Reconcile(j, o), sub);
    }
  }

  lemma ExecutorByNamedCommits(s: System, a: Action, sub: nat)
    requires Inv(s) && Enabled(s, a)
    requires a.RefuseRun? || a.Record? || a.Report? || a.FinishRun? || a.Revoke? || a.EndCheck?
    ensures ByNamedCommits(s.core, Do(s, a).core, sub)
  {
    hide Inv, ByNamedCommits, RefuseBeforeRunning, RecordRunning, FinishJob, Progress, CancelLocked, ReconcileJob,
         StoreOk, JournalOk;
    InvStore(s);
    SectionsByNamedCommits(s.core, a.job, sub);
    RequestsByNamedCommits(s.core, a.job, sub);
  }

  lemma StartByNamedCommits(s: System, a: Action, sub: nat)
    requires Inv(s) && Enabled(s, a) && (a.MakePlan? || a.FinishStart?)
    ensures ByNamedCommits(s.core, Do(s, a).core, sub)
  {
    hide Inv, ByNamedCommits, Commit, StartVerdict, KeyText;
    var c, d := s.core, Do(s, a).core;
    NoEmptyWorker(s);
    match a
    case MakePlan(p) =>
      NamedCommit(c, p.actor, "", PlanCreated, c.store.(plans := c.store.plans[p.id := p]), sub);
    case FinishStart(call, current, launched, job, now) =>
      var st := s.starts[call];
      var j := NewJob(st.actor, st.plan, st.saved, job, now);
      var next := c.store.(jobs := c.store.jobs[job := j],
                           keys := c.store.keys[KeyText(st.actor.id, st.key) := Key(st.plan, job)]);
      var e := Commit(c, st.actor.id, job, JobAccepted, next);
      NamedCommit(c, st.actor.id, job, JobAccepted, next, sub);
      QuietCommits(e, d, sub);
      CommitJournal(c, st.actor.id, job, JobAccepted, next, s);
      CommitsTransitive(c, e, d, sub);
  }

  lemma CommitJournal(c: Core, actor: Id, id: Id, op: Operation, next: Store, s: System)
    requires Inv(s) && c == s.core && next.audit == c.store.audit
    ensures JournalOk(Commit(c, actor, id, op, next))
  {
    hide StoreOk, WorkersOk, CallsOk;
    CommitKeepsJournal(c, actor, id, op, next);
  }

  /** Between two restarts every step changes the store only by commits that name what they change. */
  lemma StepByNamedCommits(s: System, a: Action, sub: nat)
    requires Inv(s) && Enabled(s, a) && !a.Restart? && a != Receive(sub) && a != Unsubscribe(sub)
    requires a.Subscribe? ==> a.sub != sub
    ensures ByNamedCommits(s.core, Do(s, a).core, sub)
  {
    hide ByNamedCommits, CancelJob, WorkersOk, CallsOk, StoreOk, JournalOk, Commit, Opening;
    if a.RefuseRun? || a.Record? || a.Report? || a.FinishRun? || a.Revoke? || a.EndCheck? {
      ExecutorByNamedCommits(s, a, sub);
    } else if a.MakePlan? || a.FinishStart? {
      StartByNamedCommits(s, a, sub);
    } else if a.Cancel? {
      CancelByNamedCommits(s.core, a.actor, a.job, a.note, a.noteWritten, sub);
    } else {
      QuietCommits(s.core, Do(s, a).core, sub);
    }
  }

  ghost function Bound(ns: set<nat>): (n: nat)
    ensures forall m :: m in ns ==> m < n
  {
    if ns == {} then 0
    else
      var m :| m in ns;
      var n := Bound(ns - {m});
      assert forall k :: k in ns ==> k == m || k in ns - {m};
      if m < n then n else m + 1
  }

  lemma FollowsStep(s: System, a: Action, v: nat, base: map<Id, JobView>)
    requires Inv(s) && Enabled(s, a) && !a.Restart? && Follows(s.core, v, base)
    ensures Follows(Do(s, a).core, v, base)
  {
    hide StoreOk, WorkersOk, CallsOk, Follows, Do, Delivered;
    var sub := Bound(s.core.subs.Keys + (if a.Subscribe? then {a.sub} else {}));
    assert sub !in s.core.subs;
    assert a.Subscribe? ==> a.sub in s.core.subs.Keys + {a.sub};
    assert a != Receive(sub) && a != Unsubscribe(sub);
    StepByNamedCommits(s, a, sub);
  }

  /** Snapshot plus replay refines the store: a client holding the jobs of version v reaches exactly the
      present jobs by folding the journal's later events, whatever ran since, within one server instance. */
  lemma {:induction false} SnapshotPlusReplay(s: System, actions: seq<Action>, v: nat, base: map<Id, JobView>)
    requires Inv(s) && Runs(s, actions) && NoRestart(actions) && Follows(s.core, v, base)
    ensures Follows(Final(s, actions).core, v, base)
    decreases |actions|
  {
    hide Inv, Do, Enabled, Follows, StoreLater;
    if actions != [] {
      var a := actions[0];
      assert a in actions;
      StepKeepsInv(s, a);
      FollowsStep(s, a, v, base);
      assert forall b :: b in actions[1..] ==> b in actions;
      SnapshotPlusReplay(Do(s, a), actions[1..], v, base);
    }
  }

  lemma DeliveredReceive(c: Core, sub: nat, taken: seq<Change>, v: nat, base: map<Id, JobView>)
    requires Delivered(c, sub, taken, v, base) && c.subs[sub] != []
    ensures Delivered(c.(subs := c.subs[sub := c.subs[sub][1..]]), sub, taken + [c.subs[sub][0]], v, base)
  {
    hide ApplyAll, Views;
    var q := c.subs[sub];
    assert taken + [q[0]] + q[1..] == taken + q;
  }

  lemma DeliveredStep(s: System, a: Action, sub: nat, v: nat, base: map<Id, JobView>)
    requires Inv(s) && Enabled(s, a) && !a.Restart? && a != Unsubscribe(sub)
    requires sub in s.taken && Delivered(s.core, sub, s.taken[sub], v, base)
    ensures var t := Do(s, a); sub in t.taken && Delivered(t.core, sub, t.taken[sub], v, base)
    ensures var t := Do(s, a);
            Complete(s.core, sub, s.taken[sub], v) && (t.core.dropped == s.core.dropped || RoomFor(s, a, sub)) ==>
              Complete(t.core, sub, t.taken[sub], v)
  {
    hide StoreOk, WorkersOk, CallsOk, JournalOk, ApplyAll, Views, Commit, CreatePlan, Accept, RefuseBeforeRunning,
         RecordRunning, Progress, DecideCleanup, FinishJob, CancelJob, CancelLocked, ReconcileJob, Opening,
         StartVerdict, Acceptance, Follows;
    if a == Receive(sub) {
      DeliveredReceive(s.core, sub, s.taken[sub], v, base);
    } else {
      StepByNamedCommits(s, a, sub);
    }
  }

  /** The channel has room for everything the step commits. */
  predicate RoomFor(s: System, a: Action, sub: nat)
    requires Enabled(s, a)
  {
    sub in s.core.subs ==> |s.core.subs[sub]| + Version(Do(s, a).core) - Version(s.core) <= BUFFER
  }

  ghost predicate RoomOnRun(s: System, actions: seq<Action>, sub: nat)
    requires Runs(s, actions)
    decreases |actions|
  {
    actions != [] ==> RoomFor(s, actions[0], sub) && RoomOnRun(Do(s, actions[0]), actions[1..], sub)
  }

  lemma DroppedStep(s: System, a: Action)
    requires Inv(s) && Enabled(s, a) && !a.Restart?
    ensures s.core.dropped <= Do(s, a).core.dropped
  {
    hide StoreOk, WorkersOk, CallsOk, Follows, Do, Delivered, JournalOk;
    var sub := Bound(s.core.subs.Keys + (if a.Subscribe? then {a.sub} else {}));
    assert sub !in s.core.subs;
    assert a.Subscribe? ==> a.sub in s.core.subs.Keys + {a.sub};
    assert a != Receive(sub) && a != Unsubscribe(sub);
    StepByNamedCommits(s, a, sub);
  }

  lemma {:induction false} DroppedOverRun(s: System, actions: seq<Action>)
    requires Inv(s) && Runs(s, actions) && NoRestart(actions)
    ensures s.core.dropped <= Final(s, actions).core.dropped
    decreases |actions|
  {
    hide Inv, Do, Enabled, StoreLater;
    if actions != [] {
      assert actions[0] in actions && forall b :: b in actions[1..] ==> b in actions;
      StepKeepsInv(s, actions[0]);
      DroppedStep(s, actions[0]);
      DroppedOverRun(Do(s, actions[0]), actions[1..]);
    }
  }

  /** What a subscriber took and has queued stays an exact replay over every run, as long as it has every event;
      and it has, as long as nothing was dropped on any channel or its own channel never lacked room. */
  lemma {:induction false} DeliveredOverRun(s: System, actions: seq<Action>, sub: nat, v: nat, base: map<Id, JobView>)
    requires Inv(s) && Runs(s, actions) && NoRestart(actions) && Unsubscribe(sub) !in actions
    requires sub in s.taken && Delivered(s.core, sub, s.taken[sub], v, base)
    ensures var t := Final(s, actions); sub in t.taken && Delivered(t.core, sub, t.taken[sub], v, base)
    ensures var t := Final(s, actions);
            Complete(s.core, sub, s.taken[sub], v) &&
            (t.core.dropped == s.core.dropped || RoomOnRun(s, actions, sub)) ==>
              Complete(t.core, sub, t.taken[sub], v)
    decreases |actions|
  {
    hide Inv, Do, Enabled, Delivered, Complete, RoomFor, StoreLater;
    if actions != [] {
      var a := actions[0];
      assert a in actions && forall b :: b in actions[1..] ==> b in actions;
      StepKeepsInv(s, a);
      DeliveredStep(s, a, sub, v, base);
      DroppedStep(s, a);
      DroppedOverRun(Do(s, a), actions[1..]);
      DeliveredOverRun(Do(s, a), actions[1..], sub, v, base);
    }
  }

  lemma AcceptedSubscription(t: System, sub: nat, cursor: string, v: nat, base: map<Id, JobView>)
    requires Inv(t) && Enabled(t, Subscribe(sub, cursor)) && Version(t.core) <= 0xFFFF_FFFF_FFFF_FFFF
    requires Requested(t.core, cursor) == Ok(v) && Follows(t.core, v, base)
    ensures var u := Do(t, Subscribe(sub, cursor));
            && sub in u.taken && u.taken[sub] == [] && u.core.dropped == t.core.dropped
            && Delivered(u.core, sub, [], v, base) && Complete(u.core, sub, [], v)
  {
    hide StoreOk, WorkersOk, CallsOk, ApplyAll, Views, Requested;
    ReplayBoundary(t.core, cursor);
    var u := Do(t, Subscribe(sub, cursor));
    assert [] + u.core.subs[sub] == u.core.subs[sub] == After(t.core.journal, v);
  }

  /** The whole feed: take a snapshot, let anything happen, subscribe with the snapshot's cursor, let anything
      happen again. Whenever the subscriber has as many events as there were versions since the snapshot, they are
      those versions in order, and folding them over the snapshot gives exactly the jobs of the store. It has that
      many as long as its own channel never lacked room, or nothing was dropped on any channel. */
  lemma SubscriberReachesStore(s: System, before: seq<Action>, sub: nat, after: seq<Action>)
    requires Inv(s) && Runs(s, before) && NoRestart(before)
    requires var t := Final(s, before);
             && Version(t.core) <= 0xFFFF_FFFF_FFFF_FFFF
             && var cursor := StreamCursor(s.core.instance, Version(s.core));
                && Enabled(t, Subscribe(sub, cursor)) && Requested(t.core, cursor) == Ok(Version(s.core))
                && Runs(Do(t, Subscribe(sub, cursor)), after)
    requires NoRestart(after) && Unsubscribe(sub) !in after
    ensures var t := Final(s, before);
            var w := Do(t, Subscribe(sub, StreamCursor(s.core.instance, Version(s.core))));
            var u := Final(w, after);
            && sub in u.taken && sub in u.core.subs
            && var got := u.taken[sub] + u.core.subs[sub];
               && |got| <= Version(u.core) - Version(s.core)
               && (u.core.dropped == t.core.dropped || RoomOnRun(w, after, sub) ==>
                     |got| == Version(u.core) - Version(s.core))
               && (|got| == Version(u.core) - Version(s.core) ==>
                     && (forall i :: 0 <= i < |got| ==> got[i].version == Version(s.core) + 1 + i)
                     && ApplyAll(Views(s.core.store.jobs), got) == Views(u.core.store.jobs))
  {
    hide Inv, Do, Enabled, Runs, Final, StoreLater, Follows, ApplyAll, Views, Requested, StreamCursor, RoomOnRun;
    var v, base := Version(s.core), Views(s.core.store.jobs);
    InvJournal(s);
    FollowsStart(s.core);
    SnapshotPlusReplay(s, before, v, base);
    RunKeepsInv(s, before);
    var t := Final(s, before);
    var cursor := StreamCursor(s.core.instance, v);
    AcceptedSubscription(t, sub, cursor, v, base);
    StepKeepsInv(t, Subscribe(sub, cursor));
    DeliveredOverRun(Do(t, Subscribe(sub, cursor)), after, sub, v, base);
  }

  lemma InvJournal(s: System)
    requires Inv(s)
    ensures JournalOk(s.core) && ':' !in s.core.instance
  {
    hide StoreOk, WorkersOk, CallsOk, JournalOk;
  }
}
