/** WebJobs itself: the fields its mutex protects and the methods that update them. Each method is
    proved to do what the step system's section of the same name does. `write` is the outcome of the
    durable write, `authorized` that of the authorizer. */
module JobServer {
  import opened Common
  import opened Claims
  import opened JobModel
  import opened JobFeed
  import opened JobHolds
  import opened JobCore

  /** What a revocation of several jobs does, one after the other under one lock. */
  function RevokeAll(c: Core, reason: Reason, ids: seq<Id>): Core {
    if ids == [] then c
    else
      var d := RevokeAll(c, reason, ids[..|ids| - 1]);
      if ids[|ids| - 1] in d.store.jobs then CancelLocked(d, "system", ids[|ids| - 1], reason, true) else d
  }

  lemma RevokeNone(c: Core, reason: Reason)
    ensures RevokeAll(c, reason, []) == c
  {
  }

  lemma RevokeSnoc(c: Core, reason: Reason, ids: seq<Id>, id: Id)
    requires id in RevokeAll(c, reason, ids).store.jobs
    ensures RevokeAll(c, reason, ids + [id]) == CancelLocked(RevokeAll(c, reason, ids), "system", id, reason, true)
  {
    assert (ids + [id])[..|ids|] == ids;
  }

  lemma {:induction false} RevokeAllEffect(c: Core, reason: Reason, ids: seq<Id>)
    requires forall id :: id in ids ==> id in c.store.jobs && c.store.jobs[id].id == id
    requires forall i, k :: 0 <= i < k < |ids| ==> ids[i] != ids[k]
    ensures var d := RevokeAll(c, reason, ids);
            && d.store.jobs.Keys == c.store.jobs.Keys && d.store.plans == c.store.plans && d.cancels == c.cancels &&
               c.dead <= d.dead
            && |d.store.audit| == |c.store.audit| + |ids|
            && (forall id :: id in c.store.jobs && id !in ids ==> d.store.jobs[id] == c.store.jobs[id])
            && (forall id :: id in ids ==> d.store.jobs[id] == RequestCancel(c.store.jobs[id], reason))
            && (forall id :: id in ids && id in c.cancels ==> c.cancels[id] in d.dead)
  {
    hide RequestCancel, Event;
    if ids != [] {
      var last := ids[|ids| - 1];
      var rest := ids[..|ids| - 1];
      assert ids == rest + [last];
      RevokeAllEffect(c, reason, rest);
      assert last !in rest;
      RequestKeepsId(c.store.jobs[last], reason);
    }
  }

  lemma RequestKeepsId(j: Job, reason: Reason)
    ensures RequestCancel(j, reason).id == j.id
  {
  }

  lemma {:induction false} PutPhaseAt(phases: seq<Phase>, phase: Phase, i: nat)
    requires i <= |phases| && forall k :: 0 <= k < i ==> phases[k].name != phase.name
    requires i < |phases| ==> phases[i].name == phase.name
    ensures PutPhase(phases, phase) == if i < |phases| then phases[i := phase] else phases + [phase]
  {
    if i > 0 {
      PutPhaseAt(phases[1..], phase, i - 1);
      assert phases == [phases[0]] + phases[1..];
    }
  }

  lemma Visited(full: set<nat>, left: set<nat>, c: nat)
    requires c in left
    ensures |full - (left - {c})| == |full - left| + if c in full then 1 else 0
  {
    if c in full {
      assert full - (left - {c}) == full - left + {c};
    } else {
      assert full - (left - {c}) == full - left;
    }
  }

  /** The channels while those in `left` still wait for the event. */
  ghost function Offered(channels: map<nat, seq<Change>>, e: Change, left: set<nat>): map<nat, seq<Change>> {
    map c | c in channels :: if c !in left && |channels[c]| < BUFFER then channels[c] + [e] else channels[c]
  }

  lemma OfferedStep(channels: map<nat, seq<Change>>, e: Change, left: set<nat>, c: nat)
    requires c in left && left <= channels.Keys
    ensures var subs := Offered(channels, e, left);
            c in subs && subs[c] == channels[c] &&
            Offered(channels, e, left - {c}) == (if |channels[c]| < BUFFER then subs[c := channels[c] + [e]] else subs)
    ensures c in Full(channels) <==> |channels[c]| >= BUFFER
  {
  }

  lemma OfferedEnds(channels: map<nat, seq<Change>>, e: Change)
    ensures Offered(channels, e, channels.Keys) == channels && Offered(channels, e, {}) == Deliver(channels, e)
    ensures Full(channels) - channels.Keys == {} && Full(channels) - {} == Full(channels)
  {
  }

  /** Offer an event to every channel without waiting; a full channel counts as one drop. */
  method Offer(channels: map<nat, seq<Change>>, e: Change) returns (subs: map<nat, seq<Change>>, lost: nat)
    ensures subs == Deliver(channels, e) && lost == |Full(channels)|
  {
    hide Full, Deliver, Offered;
    ghost var full := Full(channels);
    subs, lost := channels, 0;
    var left := channels.Keys;
    OfferedEnds(channels, e);
    while left != {}
      invariant left <= channels.Keys && subs == Offered(channels, e, left) && lost == |full - left|
      decreases |left|
    {
      var c :| c in left;
      Visited(full, left, c);
      OfferedStep(channels, e, left, c);
      left := left - {c};
      if |subs[c]| < BUFFER {
        subs := subs[c := subs[c] + [e]];
      } else {
        lost := lost + 1;
      }
    }
  }

  /** The phase loop at a job's end: whatever still runs takes the job's outcome. */
  method EndRunning(before: seq<Phase>, terminal: JobState, now: int) returns (phases: seq<Phase>)
    ensures phases == EndPhases(before, terminal, now)
  {
    phases := before;
    for i := 0 to |phases|
      invariant |phases| == |before|
      invariant forall k :: 0 <= k < i ==> phases[k] == EndPhase(before[k], terminal, now)
      invariant forall k :: i <= k < |phases| ==> phases[k] == before[k]
    {
      if phases[i].state == PhaseRunning {
        phases := phases[i := EndPhase(phases[i], terminal, now)];
      }
    }
  }

  /** The loop of Plan over the engine's claims. */
  method NameResources(claims: seq<Claim>) returns (resources: seq<string>)
    ensures resources == ResourceTexts(claims)
  {
    resources := [];
    for i := 0 to |claims|
      invariant resources == ResourceTexts(claims[..i])
    {
      assert claims[..i + 1][..i] == claims[..i];
      var c := claims[i];
      assert ResourceTexts(claims[..i]) + [] == ResourceTexts(claims[..i]);
      if c.idle { continue; }
      if c.executable != "" {
        resources := resources + [c.host + ":process:" + c.executable];
        continue;
      }
      resources := resources + [c.host + ":" + c.dataPath];
    }
    assert claims[..|claims|] == claims;
  }

  /** The part of finish that works out the ended job. */
  method EndJob(job: Job, result: EngineResult, failed: bool, message: string, now: int) returns (next: Job)
    ensures next == Finish(job, result, failed, message, now)
    ensures next.state == FinalState(job, result, failed) && next.id == job.id
  {
    hide EndPhases;
    var terminal := if failed then Failed else Succeeded;
    if job.reason != NoReason {
      terminal := Cancelled;
      if result.disposition == CleanupFailed { terminal := Failed; }
    }
    var disposition := result.disposition;
    if (job.reason == CredentialRevoked || job.reason == AccountRevoked) &&
        disposition == Unreported { disposition := Retained; }
    if disposition == Unreported { disposition := Unknown; }
    var phases := EndRunning(job.phases, terminal, now);
    next := job.(state := terminal, disposition := disposition, phases := phases,
                 runIds := job.runIds + result.runIds, effects := job.effects + result.effects,
                 unresolved := job.unresolved + result.unresolved,
                 error := if message != "" then Some(JobError("engine_error", message)) else job.error);
  }

  class WebJobs {
    const instance: string
    var plans: map<Id, SavedPlan>
    var jobs: map<Id, Job>
    var keys: map<string, Key>
    var audit: seq<Entry>
    var journal: seq<Change>
    var subs: map<nat, seq<Change>>
    var dropped: nat
    var cancels: map<Id, nat>
    var dead: set<nat>

    ghost function Stored(): Store
      reads this
    {
      Store(plans, jobs, keys, audit)
    }

    ghost function View(): Core
      reads this
    {
      Core(Stored(), instance, journal, subs, dropped, cancels, dead)
    }

    constructor (s: Store, instance: string)
      ensures View() == Loaded(s, instance)
    {
      this.instance := instance;
      plans, jobs, keys, audit := s.plans, s.jobs, s.keys, s.audit;
      journal, subs, dropped, cancels, dead := [], map[], 0, map[], {};
    }

    /** recordJobChange: append to the bounded journal, then offer the event to the subscribers. */
    method RecordJobChange(id: Id)
      modifies `journal, `subs, `dropped
      ensures var e := Event(instance, Stored(), id);
              && journal == Trim(old(journal) + [e]) && subs == Deliver(old(subs), e)
              && dropped == old(dropped) + |Full(old(subs))|
    {
      var e := Published(|audit|, StreamCursor(instance, |audit|), if id in jobs then Some(Detach(jobs[id])) else None);
      journal := journal + [e];
      if |journal| > BUFFER {
        journal := journal[|journal| - BUFFER..];
      }
      var lost;
      subs, lost := Offer(subs, e);
      dropped := dropped + lost;
    }

    /** commit: nothing changes unless the durable write succeeds. */
    method CommitNext(actor: Id, id: Id, op: Operation, next: Store, write: bool)
      requires next.audit == audit
      modifies this
      ensures View() == if write then Commit(old(View()), actor, id, op, next) else old(View())
    {
      if !write { return; }
      plans, jobs, keys, audit := next.plans, next.jobs, next.keys, next.audit + [Entry(actor, id, op)];
      RecordJobChange(id);
    }

    /** Plan: check what is asked and what the engine prepared, then record the plan for the user to review.
        `prepared` is the engine's answer, absent when it failed. */
    method Plan(a: Actor, authorized: bool, ask: PlanAsk, prepared: Option<Prepared>, id: Id, now: int, write: bool)
      returns (r: Result<SavedPlan, Fault>)
      modifies this
      ensures r.Ok? <==> CanEdit(a) && authorized && ask.workspace != "" && RetentionOf(ask.retention).Some? &&
                         prepared.Some? && ValidPrepared(prepared.value) && write
      ensures r.Ok? ==>
                var p := r.value;
                && View() == CreatePlan(old(View()), p) && ValidPlan(p) && p.id == id && p.actor == a.id
                && p.workspace == p.input.workspace == ask.workspace &&
                   p.operation == p.input.operation == ask.operation
                && Some(p.input.retention) == RetentionOf(ask.retention) && p.prepared == prepared.value
                && p.expiresAt == now + PLAN_LIFETIME && p.resources == ResourceTexts(p.prepared.claims)
      ensures r.Err? ==> View() == old(View())
    {
      hide ValidPrepared, Commit, ResourceTexts;
      if !CanEdit(a) || !authorized { return Err(Forbidden); }
      if ask.workspace == "" { return Err(Conflict); }
      var retention := ask.retention;
      if retention == "" { retention := "retain"; }
      if retention != "retain" && retention != "cleanup" { return Err(Conflict); }
      if prepared.None? || !ValidPrepared(prepared.value) { return Err(Conflict); }
      var resources := NameResources(prepared.value.claims);
      var input := PlanInput(ask.workspace, ask.operation, if retention == "retain" then Retain else Cleanup,
                             ask.credentials, ask.accounts);
      var p := SavedPlan(id, a.id, ask.workspace, ask.operation, prepared.value.fingerprint, now + PLAN_LIFETIME,
                         resources,
                         input, prepared.value);
      CommitNext(a.id, "", PlanCreated, Store(plans[id := p], jobs, keys, audit), write);
      if !write { return Err(WriteFailed); }
      r := Ok(p);
    }

    /** The second critical section of Start, with the plan read by the first. */
    method StartLocked(a: Actor, plan: Id, key: string, p: SavedPlan, current: Prepared, launched: map<Id, set<string>>,
                       id: Id, ctx: nat, now: int, write: bool) returns (r: Result<Id, Fault>)
      modifies this
      ensures match StartVerdict(old(Stored()), a, plan, key, p, current, launched, now)
              case Replayed(job) => r == Ok(job) && View() == old(View())
              case Rejected(fault) => r == Err(fault) && View() == old(View())
              case Fresh(_) =>
                if write then r == Ok(id) && View() == Accept(old(View()), a, key, NewJob(a, plan, p, id, now), ctx)
                else r == Err(WriteFailed) && View() == old(View())
    {
      var s := Store(plans, jobs, keys, audit);
      match Acceptance(s, a, plan, key, now)
      case Replayed(job) => return Ok(job);
      case Rejected(fault) => return Err(fault);
      case Fresh(latest) =>
        if !ValidPrepared(current) || current.fingerprint != p.prepared.fingerprint ||
            current.claims != p.prepared.claims
           || latest.prepared.fingerprint != current.fingerprint || latest.prepared.claims != current.claims {
          return Err(Conflict);
        }
        var holders := ResourceConflicts(s, launched, p.input.workspace, p.prepared.claims);
        if holders != {} {
          assert exists h :: h in s.jobs && Blocks(s, launched, s.jobs[h], p.input.workspace, p.prepared.claims) by {
            var h :| h in holders;
          }
          return Err(Busy);
        }
        var job := NewJob(a, plan, p, id, now);
        CommitNext(a.id, id, JobAccepted,
                   Store(plans, jobs[id := job], keys[KeyText(a.id, key) := Key(plan, id)], audit), write);
        if !write { return Err(WriteFailed); }
        cancels := cancels[id := ctx];
        return Ok(id);
    }

    static method ReplacePhase(phases: seq<Phase>, phase: Phase) returns (r: seq<Phase>)
      ensures r == PutPhase(phases, phase)
    {
      for i := 0 to |phases|
        invariant forall k :: 0 <= k < i ==> phases[k].name != phase.name
      {
        if phases[i].name == phase.name {
          PutPhaseAt(phases, phase, i);
          return phases[i := phase];
        }
      }
      PutPhaseAt(phases, phase, |phases|);
      return phases + [phase];
    }

    /** progress: refuse after a cancellation, check the phase against the plan, replace or append it. */
    method ReportPhase(id: Id, phase: Phase, write: bool) returns (fault: Option<Fault>)
      requires id in jobs
      modifies this
      ensures View() == Progress(old(View()), id, phase, write)
      ensures old(ProgressFault(View(), id, phase)).Some? ==> fault == old(ProgressFault(View(), id, phase))
      ensures old(ProgressFault(View(), id, phase)).None? ==> fault == if write then None else Some(WriteFailed)
    {
      var job := jobs[id];
      if job.state == Cancelling || Terminal(job.state) { return Some(Canceled); }
      var allowed := false;
      var names := if job.plan in plans then plans[job.plan].prepared.phases else [];
      for i := 0 to |names|
        invariant allowed <==> phase.name in names[..i]
      {
        if names[i] == phase.name { allowed := true; }
      }
      assert names[..|names|] == names;
      if !allowed || !(phase.state == PhaseRunning || phase.state == PhaseSucceeded || phase.state == PhaseFailed) {
        return Some(InvalidPhase);
      }
      var phases := ReplacePhase(job.phases, phase);
      var s := Store(plans, jobs[job.id := job.(phases := phases)], keys, audit);
      CommitNext(job.actor, job.id, JobPhase, s, write);
      return if write then None else Some(WriteFailed);
    }

    /** The section of execute that records a job as running; `before` is the state it found. */
    method MarkRunningLocked(id: Id, write: bool) returns (before: JobState)
      requires id in jobs
      modifies this
      ensures View() == RecordRunning(old(View()), id, write) && before == old(jobs[id].state)
    {
      var job := jobs[id];
      before := job.state;
      var next := if job.state == Accepted then job.(state := Running) else job;
      CommitNext(job.actor, next.id, JobRunning, Store(plans, jobs[next.id := next], keys, audit), write);
    }

    /** The section of execute that decides on cleanup and swaps the job's cancel function. */
    method DecideCleanupLocked(id: Id, cleanup: nat) returns (clean: bool)
      requires id in jobs
      modifies `cancels, `dead
      ensures clean == WantsCleanup(jobs[id]) && View() == DecideCleanup(old(View()), id, cleanup)
    {
      var job := jobs[id];
      clean := job.retention == Cleanup && (job.reason == NoReason || job.reason == ByUser);
      if clean {
        if id in cancels { dead := dead + {cancels[id]}; }
        cancels := cancels[id := cleanup];
      }
    }

    /** The last section of execute: name the end, close the phases still running, release the job. */
    method FinishLocked(id: Id, result: EngineResult, failed: bool, message: string, now: int, write: bool)
      requires id in jobs && jobs[id].id == id
      modifies this
      ensures View() == FinishJob(old(View()), id, result, failed, message, now, write)
    {
      hide Commit, Finish;
      var job := jobs[id];
      var next := EndJob(job, result, failed, message, now);
      CommitNext(job.actor, id, JobEnded(next.state), Store(plans, jobs[id := next], keys, audit), write);
      if write {
        if id in cancels { dead := dead + {cancels[id]}; }
        cancels := cancels - {id};
      }
    }

    /** refuseBeforeRunning: end an accepted job as failed; a job in any other state is left as it is. */
    method RefuseLocked(id: Id, error: JobError, write: bool)
      requires id in jobs && jobs[id].id == id
      modifies this
      ensures View() == RefuseBeforeRunning(old(View()), id, error, write)
    {
      var job := jobs[id];
      var next := job;
      if job.state == Accepted {
        next := job.(state := Failed, disposition := Retained, error := Some(error));
      }
      CommitNext(job.actor, id, JobEnded(Failed), Store(plans, jobs[id := next], keys, audit), write);
      if write {
        if id in cancels { dead := dead + {cancels[id]}; }
        cancels := cancels - {id};
      }
    }

    /** cancelLocked: commit the request, then call the job's cancel function. */
    method CancelNow(actor: Id, id: Id, reason: Reason, write: bool)
      requires id in jobs && jobs[id].id == id
      modifies this
      ensures View() == CancelLocked(old(View()), actor, id, reason, write)
    {
      var job := jobs[id].(state := Cancelling);
      if job.reason == NoReason || reason != ByUser { job := job.(reason := reason); }
      if reason != ByUser { job := job.(retention := Retain); }
      CommitNext(actor, id, CancelRequested, Store(plans, jobs[id := job], keys, audit), write);
      if write && id in cancels { dead := dead + {cancels[id]}; }
    }

    /** CancelWithMessage on a text that is already redacted. */
    method CancelWithMessage(a: Actor, id: Id, text: string, authorized: bool, write: bool, note: bool)
      returns (fault: Option<Fault>)
      requires id in jobs ==> jobs[id].id == id
      modifies this
      ensures !CanEdit(a) || !authorized ==> fault == Some(Forbidden) && View() == old(View())
      ensures CanEdit(a) && authorized ==>
                View() == CancelJob(old(View()), a, id, if |text| > 500 then text[..500] else text, write, note)
      ensures CanEdit(a) && authorized && old(CancelFault(View(), a, id)).Some? ==>
                fault == old(CancelFault(View(), a, id))
    {
      var message := if |text| > 500 then text[..500] else text;
      if !CanEdit(a) || !authorized { return Some(Forbidden); }
      if id !in jobs { return Some(NotFound); }
      if jobs[id].actor != a.id && a.role != "admin" { return Some(Forbidden); }
      if Terminal(jobs[id].state) { return None; }
      CancelNow(a.id, id, ByUser, write);
      if !write { return Some(WriteFailed); }
      if message != "" {
        var job := jobs[id].(cancelMessage := message);
        CommitNext(a.id, id, CancelNote, Store(plans, jobs[id := job], keys, audit), note);
        if !note { return Some(WriteFailed); }
      }
      return None;
    }

    /** revoke: cancel every unfinished job of the owner that uses the credential, stopping at the first
        failed write; `writes` is how many succeed. `order` is the order the jobs were visited in. */
    method Revoke(owner: Id, credential: Id, reason: Reason, writes: nat) returns (ok: bool, ghost order: seq<Id>)
      requires forall id :: id in jobs ==> jobs[id].id == id
      modifies this
      ensures View() == RevokeAll(old(View()), reason, order)
      ensures forall id :: id in order ==> Revoked(old(Stored()), id, owner, credential)
      ensures forall i, k :: 0 <= i < k < |order| ==> order[i] != order[k]
      ensures ok ==> forall id :: Revoked(old(Stored()), id, owner, credential) ==> id in order
      ensures !ok ==> |order| == writes
    {
      hide RequestCancel, Commit, CancelLocked, RevokeAll;
      order := [];
      RevokeNone(View(), reason);
      ghost var c := View();
      var s := Store(plans, jobs, keys, audit);
      var left := jobs.Keys;
      var done := 0;
      while left != {}
        invariant s == old(Stored()) && c == old(View()) && left <= s.jobs.Keys && done == |order|
        invariant View() == RevokeAll(c, reason, order)
        invariant forall id :: id in order ==> id !in left && Revoked(s, id, owner, credential)
        invariant forall i, k :: 0 <= i < k < |order| ==> order[i] != order[k]
        invariant forall id :: id !in left && Revoked(s, id, owner, credential) ==> id in order
        decreases |left|
      {
        var id :| id in left;
        left := left - {id};
        var job := s.jobs[id];
        RevokeAllEffect(c, reason, order);
        if job.actor != owner || Terminal(job.state) { continue; }
        var uses := Uses(s, job, credential);
        if uses {
          if done == writes {
            return false, order;
          }
          CancelNow("system", id, reason, true);
          RevokeSnoc(c, reason, order, id);
          order := order + [id];
          done := done + 1;
        }
      }
      return true, order;
    }

    /** The commit of Reconcile. */
    method ReconcileLocked(actor: Id, id: Id, outcome: Outcome, write: bool)
      requires id in jobs && jobs[id].id == id
      modifies this
      ensures View() == ReconcileJob(old(View()), actor, id, outcome, write)
    {
      var job := jobs[id].(reconciliation := Some(outcome));
      match outcome {
        case Absent => job := job.(disposition := Cleaned, unresolved := []);
        case Present => job := job.(disposition := Retained, unresolved := []);
        case Unverified => job := job.(disposition := Unknown);
      }
      CommitNext(actor, id, JobReconciled, Store(plans, jobs[id := job], keys, audit), write);
    }

    /** SubscribeChanges: judge the cursor, fill the new channel, register it. */
    method SubscribeChanges(sub: nat, cursor: string) returns (ok: bool)
      requires sub !in subs
      modifies `subs
      ensures ok == (|old(subs)| < MAX_SUBSCRIBERS)
      ensures subs == if ok then old(subs)[sub := old(Opening(View(), cursor))] else old(subs)
    {
      if |subs| >= MAX_SUBSCRIBERS { return false; }
      var core := Core(Store(plans, jobs, keys, audit), instance, journal, subs, dropped, cancels, dead);
      ghost var opening := Opening(View(), cursor);
      assert core == View();
      var channel: seq<Change> := [];
      match Requested(core, cursor) {
        case Err(reason) => channel := [Resync(core, cursor, reason)];
        case Ok(v) =>
          for i := 0 to |journal|
            invariant Requested(core, cursor) == Ok(v) && channel + After(journal[i..], v) == After(journal, v)
          {
            assert journal[i..][1..] == journal[i + 1..];
            if journal[i].version > v { channel := channel + [journal[i]]; }
          }
          assert After(journal[|journal|..], v) == [];
      }
      assert channel == opening;
      subs := subs[sub := channel];
      return true;
    }
  }

  method CheckPlans(plans: map<Id, SavedPlan>) returns (valid: bool)
    ensures valid <==> forall id :: id in plans ==> plans[id].id == id && ValidPlan(plans[id])
  {
    hide ValidPlan;
    var left := plans.Keys;
    while left != {}
      invariant left <= plans.Keys
      invariant forall id :: id in plans && id !in left ==> plans[id].id == id && ValidPlan(plans[id])
      decreases |left|
    {
      var id :| id in left;
      left := left - {id};
      if plans[id].id != id || !ValidPlan(plans[id]) { return false; }
    }
    return true;
  }

  method CheckKeys(s: Store) returns (valid: bool)
    ensures valid <==> forall k :: k in s.keys ==> s.keys[k].job in s.jobs
  {
    var left := s.keys.Keys;
    while left != {}
      invariant left <= s.keys.Keys
      invariant forall k :: k in s.keys && k !in left ==> s.keys[k].job in s.jobs
      decreases |left|
    {
      var k :| k in left;
      left := left - {k};
      if s.keys[k].job !in s.jobs { return false; }
    }
    return true;
  }

  /** The loader's checks of plans, keys and jobs. */
  method CheckSnapshot(s: Store) returns (valid: bool)
    ensures valid == SnapshotValid(s)
  {
    hide ValidPlan, JobMatchesPlan;
    valid := CheckPlans(s.plans);
    if !valid { return; }
    valid := CheckKeys(s);
    if !valid { return; }
    var left := s.jobs.Keys;
    while left != {}
      invariant left <= s.jobs.Keys
      invariant forall id :: id in s.jobs && id !in left ==> JobMatchesPlan(s, id)
      decreases |left|
    {
      var id :| id in left;
      left := left - {id};
      if !JobMatchesPlan(s, id) { return false; }
    }
  }

  method InterruptLive(s: Store) returns (jobs: map<Id, Job>, changed: bool)
    ensures jobs == InterruptAll(s).jobs && changed == AnyLive(s)
  {
    hide Interrupt, Terminal;
    ghost var target := InterruptAll(s).jobs;
    jobs, changed := s.jobs, false;
    var left := s.jobs.Keys;
    while left != {}
      invariant left <= s.jobs.Keys == jobs.Keys == target.Keys
      invariant forall id :: id in left ==> jobs[id] == s.jobs[id]
      invariant forall id :: id in s.jobs && id !in left ==> jobs[id] == target[id]
      invariant changed ==> AnyLive(s)
      invariant !changed ==> forall id :: id in s.jobs && id !in left ==> Terminal(s.jobs[id].state)
      decreases |left|
    {
      var id :| id in left;
      left := left - {id};
      var job := jobs[id];
      InterruptCases(job, ResourcesOf(s, job));
      if !Terminal(job.state) {
        jobs := jobs[id := Interrupt(job, ResourcesOf(s, job))];
        changed := true;
      }
    }
  }

  /** OpenWebJobs: check the snapshot, interrupt what was unfinished, record that in one commit. */
  method OpenWebJobs(s: Store, instance: string, write: bool) returns (r: Result<WebJobs, Fault>)
    ensures r.Ok? <==> SnapshotValid(s) && (AnyLive(s) ==> write)
    ensures r.Ok? ==> fresh(r.value) && r.value.View() == Opened(s, instance)
    ensures r.Err? ==> r.error == if SnapshotValid(s) then WriteFailed else InvalidSnapshot
  {
    hide SnapshotValid, AnyLive;
    var valid := CheckSnapshot(s);
    if !valid { return Err(InvalidSnapshot); }
    var jobs, changed := InterruptLive(s);
    var server := new WebJobs(s, instance);
    if changed {
      if !write { return Err(WriteFailed); }
      server.CommitNext("system", "", JobsInterrupted, Store(s.plans, jobs, s.keys, s.audit), true);
    }
    return Ok(server);
  }

  lemma InterruptCases(j: Job, resources: seq<string>)
    ensures Terminal(j.state) ==> Interrupt(j, resources) == j
  {
  }
}
