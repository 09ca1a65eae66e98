/** What every durable state of the job store satisfies, and what each commit keeps. */
module JobSafety {
  import opened Common
  import opened Text
  import opened Claims
  import opened JobModel
  import opened JobFeed
  import opened JobHolds
  import opened JobCore

  /** Every stored plan kept the identity of the input it was made from. */
  ghost predicate PlansOk(s: Store) {
    forall id :: id in s.plans ==>
      && s.plans[id].input.workspace == s.plans[id].workspace && s.plans[id].input.operation == s.plans[id].operation
  }

  ghost predicate ShapesOk(s: Store) {
    "" !in s.jobs && forall id :: id in s.jobs ==> JobShape(s.jobs[id])
  }

  predicate KeyFor(text: string, key: Key, j: Job) { j.plan == key.body && j.actor + ":" <= text }

  /** Keys and jobs are in one-to-one correspondence, and a key belongs to its job's actor. */
  ghost predicate KeysOk(s: Store) {
    && (forall k :: k in s.keys ==> s.keys[k].job in s.jobs && KeyFor(k, s.keys[k], s.jobs[s.keys[k].job]))
    && (forall k, l :: k in s.keys && l in s.keys && s.keys[k].job == s.keys[l].job ==> k == l)
    && (forall id :: id in s.jobs ==> exists k :: k in s.keys && s.keys[k].job == id)
  }

  /** Every job was accepted exactly once. */
  ghost predicate AcceptedOnce(s: Store) {
    && (forall i :: 0 <= i < |s.audit| && s.audit[i].operation == JobAccepted ==> s.audit[i].job in s.jobs)
    && (forall i, k :: 0 <= i < k < |s.audit| ==>
          (s.audit[i].operation == JobAccepted && s.audit[k].operation == JobAccepted ==>
             s.audit[i].job != s.audit[k].job))
    && (forall id :: id in s.jobs ==>
       exists i :: 0 <= i < |s.audit| && s.audit[i].operation == JobAccepted && s.audit[i].job == id)
  }

  ghost predicate Apart(s: Store, i: Job, j: Job) {
    forall a, b :: a in ClaimsOf(s, i) && b in ClaimsOf(s, j) ==> !Overlap(a, b)
  }

  /** No two unfinished jobs hold overlapping claims. */
  ghost predicate Exclusive(s: Store) {
    forall i, j :: i in s.jobs && j in s.jobs && i != j && !Terminal(s.jobs[i].state) && !Terminal(s.jobs[j].state)
      ==> Apart(s, s.jobs[i], s.jobs[j])
  }

  ghost predicate StoreOk(s: Store) {
    SnapshotValid(s) && PlansOk(s) && ShapesOk(s) && KeysOk(s) && AcceptedOnce(s) && Exclusive(s)
  }

  /** What no run undoes. */
  ghost predicate StoreLater(s: Store, t: Store) {
    && s.audit <= t.audit
    && (forall id :: id in s.plans ==> id in t.plans && t.plans[id] == s.plans[id])
    && (forall k :: k in s.keys ==> k in t.keys && t.keys[k] == s.keys[k])
    && (forall id :: id in s.jobs ==> id in t.jobs && JobLater(s.jobs[id], t.jobs[id]))
  }

  lemma LaterReflexive(s: Store)
    ensures StoreLater(s, s)
  {
  }

  lemma LaterTransitive(s: Store, t: Store, u: Store)
    requires StoreLater(s, t) && StoreLater(t, u)
    ensures StoreLater(s, u)
  {
    forall id | id in s.jobs ensures id in u.jobs && JobLater(s.jobs[id], u.jobs[id]) {
      assert JobLater(s.jobs[id], t.jobs[id]) && JobLater(t.jobs[id], u.jobs[id]);
    }
  }

  // ---------- commits that accept no job ----------

  ghost predicate PlanAdded(p: SavedPlan, id: Id) {
    p.id == id && ValidPlan(p) && p.input.workspace == p.workspace && p.input.operation == p.operation
  }

  /** A commit that accepts no job: plans are added, jobs move forward, one audit entry is written. */
  ghost predicate Advances(s: Store, t: Store) {
    && t.keys == s.keys && t.jobs.Keys == s.jobs.Keys
    && |t.audit| == |s.audit| + 1 && t.audit[..|s.audit|] == s.audit && t.audit[|s.audit|].operation != JobAccepted
    && (forall id :: id in s.plans ==> id in t.plans && t.plans[id] == s.plans[id])
    && (forall id :: id in t.plans && id !in s.plans ==> PlanAdded(t.plans[id], id))
    && (forall id :: id in t.jobs ==> JobShape(t.jobs[id]) && JobLater(s.jobs[id], t.jobs[id]))
  }

  lemma AdvancesValid(s: Store, t: Store)
    requires SnapshotValid(s) && PlansOk(s) && ShapesOk(s) && Advances(s, t)
    ensures SnapshotValid(t) && PlansOk(t) && ShapesOk(t)
  {
    hide JobShape, ValidPlan, JobLater;
    forall id | id in t.jobs ensures JobMatchesPlan(t, id) {
      assert JobMatchesPlan(s, id) && JobLater(s.jobs[id], t.jobs[id]);
      LaterIsSame(s.jobs[id], t.jobs[id]);
    }
    forall id | id in t.plans ensures PlanAdded(t.plans[id], id) {
      assert id in s.plans ==> PlanAdded(s.plans[id], id);
    }
  }

  lemma LaterIsSame(a: Job, b: Job)
    requires JobLater(a, b)
    ensures SameIdentity(a, b)
  {
  }

  lemma AdvancesKeys(s: Store, t: Store)
    requires KeysOk(s) && Advances(s, t)
    ensures KeysOk(t)
  {
    hide JobShape, PlanAdded;
    forall id | id in t.jobs ensures exists k :: k in t.keys && t.keys[k].job == id {
      assert id in s.jobs;
    }
    forall k | k in t.keys ensures t.keys[k].job in t.jobs && KeyFor(k, t.keys[k], t.jobs[t.keys[k].job]) {
      assert JobLater(s.jobs[t.keys[k].job], t.jobs[t.keys[k].job]);
      assert KeyFor(k, s.keys[k], s.jobs[s.keys[k].job]);
    }
  }

  lemma AdvancesAccepted(s: Store, t: Store)
    requires AcceptedOnce(s) && Advances(s, t)
    ensures AcceptedOnce(t)
  {
    hide JobShape, JobLater, PlanAdded;
    assert forall i :: 0 <= i < |s.audit| ==> t.audit[i] == t.audit[..|s.audit|][i];
    forall id | id in t.jobs
      ensures exists i :: 0 <= i < |t.audit| && t.audit[i].operation == JobAccepted && t.audit[i].job == id
    {
      var i :| 0 <= i < |s.audit| && s.audit[i].operation == JobAccepted && s.audit[i].job == id;
      assert t.audit[i] == s.audit[i];
    }
  }

  lemma AdvancesExclusive(s: Store, t: Store)
    requires Exclusive(s) && SnapshotValid(s) && Advances(s, t)
    ensures Exclusive(t)
  {
    hide JobShape, PlanAdded, ValidPlan, Overlap;
    forall a, b | a in t.jobs && b in t.jobs && a != b && !Terminal(t.jobs[a].state) && !Terminal(t.jobs[b].state)
      ensures Apart(t, t.jobs[a], t.jobs[b])
    {
      assert JobLater(s.jobs[a], t.jobs[a]) && JobLater(s.jobs[b], t.jobs[b]);
      assert JobMatchesPlan(s, a) && JobMatchesPlan(s, b);
      assert Apart(s, s.jobs[a], s.jobs[b]);
      assert ClaimsOf(t, t.jobs[a]) == ClaimsOf(s, s.jobs[a]);
      assert ClaimsOf(t, t.jobs[b]) == ClaimsOf(s, s.jobs[b]);
    }
  }

  lemma AdvancesLater(s: Store, t: Store)
    requires Advances(s, t)
    ensures StoreLater(s, t)
  {
    hide JobShape, JobLater, PlanAdded;
  }

  lemma AdvancesOk(s: Store, t: Store)
    requires StoreOk(s) && Advances(s, t)
    ensures StoreOk(t) && StoreLater(s, t)
  {
    hide SnapshotValid, PlansOk, ShapesOk, KeysOk, AcceptedOnce, Exclusive, StoreLater, Advances;
    AdvancesValid(s, t);
    AdvancesKeys(s, t);
    AdvancesAccepted(s, t);
    AdvancesExclusive(s, t);
    AdvancesLater(s, t);
  }

  /** The store after a commit that replaced one job. */
  function Replaced(s: Store, actor: Id, op: Operation, j: Job): Store {
    s.(jobs := s.jobs[j.id := j], audit := s.audit + [Entry(actor, j.id, op)])
  }

  lemma ReplacedAdvances(s: Store, actor: Id, op: Operation, j: Job)
    requires ShapesOk(s) && op != JobAccepted && j.id in s.jobs && JobShape(j) && JobLater(s.jobs[j.id], j)
    ensures Advances(s, Replaced(s, actor, op, j))
  {
    hide JobShape;
  }

  lemma ReplacedOk(s: Store, actor: Id, op: Operation, j: Job)
    requires StoreOk(s) && op != JobAccepted && j.id in s.jobs && JobShape(j) && JobLater(s.jobs[j.id], j)
    ensures StoreOk(Replaced(s, actor, op, j)) && StoreLater(s, Replaced(s, actor, op, j))
  {
    hide SnapshotValid, PlansOk, ShapesOk, KeysOk, AcceptedOnce, Exclusive, StoreLater, Advances, JobShape, JobLater,
         Replaced;
    ReplacedAdvances(s, actor, op, j);
    AdvancesOk(s, Replaced(s, actor, op, j));
  }

  // ---------- new plans, new jobs, reopening ----------

  function WithPlan(s: Store, p: SavedPlan): Store {
    s.(plans := s.plans[p.id := p], audit := s.audit + [Entry(p.actor, "", PlanCreated)])
  }

  lemma PlanOk(s: Store, p: SavedPlan)
    requires StoreOk(s) && p.id !in s.plans && PlanAdded(p, p.id)
    ensures StoreOk(WithPlan(s, p)) && StoreLater(s, WithPlan(s, p))
  {
    hide SnapshotValid, PlansOk, KeysOk, AcceptedOnce, Exclusive, StoreLater, JobShape, PlanAdded;
    assert Advances(s, WithPlan(s, p));
    AdvancesOk(s, WithPlan(s, p));
  }

  function WithJob(s: Store, a: Actor, key: string, j: Job): Store {
    s.(jobs := s.jobs[j.id := j], keys := s.keys[KeyText(a.id, key) := Key(j.plan, j.id)],
       audit := s.audit + [Entry(a.id, j.id, JobAccepted)])
  }

  lemma NewKeyFor(a: Actor, key: string, j: Job)
    requires j.actor == a.id
    ensures KeyFor(KeyText(a.id, key), Key(j.plan, j.id), j)
  {
  }

  lemma AcceptedKeys(s: Store, a: Actor, key: string, j: Job)
    requires KeysOk(s) && j.id !in s.jobs && j.actor == a.id && KeyText(a.id, key) !in s.keys
    ensures KeysOk(WithJob(s, a, key, j))
  {
    hide KeyFor;
    var t := WithJob(s, a, key, j);
    var new_ := KeyText(a.id, key);
    NewKeyFor(a, key, j);
    forall id | id in t.jobs ensures exists k :: k in t.keys && t.keys[k].job == id {
      if id == j.id {
        assert t.keys[new_].job == id;
      } else {
        var k :| k in s.keys && s.keys[k].job == id;
        assert t.keys[k] == s.keys[k];
      }
    }
  }

  lemma AcceptedAudit(s: Store, a: Actor, key: string, j: Job)
    requires AcceptedOnce(s) && j.id !in s.jobs
    ensures AcceptedOnce(WithJob(s, a, key, j))
  {
    var t := WithJob(s, a, key, j);
    forall id | id in t.jobs
      ensures exists i :: 0 <= i < |t.audit| && t.audit[i].operation == JobAccepted && t.audit[i].job == id
    {
      if id == j.id {
        assert t.audit[|s.audit|].job == id;
      } else {
        var i :| 0 <= i < |s.audit| && s.audit[i].operation == JobAccepted && s.audit[i].job == id;
        assert t.audit[i] == s.audit[i];
      }
    }
  }

  lemma NoHolderApart(s: Store, held: Job, j: Job, launched: map<Id, set<string>>, workspace: Id)
    requires !Terminal(held.state) && !Blocks(s, launched, held, workspace, ClaimsOf(s, j))
    ensures Apart(s, held, j) && Apart(s, j, held)
  {
    forall h, r | h in ClaimsOf(s, held) && r in ClaimsOf(s, j) ensures !Overlap(h, r) && !Overlap(r, h) {
      OverlapMeaning(r, h);
      var names := if held.workspace in launched then launched[held.workspace] else {};
      assert Overlap(r, h) ==> ClaimBlocks(s, names, held, h, ClaimsOf(s, j));
    }
  }

  lemma AcceptedExclusive(s: Store, a: Actor, key: string, j: Job, launched: map<Id, set<string>>, workspace: Id)
    requires Exclusive(s) && SnapshotValid(s) && j.id !in s.jobs
    requires !exists id :: id in s.jobs && Blocks(s, launched, s.jobs[id], workspace, ClaimsOf(s, j))
    ensures Exclusive(WithJob(s, a, key, j))
  {
    hide Blocks, Overlap, ValidPlan;
    var t := WithJob(s, a, key, j);
    forall x, y | x in t.jobs && y in t.jobs && x != y && !Terminal(t.jobs[x].state) && !Terminal(t.jobs[y].state)
      ensures Apart(t, t.jobs[x], t.jobs[y])
    {
      if x == j.id {
        NoHolderApart(s, s.jobs[y], j, launched, workspace);
      } else if y == j.id {
        NoHolderApart(s, s.jobs[x], j, launched, workspace);
      }
      assert ClaimsOf(t, t.jobs[x]) == ClaimsOf(s, t.jobs[x]) && ClaimsOf(t, t.jobs[y]) == ClaimsOf(s, t.jobs[y]);
      assert Apart(s, t.jobs[x], t.jobs[y]);
    }
  }

  lemma AcceptedValid(s: Store, a: Actor, plan: Id, key: string, id: Id, now: int)
    requires SnapshotValid(s) && PlansOk(s) && ShapesOk(s) && id != "" && id !in s.jobs
    requires plan in s.plans && s.plans[plan].actor == a.id
    ensures var t := WithJob(s, a, key, NewJob(a, plan, s.plans[plan], id, now));
            SnapshotValid(t) && PlansOk(t) && ShapesOk(t)
  {
    hide ValidPlan, KeyText;
    var t := WithJob(s, a, key, NewJob(a, plan, s.plans[plan], id, now));
    forall x | x in t.jobs ensures JobMatchesPlan(t, x) {
      assert x in s.jobs ==> JobMatchesPlan(s, x);
    }
  }

  lemma AcceptedLater(s: Store, a: Actor, key: string, j: Job)
    requires j.id !in s.jobs && KeyText(a.id, key) !in s.keys
    ensures StoreLater(s, WithJob(s, a, key, j))
  {
    hide KeyText;
  }

  /** The acceptance that Start decides on keeps every invariant of the store. */
  lemma AcceptOk(s: Store, a: Actor, plan: Id, key: string, current: Prepared,
                 launched: map<Id, set<string>>, id: Id, now: int)
    requires StoreOk(s) && id != "" && id !in s.jobs && plan in s.plans
    requires StartVerdict(s, a, plan, key, s.plans[plan], current, launched, now).Fresh?
    ensures var t := WithJob(s, a, key, NewJob(a, plan, s.plans[plan], id, now)); StoreOk(t) && StoreLater(s, t)
  {
    hide Blocks, SnapshotValid, PlansOk, ShapesOk, KeysOk, AcceptedOnce, Exclusive, StoreLater, ValidPrepared;
    var j := NewJob(a, plan, s.plans[plan], id, now);
    AcceptedKeys(s, a, key, j);
    AcceptedAudit(s, a, key, j);
    AcceptedExclusive(s, a, key, j, launched, s.plans[plan].input.workspace);
    AcceptedValid(s, a, plan, key, id, now);
    AcceptedLater(s, a, key, j);
  }

  function Reopened(s: Store): Store {
    InterruptAll(s).(audit := s.audit + [Entry("system", "", JobsInterrupted)])
  }

  lemma ReopenAdvances(s: Store)
    requires ShapesOk(s)
    ensures Advances(s, Reopened(s))
    ensures forall id :: id in Reopened(s).jobs ==> Terminal(Reopened(s).jobs[id].state)
  {
  }

  /** Every durable state reopens: the loader's checks pass, and afterwards every job has ended. */
  lemma ReopenSucceeds(s: Store, instance: string)
    requires StoreOk(s)
    ensures SnapshotValid(s)
    ensures var c := Opened(s, instance);
            && StoreOk(c.store) && StoreLater(s, c.store) && JournalOk(c)
            && forall id :: id in c.store.jobs ==> Terminal(c.store.jobs[id].state)
  {
    hide SnapshotValid, PlansOk, ShapesOk, KeysOk, AcceptedOnce, Exclusive, Advances, StoreLater;
    ReopenAdvances(s);
    AdvancesOk(s, Reopened(s));
    LaterReflexive(s);
    if AnyLive(s) {
      CommitKeepsJournal(Loaded(s, instance), "system", "", JobsInterrupted, InterruptAll(s));
      assert Opened(s, instance).store == Reopened(s);
    }
  }

  // ---------- idempotency keys ----------

  lemma {:induction false} FirstColon(a: string, x: string, b: string, y: string)
    requires ':' !in a && ':' !in b && a + ":" + x == b + ":" + y
    ensures a == b && x == y
  {
    var l, r := a + ":" + x, b + ":" + y;
    assert forall i :: 0 <= i < |a| ==> l[i] == a[i] && a[i] in a;
    assert forall i :: 0 <= i < |b| ==> r[i] == b[i] && b[i] in b;
    assert l[|a|] == ':' && r[|b|] == ':';
    assert |a| == |b|;
    assert l[..|a|] == a && r[..|b|] == b;
    assert l[|a| + 1..] == x && r[|b| + 1..] == y;
  }

  /** The text a key is hashed from tells actors apart exactly when their ids hold no colon:
      an id with a colon shares a key text with another id. */
  lemma KeyTextInjective(a: Id, k: string, b: Id, l: string)
    ensures ':' !in a && ':' !in b && KeyText(a, k) == KeyText(b, l) ==> a == b && k == l
    ensures ':' in b ==> exists a', k' :: a' != b && KeyText(a', k') == KeyText(b, l)
  {
    if ':' !in a && ':' !in b && KeyText(a, k) == KeyText(b, l) {
      FirstColon(a, k, b, l);
    }
    if ':' in b {
      var i := IndexOf(b, ':');
      assert i < |b|;
      var a', k' := b[..i], b[i + 1..] + ":" + l;
      assert b == a' + ":" + b[i + 1..];
      assert KeyText(a', k') == KeyText(b, l);
    }
  }
}
