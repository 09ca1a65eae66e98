/** Observation windows, and what is left of one when others protect parts of it. Times are nanoseconds. */
module Windows {
  import opened Common
  import opened JobModel

  /** The archived interval a run owns on one network; no end while the run is open. */
  datatype Window = Window(network: Id, from: int, to: Option<int>)

  predicate Covers(w: Window, t: int) { w.from <= t && (w.to.None? || t <= w.to.value) }

  datatype Interval = Interval(from: int, to: int)

  predicate Inside(i: Interval, t: int) { i.from <= t <= i.to }

  /** What one protected window leaves of one part. */
  function Cut(part: Interval, p: Window): seq<Interval> {
    if (p.to.Some? && p.to.value < part.from) || p.from > part.to then [part]
    else
      var left := if p.from > part.from then [Interval(part.from, p.from)] else [];
      var right := if p.to.Some? && p.to.value < part.to then [Interval(p.to.value, part.to)] else [];
      left + right
  }

  function CutAll(parts: seq<Interval>, p: Window): seq<Interval> {
    if parts == [] then [] else Cut(parts[0], p) + CutAll(parts[1..], p)
  }

  function Remaining(network: Id, parts: seq<Interval>, protected: seq<Window>): seq<Interval> {
    if protected == [] then parts
    else
      var last := protected[|protected| - 1];
      var before := Remaining(network, parts, protected[..|protected| - 1]);
      if last.network != network then before else CutAll(before, last)
  }

  /** The inner loop: subtract one protected window from every part. */
  method CutParts(parts: seq<Interval>, p: Window) returns (next: seq<Interval>)
    ensures next == CutAll(parts, p)
  {
    hide CutAll;
    next := [];
    CutNothing(p);
    for k := 0 to |parts|
      invariant next == CutAll(parts[..k], p)
    {
      var part := parts[k];
      var pieces: seq<Interval> := [];
      if (p.to.Some? && p.to.value < part.from) || p.from > part.to {
        pieces := [part];
      } else {
        if p.from > part.from { pieces := pieces + [Interval(part.from, p.from)]; }
        if p.to.Some? && p.to.value < part.to { pieces := pieces + [Interval(p.to.value, part.to)]; }
      }
      assert pieces == Cut(part, p);
      assert parts[..k + 1] == parts[..k] + [part];
      CutOneMore(parts[..k], part, p);
      next := next + pieces;
    }
    assert parts[..|parts|] == parts;
  }

  lemma CutNothing(p: Window)
    ensures CutAll([], p) == []
  {
  }

  lemma {:induction false} CutOneMore(parts: seq<Interval>, x: Interval, p: Window)
    ensures CutAll(parts + [x], p) == CutAll(parts, p) + Cut(x, p)
  {
    hide Cut;
    if parts == [] {
      assert [x][1..] == [];
      assert parts + [x] == [x];
    } else {
      CutOneMore(parts[1..], x, p);
      assert (parts + [x])[1..] == parts[1..] + [x];
    }
  }

  /** webUnprotected: the parts of a closed window that no protected window covers. */
  method Unprotected(w: Window, protected: seq<Window>) returns (out: seq<Interval>)
    requires w.to.Some?
    ensures out == Remaining(w.network, [Interval(w.from, w.to.value)], protected)
  {
    ghost var start := [Interval(w.from, w.to.value)];
    out := [Interval(w.from, w.to.value)];
    for i := 0 to |protected|
      invariant out == Remaining(w.network, start, protected[..i])
    {
      var p := protected[i];
      assert protected[..i + 1][..i] == protected[..i];
      if p.network != w.network { continue; }
      var next := CutParts(out, p);
      out := next;
    }
    assert protected[..|protected|] == protected;
  }

  predicate Shielded(network: Id, protected: seq<Window>, t: int) {
    exists k :: 0 <= k < |protected| && protected[k].network == network && Covers(protected[k], t)
  }

  predicate InAny(parts: seq<Interval>, t: int) { exists k :: 0 <= k < |parts| && Inside(parts[k], t) }

  predicate StrictlyInAny(parts: seq<Interval>, t: int) {
    exists k :: 0 <= k < |parts| && parts[k].from < t < parts[k].to
  }

  lemma InAnySplit(a: seq<Interval>, b: seq<Interval>, t: int)
    ensures InAny(a + b, t) <==> InAny(a, t) || InAny(b, t)
    ensures StrictlyInAny(a + b, t) <==> StrictlyInAny(a, t) || StrictlyInAny(b, t)
  {
    assert forall k :: 0 <= k < |a| ==> (a + b)[k] == a[k];
    assert forall k :: 0 <= k < |b| ==> (a + b)[|a| + k] == b[k];
    if InAny(a + b, t) {
      var k :| 0 <= k < |a + b| && Inside((a + b)[k], t);
      assert k >= |a| ==> Inside(b[k - |a|], t);
    }
    if StrictlyInAny(a + b, t) {
      var k :| 0 <= k < |a + b| && (a + b)[k].from < t < (a + b)[k].to;
      assert k >= |a| ==> b[k - |a|].from < t < b[k - |a|].to;
    }
  }

  lemma CutMeaning(part: Interval, p: Window, t: int)
    ensures Inside(part, t) && !Covers(p, t) ==> InAny(Cut(part, p), t)
    ensures InAny(Cut(part, p), t) ==> Inside(part, t)
    ensures StrictlyInAny(Cut(part, p), t) ==> part.from < t < part.to && !Covers(p, t)
  {
    var c := Cut(part, p);
    if Inside(part, t) && !Covers(p, t) {
      if t < p.from {
        assert Inside(c[0], t);
      } else {
        assert Inside(c[|c| - 1], t);
      }
    }
  }

  lemma {:induction false} CutAllMeaning(parts: seq<Interval>, p: Window, t: int)
    ensures InAny(parts, t) && !Covers(p, t) ==> InAny(CutAll(parts, p), t)
    ensures InAny(CutAll(parts, p), t) ==> InAny(parts, t)
    ensures StrictlyInAny(CutAll(parts, p), t) ==> StrictlyInAny(parts, t) && !Covers(p, t)
  {
    hide Cut, Covers;
    if parts != [] {
      CutMeaning(parts[0], p, t);
      CutAllMeaning(parts[1..], p, t);
      assert parts == [parts[0]] + parts[1..];
      InAnySplit([parts[0]], parts[1..], t);
      InAnySplit(Cut(parts[0], p), CutAll(parts[1..], p), t);
      assert InAny([parts[0]], t) <==> Inside([parts[0]][0], t);
      assert StrictlyInAny([parts[0]], t) <==> [parts[0]][0].from < t < [parts[0]][0].to;
    }
  }

  /** The subtraction agrees with the instant-by-instant predicate: an instant of the window that nothing
      protects lies in a remaining part, every remaining part lies in the window, and inside a part,
      away from its two ends, nothing is protected. */
  lemma {:induction false} RemainingMeaning(network: Id, parts: seq<Interval>, protected: seq<Window>, t: int)
    ensures InAny(parts, t) && !Shielded(network, protected, t) ==> InAny(Remaining(network, parts, protected), t)
    ensures InAny(Remaining(network, parts, protected), t) ==> InAny(parts, t)
    ensures StrictlyInAny(Remaining(network, parts, protected), t) ==>
              StrictlyInAny(parts, t) && !Shielded(network, protected, t)
  {
    hide InAny, StrictlyInAny, CutAll, Covers;
    if protected != [] {
      var last, before := protected[|protected| - 1], protected[..|protected| - 1];
      RemainingMeaning(network, parts, before, t);
      CutAllMeaning(Remaining(network, parts, before), last, t);
      ShieldedStep(network, protected, t);
    }
  }

  lemma ShieldedStep(network: Id, protected: seq<Window>, t: int)
    requires protected != []
    ensures var last := protected[|protected| - 1];
            Shielded(network, protected, t) <==>
                  Shielded(network, protected[..|protected| - 1], t) || (last.network == network && Covers(last, t))
  {
    hide Covers;
    var before := protected[..|protected| - 1];
    assert forall k :: 0 <= k < |before| ==> before[k] == protected[k];
  }

  // ---------- whose windows protect ----------

  /** windowOf: from creation to the last finished phase, or open while the job is unfinished; nothing when
      the end of a finished job is not after its start. The zero time is 0. */
  function WindowOf(jobs: map<Id, Job>, id: Id): Option<Window> {
    if id == "" || id !in jobs || jobs[id].workspace == "" then None
    else
      var j := jobs[id];
      if !Terminal(j.state) then Some(Window(j.workspace, j.createdAt, None))
      else
        var end := LastFinish(j.phases);
        if end <= j.createdAt then None else Some(Window(j.workspace, j.createdAt, Some(end)))
  }

  function LastFinish(phases: seq<Phase>): int {
    if phases == [] then 0
    else
      var before := LastFinish(phases[..|phases| - 1]);
      var f := phases[|phases| - 1].finishedAt;
      if f > before then f else before
  }

  method WindowOfRun(jobs: map<Id, Job>, id: Id) returns (w: Option<Window>)
    ensures w == WindowOf(jobs, id)
  {
    if id == "" || id !in jobs || jobs[id].workspace == "" { return None; }
    var job := jobs[id];
    if !Terminal(job.state) { return Some(Window(job.workspace, job.createdAt, None)); }
    var to := 0;
    for i := 0 to |job.phases|
      invariant to == LastFinish(job.phases[..i])
    {
      assert job.phases[..i + 1][..i] == job.phases[..i];
      if job.phases[i].finishedAt > to { to := job.phases[i].finishedAt; }
    }
    assert job.phases[..|job.phases|] == job.phases;
    if to <= job.createdAt { return None; }
    return Some(Window(job.workspace, job.createdAt, Some(to)));
  }

  /** A finished job's window really spans its phases. */
  lemma {:induction false} LastFinishIsLatest(phases: seq<Phase>, i: nat)
    requires i < |phases|
    ensures phases[i].finishedAt <= LastFinish(phases)
  {
    if i < |phases| - 1 { LastFinishIsLatest(phases[..|phases| - 1], i); }
  }

  predicate EndedState(j: Job) {
    j.state == Succeeded || j.state == Failed || j.state == Cancelled || j.state == Interrupted
  }

  /** Some phase of the job finished at or after this instant; real instants are after the zero time. */
  predicate FinishedSince(j: Job, t: int) { t <= 0 || exists i :: 0 <= i < |j.phases| && j.phases[i].finishedAt >= t }

  /** The instants a job's execution spans: from its creation on, and once it has ended up to its last finished phase.
      An ended job without a phase that finished after its creation spans nothing. */
  predicate Spans(j: Job, t: int) {
    && j.createdAt <= t
    && (EndedState(j) ==> FinishedSince(j, t) && FinishedSince(j, j.createdAt + 1))
  }

  lemma {:induction false} LastFinishSince(phases: seq<Phase>, t: int)
    ensures LastFinish(phases) >= t <==> t <= 0 || exists i :: 0 <= i < |phases| && phases[i].finishedAt >= t
  {
    if phases != [] {
      var rest := phases[..|phases| - 1];
      LastFinishSince(rest, t);
      assert forall i :: 0 <= i < |rest| ==> rest[i] == phases[i];
      assert phases[|phases| - 1].finishedAt >= t ==> exists i :: 0 <= i < |phases| && phases[i].finishedAt >= t;
    }
  }

  /** A job has a window exactly when it names a network and, once ended, some phase finished after its creation; the
      window lies on that network and covers exactly what the job spans. */
  lemma WindowMeaning(jobs: map<Id, Job>, id: Id, t: int)
    requires id != "" && id in jobs
    ensures var j, w := jobs[id], WindowOf(jobs, id);
            && (w.Some? <==> j.workspace != "" && (EndedState(j) ==> FinishedSince(j, j.createdAt + 1)))
            && (w.Some? ==> w.value.network == j.workspace && (w.value.to.None? <==> !EndedState(j)))
            && (w.Some? ==> (Covers(w.value, t) <==> Spans(j, t)))
  {
    var j := jobs[id];
    LastFinishSince(j.phases, j.createdAt + 1);
    LastFinishSince(j.phases, t);
  }

  /** Another execution's record, or another unfinished job, claims this instant of the network. */
  predicate Claimed(captures: map<Id, Id>, jobs: map<Id, Job>, id: Id, job: Id, network: Id, t: int) {
    || (exists other :: other in captures && ClaimedByRun(captures, jobs, id, job, network, other, t))
    || (exists other :: other in jobs && ClaimedByJob(jobs, job, network, other, t))
  }

  predicate ClaimedByRun(captures: map<Id, Id>, jobs: map<Id, Job>, id: Id, job: Id, network: Id, other: Id, t: int)
    requires other in captures
  {
    && other != id && captures[other] != job && captures[other] != "" && captures[other] in jobs
    && jobs[captures[other]].workspace == network && network != "" && Spans(jobs[captures[other]], t)
  }

  predicate ClaimedByJob(jobs: map<Id, Job>, job: Id, network: Id, other: Id, t: int)
    requires other in jobs
  {
    && jobs[other].workspace == network && !EndedState(jobs[other])
    && jobs[other].id != job && jobs[other].createdAt <= t
  }

  /** deleteObservations: collect every window that protects parts of the run's own. `captures` maps each
      history record to its job. */
  method ProtectedWindows(captures: map<Id, Id>, jobs: map<Id, Job>, id: Id, job: Id, network: Id)
    returns (protected: seq<Window>)
    ensures forall k :: 0 <= k < |protected| ==> protected[k].network == network
    ensures forall t :: Shielded(network, protected, t) <==> Claimed(captures, jobs, id, job, network, t)
  {
    var byRuns := RunWindows(captures, jobs, id, job, network);
    var byJobs := JobWindows(jobs, job, network);
    protected := byRuns + byJobs;
    forall t ensures Shielded(network, protected, t) <==> Claimed(captures, jobs, id, job, network, t) {
      ShieldedSplit(network, byRuns, byJobs, t);
    }
  }

  lemma ShieldedSplit(network: Id, a: seq<Window>, b: seq<Window>, t: int)
    ensures Shielded(network, a + b, t) <==> Shielded(network, a, t) || Shielded(network, b, t)
  {
    hide Covers;
    assert forall k :: 0 <= k < |a| ==> (a + b)[k] == a[k];
    assert forall k :: 0 <= k < |b| ==> (a + b)[|a| + k] == b[k];
    if Shielded(network, a + b, t) {
      var k :| 0 <= k < |a + b| && (a + b)[k].network == network && Covers((a + b)[k], t);
      assert k >= |a| ==> b[k - |a|] == (a + b)[k];
    }
  }

  method RunWindows(captures: map<Id, Id>, jobs: map<Id, Job>, id: Id, job: Id, network: Id) returns (out: seq<Window>)
    ensures forall k :: 0 <= k < |out| ==> out[k].network == network
    ensures forall t :: Shielded(network, out, t) <==>
              exists other :: other in captures && ClaimedByRun(captures, jobs, id, job, network, other, t)
  {
    hide WindowOf, Covers, Spans;
    out := [];
    var left := captures.Keys;
    while left != {}
      invariant left <= captures.Keys
      invariant forall k :: 0 <= k < |out| ==> out[k].network == network
      invariant forall t :: Shielded(network, out, t) <==>
                  exists other :: other in captures && other !in left &&
                      ClaimedByRun(captures, jobs, id, job, network, other, t)
      decreases |left|
    {
      var other :| other in left;
      left := left - {other};
      if other == id || captures[other] == job { continue; }
      var p := WindowOfRun(jobs, captures[other]);
      RunClaims(captures, jobs, id, job, network, other);
      if p.Some? && p.value.network == network {
        forall t ensures Shielded(network, out + [p.value], t) <==> Shielded(network, out, t) || Covers(p.value, t) {
          ShieldedSplit(network, out, [p.value], t);
          assert Shielded(network, [p.value], t) <==> Covers([p.value][0], t);
        }
        out := out + [p.value];
      }
    }
  }

  lemma RunClaims(captures: map<Id, Id>, jobs: map<Id, Job>, id: Id, job: Id, network: Id, other: Id)
    requires other in captures && other != id && captures[other] != job
    ensures var w := WindowOf(jobs, captures[other]);
            forall t :: ClaimedByRun(captures, jobs, id, job, network, other, t) <==>
                          w.Some? && w.value.network == network && Covers(w.value, t)
  {
    hide Covers, Spans;
    var run := captures[other];
    if run != "" && run in jobs {
      forall t ensures var w := WindowOf(jobs, run);
                       ClaimedByRun(captures, jobs, id, job, network, other, t) <==>
                         w.Some? && w.value.network == network && Covers(w.value, t) {
        WindowMeaning(jobs, run, t);
        SpansFinished(jobs[run], t);
      }
    }
  }

  lemma SpansFinished(j: Job, t: int)
    ensures Spans(j, t) && EndedState(j) ==> FinishedSince(j, j.createdAt + 1)
  {
  }

  method JobWindows(jobs: map<Id, Job>, job: Id, network: Id) returns (out: seq<Window>)
    ensures forall k :: 0 <= k < |out| ==> out[k].network == network
    ensures forall t :: Shielded(network, out, t) <==>
              exists other :: other in jobs && ClaimedByJob(jobs, job, network, other, t)
  {
    out := [];
    var left := jobs.Keys;
    while left != {}
      invariant left <= jobs.Keys
      invariant forall k :: 0 <= k < |out| ==> out[k].network == network
      invariant forall t :: Shielded(network, out, t) <==>
                  exists other :: other in jobs && other !in left && ClaimedByJob(jobs, job, network, other, t)
      decreases |left|
    {
      var other :| other in left;
      left := left - {other};
      var j := jobs[other];
      if j.workspace == network && !Terminal(j.state) && j.id != job {
        var p := Window(network, j.createdAt, None);
        forall t ensures Shielded(network, out + [p], t) <==> Shielded(network, out, t) || Covers(p, t) {
          ShieldedSplit(network, out, [p], t);
          assert Shielded(network, [p], t) <==> Covers([p][0], t);
        }
        out := out + [p];
      }
    }
  }
}
