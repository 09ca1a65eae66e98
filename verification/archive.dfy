/** The observation archive and the audited deletion of one run's part of it. */
module ObservationArchive {
  import opened Common
  import opened JobModel
  import opened Windows

  const DAY: int := 86_400_000_000_000

  function DayOf(t: int): int { t / DAY }

  /** Sample and log records are daily segments. */
  datatype Name = Samples(day: int) | Logs(node: string, day: int)

  /** An archived line: its stamped time, or none when it cannot be read. */
  datatype Entry = Stamped(time: int, text: string) | Garbled(text: string)

  /** Complete lines, and a trailing partial line that is still being written. */
  datatype Segment = Segment(lines: seq<Entry>, partial: string)

  datatype GapLine = GapLine(from: int, to: int, run: Id)

  /** An instant the deletion of w may remove. */
  predicate Owned(w: Window, protected: seq<Window>, t: int) { Covers(w, t) && !Shielded(w.network, protected, t) }

  predicate Dropped(w: Window, protected: seq<Window>, e: Entry) { e.Stamped? && Owned(w, protected, e.time) }

  function Kept(w: Window, protected: seq<Window>, lines: seq<Entry>): seq<Entry> {
    if lines == [] then []
    else
      var rest, last := lines[..|lines| - 1], lines[|lines| - 1];
      Kept(w, protected, rest) + if Dropped(w, protected, last) then [] else [last]
  }

  /** A segment after the deletion passed over it. */
  function Swept(w: Window, protected: seq<Window>, s: Segment): Segment {
    Segment(Kept(w, protected, s.lines), s.partial)
  }

  lemma {:induction false} KeptMeaning(w: Window, protected: seq<Window>, lines: seq<Entry>)
    ensures forall e :: e in Kept(w, protected, lines) <==> e in lines && !Dropped(w, protected, e)
    ensures Kept(w, protected, lines) == lines <==> forall e :: e in lines ==> !Dropped(w, protected, e)
    ensures |Kept(w, protected, lines)| <= |lines|
  {
    hide Dropped, Kept;
    KeptStep(w, protected, lines);
    if lines != [] {
      var rest, last := lines[..|lines| - 1], lines[|lines| - 1];
      KeptMeaning(w, protected, rest);
      assert lines == rest + [last];
    }
  }

  lemma KeptStep(w: Window, protected: seq<Window>, lines: seq<Entry>)
    ensures Kept(w, protected, lines) ==
              if lines == [] then []
              else
                var rest, last := lines[..|lines| - 1], lines[|lines| - 1];
                Kept(w, protected, rest) + if Dropped(w, protected, last) then [] else [last]
  {
  }

  /** The kept lines stand in their order, each as often as before. */
  lemma {:induction false} KeptInOrder(w: Window, protected: seq<Window>, a: seq<Entry>, b: seq<Entry>)
    ensures Kept(w, protected, a + b) == Kept(w, protected, a) + Kept(w, protected, b)
    decreases |b|
  {
    hide Dropped, Kept;
    KeptStep(w, protected, a + b);
    KeptStep(w, protected, b);
    if b == [] {
      assert a + b == a;
    } else {
      assert (a + b)[..|a + b| - 1] == a + b[..|b| - 1];
      KeptInOrder(w, protected, a, b[..|b| - 1]);
    }
  }

  /** Sweeping twice is sweeping once. */
  lemma SweepIdempotent(w: Window, protected: seq<Window>, s: Segment)
    ensures Swept(w, protected, Swept(w, protected, s)) == Swept(w, protected, s)
  {
    hide Dropped, Kept;
    KeptMeaning(w, protected, s.lines);
    KeptMeaning(w, protected, Kept(w, protected, s.lines));
  }

  /** dropArchived: rewrite one segment without the owned lines; unreadable and partial lines stay. */
  method DropArchived(w: Window, protected: seq<Window>, s: Segment) returns (kept: Segment, changed: bool)
    ensures kept == Swept(w, protected, s) && changed == (kept != s)
  {
    hide Owned;
    var lines: seq<Entry> := [];
    changed := false;
    for i := 0 to |s.lines|
      invariant lines == Kept(w, protected, s.lines[..i])
      invariant changed <==> exists k :: 0 <= k < i && Dropped(w, protected, s.lines[k])
    {
      assert s.lines[..i + 1][..i] == s.lines[..i];
      if s.lines[i].Stamped? && Owned(w, protected, s.lines[i].time) {
        changed := true;
        continue;
      }
      lines := lines + [s.lines[i]];
    }
    assert s.lines[..|s.lines|] == s.lines;
    kept := Segment(lines, s.partial);
    KeptMeaning(w, protected, s.lines);
    assert changed ==> exists e :: e in s.lines && Dropped(w, protected, e);
  }

  /** webMonitorDays: the days a window touches. */
  method MonitorDays(from: int, until: int) returns (days: seq<int>)
    ensures forall d :: d in days <==> DayOf(from) <= d && d * DAY <= until
  {
    days := [];
    var day := DayOf(from) * DAY;
    var d := DayOf(from);
    while day <= until
      invariant day == d * DAY && d >= DayOf(from)
      invariant forall x :: x in days <==> DayOf(from) <= x < d
      invariant forall x :: DayOf(from) <= x < d ==> x * DAY <= until
      decreases until - day + DAY
    {
      days := days + [d];
      day := day + DAY;
      d := d + 1;
    }
    assert forall x :: x >= d ==> x * DAY > until;
  }

  /** Every instant of a window falls on one of its days. */
  lemma DayListed(from: int, to: int, t: int)
    requires from <= t <= to
    ensures DayOf(from) <= DayOf(t) && DayOf(t) * DAY <= to
  {
  }

  method GapLines(run: Id, parts: seq<Interval>) returns (deleted: seq<GapLine>)
    ensures deleted == DeletedGaps(run, parts)
  {
    deleted := [];
    for i := 0 to |parts|
      invariant deleted == DeletedGaps(run, parts[..i])
    {
      assert parts[..i + 1][..i] == parts[..i];
      deleted := deleted + [GapLine(parts[i].from, parts[i].to, run)];
    }
    assert parts[..|parts|] == parts;
  }

  class Monitor {
    var records: map<Name, Segment>
    var gaps: seq<GapLine>

    constructor (records: map<Name, Segment>, gaps: seq<GapLine>)
      ensures this.records == records && this.gaps == gaps
    {
      this.records, this.gaps := records, gaps;
    }

    /** deleteWindow: record the deletion, then rewrite the segments of the window's days. `appended` is
        whether the gap lines could be written and `rewrites` how many segments could be rewritten before
        one failed. `touched` is what was rewritten. */
    method DeleteWindow(run: Id, w: Window, protected: seq<Window>, appended: bool, rewrites: nat)
      returns (ok: bool, ghost touched: set<Name>)
      modifies this
      ensures w.to.None? ==> !ok && touched == {} && gaps == old(gaps)
      ensures w.to.Some? && !appended ==> !ok && touched == {} && gaps == old(gaps)
      ensures w.to.Some? && appended ==>
                gaps == old(gaps) + DeletedGaps(run, Remaining(w.network, [Interval(w.from, w.to.value)], protected))
      ensures records.Keys == old(records).Keys && touched <= records.Keys
      ensures forall n :: n in records ==>
                records[n] == if n in touched then Swept(w, protected, old(records)[n]) else old(records)[n]
      ensures w.to.Some? && appended ==> DeletionDone(old(records), records, gaps, run, w, protected, touched)
      ensures ok ==> forall n :: n in records && DayOf(w.from) <= n.day && n.day * DAY <= w.to.value ==> n in touched
    {
      hide Swept, DeletedGaps, Remaining, DeletionDone;
      touched := {};
      if w.to.None? { return false, touched; }
      var parts := Unprotected(w, protected);
      var deleted := GapLines(run, parts);
      if !appended { return false, touched; }
      gaps := gaps + deleted;
      var days := MonitorDays(w.from, w.to.value);
      var names := set n | n in records && n.day in days;
      ok, touched := SweepSegments(names, w, protected, rewrites);
      DeletionIsDone(old(records), records, old(gaps), run, w, protected, touched);
    }

    /** The rewriting loop of deleteWindow. */
    method SweepSegments(names: set<Name>, w: Window, protected: seq<Window>, rewrites: nat)
      returns (ok: bool, ghost touched: set<Name>)
      requires names <= records.Keys
      modifies `records
      ensures records.Keys == old(records).Keys && touched <= names
      ensures forall n :: n in records ==>
                records[n] == if n in touched then Swept(w, protected, old(records)[n]) else old(records)[n]
      ensures ok ==> touched == names
    {
      hide Swept;
      touched := {};
      var left := names;
      var done := 0;
      while left != {}
        invariant left <= names <= records.Keys && records.Keys == old(records).Keys
        invariant touched == names - left
        invariant forall n :: n in records ==>
                    records[n] == if n in touched then Swept(w, protected, old(records)[n]) else old(records)[n]
        decreases |left|
      {
        if done == rewrites { return false, touched; }
        var n :| n in left;
        left := left - {n};
        var kept, changed := DropArchived(w, protected, records[n]);
        if changed { records := records[n := kept]; }
        touched := touched + {n};
        done := done + 1;
      }
      return true, touched;
    }
  }

  lemma DeletionIsDone(before: map<Name, Segment>, after: map<Name, Segment>, gaps: seq<GapLine>, run: Id, w: Window,
                       protected: seq<Window>, touched: set<Name>)
    requires w.to.Some? && after.Keys == before.Keys && touched <= before.Keys
    requires forall n :: n in after ==> after[n] == if n in touched then Swept(w, protected, before[n]) else before[n]
    ensures var deleted := DeletedGaps(run, Remaining(w.network, [Interval(w.from, w.to.value)], protected));
            DeletionDone(before, after, gaps + deleted, run, w, protected, touched)
  {
    hide Swept, DeletedGaps, Remaining;
  }

  function DeletedGaps(run: Id, parts: seq<Interval>): seq<GapLine> {
    if parts == [] then []
    else DeletedGaps(run, parts[..|parts| - 1]) + [GapLine(parts[|parts| - 1].from, parts[|parts| - 1].to, run)]
  }

  lemma {:induction false} DeletedGapsMeaning(run: Id, parts: seq<Interval>, t: int)
    requires InAny(parts, t)
    ensures exists g :: g in DeletedGaps(run, parts) && g.run == run && g.from <= t <= g.to
  {
    var k :| 0 <= k < |parts| && Inside(parts[k], t);
    var rest, last := parts[..|parts| - 1], parts[|parts| - 1];
    var gs := DeletedGaps(run, parts);
    if k == |parts| - 1 {
      assert gs[|gs| - 1] in gs;
    } else {
      assert Inside(rest[k], t);
      DeletedGapsMeaning(run, rest, t);
      var g :| g in DeletedGaps(run, rest) && g.run == run && g.from <= t <= g.to;
      assert g in gs;
    }
  }

  /** Every line is filed under the day of its own time. */
  ghost predicate FiledByDay(records: map<Name, Segment>) {
    forall n, e :: n in records && e in records[n].lines && e.Stamped? ==> DayOf(e.time) == n.day
  }

  /** What a deletion did: segments in `touched` were swept, the others kept, and the gap lines were added. */
  ghost predicate DeletionDone(before: map<Name, Segment>, after: map<Name, Segment>, gaps: seq<GapLine>, run: Id,
                               w: Window, protected: seq<Window>, touched: set<Name>)
  {
    && w.to.Some? && after.Keys == before.Keys && touched <= before.Keys
    && (forall n :: n in after ==> after[n] == if n in touched then Swept(w, protected, before[n]) else before[n])
    && forall g :: g in DeletedGaps(run, Remaining(w.network, [Interval(w.from, w.to.value)], protected)) ==> g in gaps
  }

  /** Deletion agrees with protection, wherever it stopped: a line disappears only if the window covers its
      time and nothing protected does, and every such time lies in a recorded deleted interval of the run. */
  lemma DeletionAgrees(before: map<Name, Segment>, after: map<Name, Segment>, gaps: seq<GapLine>, run: Id, w: Window,
                       protected: seq<Window>, touched: set<Name>, n: Name, e: Entry)
    requires DeletionDone(before, after, gaps, run, w, protected, touched)
    requires n in before && e in before[n].lines && e !in after[n].lines
    ensures e.Stamped? && Covers(w, e.time) && !Shielded(w.network, protected, e.time)
    ensures exists g :: g in gaps && g.run == run && g.from <= e.time <= g.to
  {
    hide Kept, Remaining, Shielded, DeletedGaps;
    KeptMeaning(w, protected, before[n].lines);
    var part := [Interval(w.from, w.to.value)];
    assert Inside(part[0], e.time);
    RemainingMeaning(w.network, part, protected, e.time);
    DeletedGapsMeaning(run, Remaining(w.network, part, protected), e.time);
    var g :| g in DeletedGaps(run, Remaining(w.network, part, protected)) && g.run == run && g.from <= e.time <= g.to;
    assert g in gaps;
  }

  /** After a deletion that reports success no owned readable line is left, and running it again
      changes no record. */
  lemma SuccessLeavesNothing(before: map<Name, Segment>, after: map<Name, Segment>, gaps: seq<GapLine>, run: Id,
                             w: Window, protected: seq<Window>, touched: set<Name>)
    requires DeletionDone(before, after, gaps, run, w, protected, touched) && FiledByDay(before)
    requires forall n :: n in before && DayOf(w.from) <= n.day && n.day * DAY <= w.to.value ==> n in touched
    ensures forall n, e :: n in after && e in after[n].lines ==> !Dropped(w, protected, e)
    ensures forall n :: n in after ==> Swept(w, protected, after[n]) == after[n]
  {
    hide Kept, Shielded, Remaining, DeletedGaps;
    forall n | n in after
      ensures Swept(w, protected, after[n]) == after[n]
      ensures forall e :: e in after[n].lines ==> !Dropped(w, protected, e)
    {
      KeptMeaning(w, protected, before[n].lines);
      KeptMeaning(w, protected, after[n].lines);
      forall e | e in after[n].lines ensures !Dropped(w, protected, e) {
        if n !in touched && e.Stamped? && Covers(w, e.time) {
          DayListed(w.from, w.to.value, e.time);
        }
      }
    }
  }

  /** deleteObservations end to end: with the protected windows collected from the other runs and jobs, a line
      that disappears was claimed by no other execution and no unfinished job. */
  lemma OthersKeepTheirLines(before: map<Name, Segment>, after: map<Name, Segment>, gaps: seq<GapLine>, run: Id,
                             w: Window, protected: seq<Window>, touched: set<Name>, n: Name, e: Entry,
                             captures: map<Id, Id>, jobs: map<Id, Job>, job: Id)
    requires DeletionDone(before, after, gaps, run, w, protected, touched)
    requires n in before && e in before[n].lines && e !in after[n].lines
    requires forall t :: Shielded(w.network, protected, t) <==> Claimed(captures, jobs, run, job, w.network, t)
    ensures e.Stamped? && !Claimed(captures, jobs, run, job, w.network, e.time)
  {
    hide DeletionDone, Shielded, Claimed;
    DeletionAgrees(before, after, gaps, run, w, protected, touched, n, e);
  }

  // ---------- a record's deletion, in terms of jobs ----------

  /** The record's job names a network and, once ended, has a phase that finished after its creation. */
  predicate HasWindow(jobs: map<Id, Job>, job: Id) {
    && job != "" && job in jobs && jobs[job].workspace != ""
    && (EndedState(jobs[job]) ==> FinishedSince(jobs[job], jobs[job].createdAt + 1))
  }

  /** The record's own execution spans the instant, and no other execution and no other unfinished job claims it. */
  predicate OwnAlone(captures: map<Id, Id>, jobs: map<Id, Job>, id: Id, job: Id, t: int)
    requires job in jobs
  {
    Spans(jobs[job], t) && !Claimed(captures, jobs, id, job, jobs[job].workspace, t)
  }

  /** Every line that went is readable, was the record's alone, and lies in a recorded deletion of the record. */
  ghost predicate OnlyOwnGone(before: map<Name, Segment>, after: map<Name, Segment>, gaps: seq<GapLine>,
                              captures: map<Id, Id>, jobs: map<Id, Job>, id: Id, job: Id)
    requires job in jobs && after.Keys == before.Keys
  {
    forall n, e :: n in before && e in before[n].lines && e !in after[n].lines ==>
      && e.Stamped? && OwnAlone(captures, jobs, id, job, e.time)
      && exists g :: g in gaps && g.run == id && g.from <= e.time <= g.to
  }

  ghost predicate NoneOwnLeft(after: map<Name, Segment>, captures: map<Id, Id>, jobs: map<Id, Job>, id: Id, job: Id)
    requires job in jobs
  {
    forall n, e :: n in after && e in after[n].lines && e.Stamped? ==> !OwnAlone(captures, jobs, id, job, e.time)
  }

  lemma OwnedIsOwn(captures: map<Id, Id>, jobs: map<Id, Job>, id: Id, job: Id, w: Window, protected: seq<Window>)
    requires job != "" && WindowOf(jobs, job) == Some(w)
    requires forall t :: Shielded(w.network, protected, t) <==> Claimed(captures, jobs, id, job, w.network, t)
    ensures job in jobs && forall t :: Owned(w, protected, t) <==> OwnAlone(captures, jobs, id, job, t)
  {
    hide Shielded, Claimed, Spans, Covers, WindowOf;
    WindowIsHis(jobs, job);
    forall t ensures Owned(w, protected, t) <==> OwnAlone(captures, jobs, id, job, t) {
      WindowMeaning(jobs, job, t);
    }
  }

  lemma WindowIsHis(jobs: map<Id, Job>, job: Id)
    ensures WindowOf(jobs, job).Some? ==> job != "" && job in jobs
  {
  }

  lemma OnlyOwn(before: map<Name, Segment>, after: map<Name, Segment>, gaps: seq<GapLine>, captures: map<Id, Id>,
                jobs: map<Id, Job>, id: Id, job: Id, w: Window, protected: seq<Window>, touched: set<Name>)
    requires job in jobs && forall t :: Owned(w, protected, t) <==> OwnAlone(captures, jobs, id, job, t)
    requires DeletionDone(before, after, gaps, id, w, protected, touched)
    ensures after.Keys == before.Keys && OnlyOwnGone(before, after, gaps, captures, jobs, id, job)
  {
    hide OwnAlone, Shielded, Covers, Swept, DeletedGaps, Remaining;
    forall n, e | n in before && e in before[n].lines && e !in after[n].lines
      ensures e.Stamped? && OwnAlone(captures, jobs, id, job, e.time)
      ensures exists g :: g in gaps && g.run == id && g.from <= e.time <= g.to
    {
      DeletionAgrees(before, after, gaps, id, w, protected, touched, n, e);
      assert Owned(w, protected, e.time);
    }
  }

  lemma NoneOwn(before: map<Name, Segment>, after: map<Name, Segment>, gaps: seq<GapLine>, captures: map<Id, Id>,
                jobs: map<Id, Job>, id: Id, job: Id, w: Window, protected: seq<Window>, touched: set<Name>)
    requires job in jobs && forall t :: Owned(w, protected, t) <==> OwnAlone(captures, jobs, id, job, t)
    requires DeletionDone(before, after, gaps, id, w, protected, touched) && FiledByDay(before)
    requires forall n :: n in before && DayOf(w.from) <= n.day && n.day * DAY <= w.to.value ==> n in touched
    ensures NoneOwnLeft(after, captures, jobs, id, job)
  {
    hide OwnAlone, Owned, Swept, DeletedGaps, Remaining;
    SuccessLeavesNothing(before, after, gaps, id, w, protected, touched);
    forall n, e | n in after && e in after[n].lines && e.Stamped? ensures !OwnAlone(captures, jobs, id, job, e.time) {
      assert !Dropped(w, protected, e);
    }
  }

  /** deleteObservations. A record without a window deletes nothing and succeeds, one whose job is still unfinished
      deletes nothing and fails. Otherwise, wherever it stops, only readable lines go that were the record's alone, in
      recorded intervals; when it succeeds none of those is left. */
  method DeleteObservations(monitor: Monitor, captures: map<Id, Id>, jobs: map<Id, Job>, id: Id, job: Id,
                            appended: bool, rewrites: nat)
    returns (ok: bool)
    modifies monitor
    ensures monitor.records.Keys == old(monitor.records).Keys
    ensures !HasWindow(jobs, job) ==> ok && monitor.records == old(monitor.records) && monitor.gaps == old(monitor.gaps)
    ensures HasWindow(jobs, job) && (!EndedState(jobs[job]) || !appended) ==>
              !ok && monitor.records == old(monitor.records) && monitor.gaps == old(monitor.gaps)
    ensures HasWindow(jobs, job) && EndedState(jobs[job]) ==>
              OnlyOwnGone(old(monitor.records), monitor.records, monitor.gaps, captures, jobs, id, job)
    ensures HasWindow(jobs, job) && ok && FiledByDay(old(monitor.records)) ==>
              NoneOwnLeft(monitor.records, captures, jobs, id, job)
  {
    hide WindowOf, FinishedSince, Shielded, Claimed, Swept, DeletionDone, OnlyOwnGone, NoneOwnLeft, FiledByDay, Owned,
         OwnAlone, DeletedGaps, Remaining;
    var w := WindowOfRun(jobs, job);
    WindowIsHis(jobs, job);
    if job != "" && job in jobs {
      WindowMeaning(jobs, job, 0);
    }
    if w.None? {
      return true;
    }
    var protected := ProtectedWindows(captures, jobs, id, job, w.value.network);
    OwnedIsOwn(captures, jobs, id, job, w.value, protected);
    ghost var touched;
    ghost var before := monitor.records;
    ok, touched := monitor.DeleteWindow(id, w.value, protected, appended, rewrites);
    if w.value.to.Some? && appended {
      OnlyOwn(before, monitor.records, monitor.gaps, captures, jobs, id, job, w.value, protected, touched);
      if ok && FiledByDay(before) {
        NoneOwn(before, monitor.records, monitor.gaps, captures, jobs, id, job, w.value, protected, touched);
      }
    } else {
      assert monitor.records == before;
      NothingGone(before, monitor.gaps, captures, jobs, id, job);
    }
  }

  lemma NothingGone(records: map<Name, Segment>, gaps: seq<GapLine>, captures: map<Id, Id>, jobs: map<Id, Job>, id: Id,
                    job: Id)
    requires job in jobs
    ensures OnlyOwnGone(records, records, gaps, captures, jobs, id, job)
  {
  }
}
