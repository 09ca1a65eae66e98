/** Collecting one node's log across replaced files, failures and crashes: lines reach the archive before the
    position that covers them is saved, whichever collector reads and wherever it stops. */
module LogCollect {
  import opened Common
  import opened LogTail
  import opened LogAppend

  /** An archived line and the day record it belongs to. */
  datatype Line = Line(text: string, day: nat)

  function Texts(lines: seq<Line>): (r: seq<string>)
    ensures |r| == |lines| && forall i :: 0 <= i < |lines| ==> r[i] == lines[i].text
  {
    seq(|lines|, i requires 0 <= i < |lines| => lines[i].text)
  }

  function OnDay(lines: seq<Line>, d: nat): seq<string> {
    if lines == [] then [] else (if lines[0].day == d then [lines[0].text] else []) + OnDay(lines[1..], d)
  }

  /** The loop of archiveLog that sorts a read's lines into day records. */
  method GroupByDay(lines: seq<Line>) returns (days: seq<nat>, byDay: map<nat, seq<string>>)
    ensures forall d :: d in byDay <==> d in days
    ensures forall i, k :: 0 <= i < k < |days| ==> days[i] != days[k]
    ensures forall d :: OnDay(lines, d) == if d in byDay then byDay[d] else []
  {
    hide OnDay;
    days, byDay := [], map[];
    DayStart(lines);
    for i := 0 to |lines|
      invariant forall d :: d in byDay <==> d in days
      invariant forall x, y :: 0 <= x < y < |days| ==> days[x] != days[y]
      invariant forall d :: OnDay(lines[..i], d) == if d in byDay then byDay[d] else []
    {
      var day := lines[i].day;
      DayStep(lines, i);
      if day !in byDay {
        days := days + [day];
        byDay := byDay[day := []];
      }
      byDay := byDay[day := byDay[day] + [lines[i].text]];
    }
    assert lines[..|lines|] == lines;
  }

  lemma DayStart(lines: seq<Line>)
    ensures forall d :: OnDay(lines[..0], d) == []
  {
  }

  lemma DayStep(lines: seq<Line>, i: nat)
    requires i < |lines|
    ensures forall d :: d != lines[i].day ==> OnDay(lines[..i + 1], d) == OnDay(lines[..i], d)
    ensures OnDay(lines[..i + 1], lines[i].day) == OnDay(lines[..i], lines[i].day) + [lines[i].text]
  {
    assert lines[..i + 1] == lines[..i] + [lines[i]];
    forall d
      ensures OnDay(lines[..i + 1], d) == OnDay(lines[..i], d) + if lines[i].day == d then [lines[i].text] else [] {
      OnDayConcat(lines[..i], [lines[i]], d);
      assert [lines[i]][1..] == [];
    }
  }

  lemma {:induction false} OnDayConcat(a: seq<Line>, b: seq<Line>, d: nat)
    ensures OnDay(a + b, d) == OnDay(a, d) + OnDay(b, d)
  {
    if a == [] {
      assert a + b == b;
    } else {
      OnDayConcat(a[1..], b, d);
      assert (a + b)[1..] == a[1..] + b;
    }
  }

  // ---------- subsequences ----------

  predicate Subsequence(a: seq<string>, b: seq<string>) {
    a == [] || (b != [] && ((a[0] == b[0] && Subsequence(a[1..], b[1..])) || Subsequence(a, b[1..])))
  }

  lemma {:induction false} SubsequenceGrows(a: seq<string>, b: seq<string>, c: seq<string>)
    requires Subsequence(a, b)
    ensures Subsequence(a, b + c) && Subsequence(a + c, b + c)
    decreases |b|
  {
    if b == [] {
      assert a + c == c && b + c == c;
      SubsequenceOfItself(c);
    } else {
      assert (b + c)[1..] == b[1..] + c;
      if a == [] {
        SubsequenceGrows(a, b[1..], c);
      } else if a[0] == b[0] && Subsequence(a[1..], b[1..]) {
        SubsequenceGrows(a[1..], b[1..], c);
        assert (a + c)[1..] == a[1..] + c;
      } else {
        SubsequenceGrows(a, b[1..], c);
      }
    }
  }

  lemma {:induction false} SubsequenceOfItself(a: seq<string>)
    ensures Subsequence(a, a)
  {
    if a != [] { SubsequenceOfItself(a[1..]); }
  }

  // ---------- the step system ----------

  /** A position with what it stands for. `lines` is everything archived up to it, from this log and from the
      logs it replaced; from `base` on they are the lines of the reading of `seen` that began with the key-block
      flag `first`. `sound` records that every step since has kept it one. */
  datatype Work = Work(pos: Pos, seen: LogFile, first: bool, marks: seq<bool>, lines: seq<Line>, base: nat, sound: bool)

  /** A collector: the position it took over, the one after its read, and the days appended so far. */
  datatype Collector = Collector(from: Work, now: Work, read: bool, appended: set<nat>)

  datatype Log = Log(file: LogFile, archive: map<nat, seq<string>>, saved: Work, collectors: map<nat, Collector>)

  /** `Replace` puts any other file in the log's place; a read that observes the log a second time finds `later`
      there, or nothing when that observation fails. `Unstore` is a day record the background collector could
      not append: it saves the position all the same. */
  datatype Action =
    | Grow(more: string)
    | Replace(file: LogFile)
    | Begin(who: nat)
    | Read(who: nat, later: LogFile, observed: bool, days: seq<nat>)
    | Append(who: nat, day: nat)
    | Save(who: nat)
    | Unstore(who: nat)
    | Drop(who: nat)
    | Forget
    | Crash

  function Record(l: Log, d: nat): seq<string> { if d in l.archive then l.archive[d] else [] }

  function Pending(c: Collector): seq<Line> {
    if |c.from.lines| <= |c.now.lines| then c.now.lines[|c.from.lines|..] else []
  }

  function First(l: Log, w: Work): (s: Snapshot)
    ensures s.Seen?
  {
    Take(l.file, w.pos.offset)
  }

  predicate Again(l: Log, w: Work) { Restarts(w.pos, First(l, w)) && w.pos.offset != 0 }

  /** What the next read of a position yields. */
  function NextRead(redact: string -> string, l: Log, w: Work, later: LogFile, observed: bool): Outcome {
    Archive(redact, w.pos, First(l, w), if observed then Take(later, 0) else Unreadable)
  }

  function Stamp(texts: seq<string>, days: seq<nat>): (r: seq<Line>)
    requires |texts| == |days|
    ensures |r| == |texts| && forall i :: 0 <= i < |r| ==> r[i] == Line(texts[i], days[i])
  {
    seq(|texts|, i requires 0 <= i < |texts| => Line(texts[i], days[i]))
  }

  /** The position after a read, and what it stands for now. */
  function ReadOn(redact: string -> string, l: Log, w: Work, later: LogFile, observed: bool, days: seq<nat>): Work
    requires |days| == |NextRead(redact, l, w, later, observed).lines|
  {
    var o := NextRead(redact, l, w, later, observed);
    var lines := w.lines + Stamp(o.lines, days);
    if Again(l, w) && !observed then w.(pos := o.pos, seen := l.file, sound := w.sound && StillReads(w, l.file, o.pos))
    else if Restarts(w.pos, First(l, w)) then
      var text := if Again(l, w) then later.content else l.file.content;
      var secret := if Rotated(w.pos, First(l, w)) then false else w.pos.secret;
      Work(o.pos, LogFile(l.file.id, text), secret, NewMarks(START, Take(LogFile(l.file.id, text), 0).data), lines,
           |w.lines|, true)
    else
      Work(o.pos, l.file, w.first, w.marks + NewMarks(w.pos, First(l, w).data), lines, w.base,
           w.sound && SameBefore(w.seen, l.file, w.pos))
  }

  /** A position keeps its offset but takes over the flags of a read of `g`: the log has not changed before it, it
      stands at a line's start, and the key-block flag is the one it had. */
  predicate StillReads(w: Work, g: LogFile, q: Pos) {
    SameBefore(w.seen, g, w.pos) && Rest(g.content[..w.pos.offset]) == "" && q.secret == w.pos.secret
  }

  /** What the background collector saves when an append failed. */
  function Fallen(c: Collector): Work {
    c.from.(pos := c.now.pos.(offset := c.from.pos.offset), seen := c.now.seen,
            sound := c.from.sound && StillReads(c.from, c.now.seen, c.now.pos))
  }

  predicate Enabled(redact: string -> string, l: Log, a: Action) {
    match a
    case Grow(_) => true
    case Replace(_) => true
    case Begin(k) => k !in l.collectors
    case Read(k, later, observed, days) =>
      k in l.collectors && !l.collectors[k].read &&
          |days| == |NextRead(redact, l, l.collectors[k].from, later, observed).lines|
    case Append(k, d) => k in l.collectors
    case Save(k) => k in l.collectors && forall x :: x in Pending(l.collectors[k]) ==> x.day in l.collectors[k].appended
    case Unstore(k) => k in l.collectors && Pending(l.collectors[k]) != []
    case Drop(k) => k in l.collectors
    case Forget => true
    case Crash => true
  }

  function Do(redact: string -> string, l: Log, a: Action): Log
    requires Enabled(redact, l, a)
  {
    match a
    case Grow(more) => l.(file := LogFile(l.file.id, l.file.content + more))
    case Replace(file) => l.(file := file)
    case Begin(k) => l.(collectors := l.collectors[k := Collector(l.saved, l.saved, false, {})])
    case Read(k, later, observed, days) =>
      var w := l.collectors[k].from;
      var c := Collector(w, ReadOn(redact, l, w, later, observed, days), true, {});
      l.(file := if Again(l, w) then later else l.file, collectors := l.collectors[k := c])
    case Append(k, d) =>
      var c := l.collectors[k];
      l.(archive := l.archive[d := Record(l, d) + OnDay(Pending(c), d)],
         collectors := l.collectors[k := c.(appended := c.appended + {d})])
    case Save(k) => l.(saved := l.collectors[k].now, collectors := l.collectors - {k})
    case Unstore(k) => l.(saved := Fallen(l.collectors[k]), collectors := l.collectors - {k})
    case Drop(k) => l.(collectors := l.collectors - {k})
    case Forget => l.(saved := Work(START, l.file, false, [], l.saved.lines, |l.saved.lines|, true))
    case Crash => l.(collectors := map[])
  }

  ghost predicate Runs(redact: string -> string, l: Log, actions: seq<Action>)
    decreases |actions|
  {
    actions != [] ==> Enabled(redact, l, actions[0]) && Runs(redact, Do(redact, l, actions[0]), actions[1..])
  }

  ghost function Final(redact: string -> string, l: Log, actions: seq<Action>): Log
    requires Runs(redact, l, actions)
    decreases |actions|
  {
    if actions == [] then l else Final(redact, Do(redact, l, actions[0]), actions[1..])
  }

  function NewLog(f: LogFile): Log { Log(f, map[], Work(START, f, false, [], [], 0, true), map[]) }

  // ---------- the invariant ----------

  ghost predicate StoredOn(l: Log, lines: seq<Line>, d: nat) { Subsequence(OnDay(lines, d), Record(l, d)) }

  /** All these lines are in their day's records, in order. */
  ghost predicate Stored(l: Log, lines: seq<Line>) { forall d :: StoredOn(l, lines, d) }

  /** The lines of the present reading. */
  function Present(w: Work): seq<string> { if w.base <= |w.lines| then Texts(w.lines[w.base..]) else [] }

  ghost predicate WorkOk(redact: string -> string, w: Work) {
    w.base <= |w.lines| && (w.sound ==> Reading(redact, w.first, w.seen, w.pos, w.marks, Present(w)))
  }

  /** A read that archived something no longer skips and knows the log it saw. */
  predicate Settled(c: Collector) {
    && !c.now.pos.skipping
    && (c.from.pos.offset <= |c.now.seen.content| ==> SameFile(c.now.seen, c.now.pos.(offset := c.from.pos.offset)))
  }

  ghost predicate CollectorOk(redact: string -> string, l: Log, c: Collector) {
    && WorkOk(redact, c.from) && WorkOk(redact, c.now) && Stored(l, c.from.lines) && c.from.lines <= c.now.lines
    && (forall d :: d in c.appended ==> StoredOn(l, c.now.lines, d))
    && (Pending(c) != [] ==> Settled(c))
  }

  ghost predicate Inv(redact: string -> string, l: Log) {
    && WorkOk(redact, l.saved) && Stored(l, l.saved.lines)
    && forall k :: k in l.collectors ==> CollectorOk(redact, l, l.collectors[k])
  }

  // ---------- every step keeps it ----------

  lemma ReadKeeps(redact: string -> string, l: Log, w: Work, later: LogFile, observed: bool, days: seq<nat>)
    requires WorkOk(redact, w) && |days| == |NextRead(redact, l, w, later, observed).lines|
    ensures var next := ReadOn(redact, l, w, later, observed, days); WorkOk(redact, next) && w.lines <= next.lines
  {
    hide Reading, Archive, NewMarks, Restarts, Rotated, SameBefore, Take, StillReads;
    var o := NextRead(redact, l, w, later, observed);
    var next := ReadOn(redact, l, w, later, observed, days);
    var stamped := Stamp(o.lines, days);
    assert (w.lines + stamped)[|w.lines|..] == stamped && Texts(stamped) == o.lines;
    assert w.base <= |w.lines| ==> (w.lines + stamped)[w.base..] == w.lines[w.base..] + stamped;
    assert Texts(w.lines[w.base..] + stamped) == Texts(w.lines[w.base..]) + o.lines;
    if Restarts(w.pos, First(l, w)) {
      if w.pos.offset == 0 {
        FirstReads(redact, w.pos, l.file, if observed then Take(later, 0) else Unreadable);
        SameText(l.file);
      } else if observed {
        RestartReads(redact, w.pos, l.file, later);
        SameData(l.file.id, later);
      } else {
        UnobservedKeeps(redact, l, w, later);
      }
    } else if next.sound {
      ContinuedReads(redact, w.first, w.seen, l.file, w.pos, w.marks, Present(w),
                     if observed then Take(later, 0) else Unreadable);
    }
  }

  lemma SameText(f: LogFile)
    ensures LogFile(f.id, f.content) == f
  {
  }

  lemma SameData(id: nat, f: LogFile)
    ensures Take(LogFile(id, f.content), 0).data == Take(f, 0).data
  {
  }

  /** A failed second observation leaves the position as it was judged. */
  lemma UnobservedPos(redact: string -> string, l: Log, w: Work, later: LogFile)
    requires Again(l, w)
    ensures var o := NextRead(redact, l, w, later, false);
            && o.lines == [] && o.pos.offset == w.pos.offset && !o.pos.skipping
            && (w.pos.offset <= |l.file.content| ==> SameFile(l.file, o.pos))
  {
  }

  lemma UnobservedKeeps(redact: string -> string, l: Log, w: Work, later: LogFile)
    requires WorkOk(redact, w) && Again(l, w)
    ensures WorkOk(redact, w.(pos := NextRead(redact, l, w, later, false).pos, seen := l.file,
                              sound := w.sound && StillReads(w, l.file, NextRead(redact, l, w, later, false).pos)))
  {
    hide Reading, NextRead, Again, Rest;
    UnobservedPos(redact, l, w, later);
    var q := NextRead(redact, l, w, later, false).pos;
    if w.sound && StillReads(w, l.file, q) {
      KeptOffset(redact, w.first, w.seen, l.file, w.pos, w.marks, Present(w), q);
    }
  }

  lemma SettledAfterRead(redact: string -> string, l: Log, w: Work, later: LogFile, observed: bool, days: seq<nat>)
    requires |days| == |NextRead(redact, l, w, later, observed).lines|
    ensures var c := Collector(w, ReadOn(redact, l, w, later, observed, days), true, {});
            Pending(c) != [] ==> Settled(c)
  {
    hide Archive, NewMarks, Restarts, Rotated, SameBefore, StillReads;
    ArchiveEnds(redact, w.pos, l.file, if observed then Take(later, 0) else Unreadable);
    JudgedFile(w.pos, l.file);
  }

  lemma FallenKeeps(redact: string -> string, c: Collector)
    requires WorkOk(redact, c.from) && Settled(c)
    ensures WorkOk(redact, Fallen(c))
  {
    hide Reading, Rest;
    if Fallen(c).sound {
      KeptOffset(redact, c.from.first, c.from.seen, c.now.seen, c.from.pos, c.from.marks, Present(c.from),
                 Fallen(c).pos);
    }
  }

  lemma StoredAppend(l: Log, m: Log, d: nat, extra: seq<string>, lines: seq<Line>, x: nat)
    requires m.archive == l.archive[d := Record(l, d) + extra] && StoredOn(l, lines, x)
    ensures StoredOn(m, lines, x)
  {
    hide OnDay, Subsequence;
    if x == d {
      SubsequenceGrows(OnDay(lines, d), Record(l, d), extra);
    }
  }

  lemma AppendKeepsOthers(l: Log, m: Log, d: nat, extra: seq<string>, lines: seq<Line>)
    requires m.archive == l.archive[d := Record(l, d) + extra] && Stored(l, lines)
    ensures Stored(m, lines)
  {
    hide StoredOn;
    forall x ensures StoredOn(m, lines, x) {
      StoredAppend(l, m, d, extra, lines, x);
    }
  }

  lemma AppendKeepsOwn(redact: string -> string, l: Log, m: Log, c: Collector, d: nat)
    requires CollectorOk(redact, l, c) && m.archive == l.archive[d := Record(l, d) + OnDay(Pending(c), d)]
    ensures CollectorOk(redact, m, c.(appended := c.appended + {d}))
  {
    hide OnDay, Subsequence, WorkOk, Stored, StoredOn;
    AppendKeepsOthers(l, m, d, OnDay(Pending(c), d), c.from.lines);
    forall x | x in c.appended + {d} ensures StoredOn(m, c.now.lines, x) {
      if x in c.appended {
        StoredAppend(l, m, d, OnDay(Pending(c), d), c.now.lines, x);
      } else {
        AppendStores(l, m, c, d);
      }
    }
  }

  lemma AppendStores(l: Log, m: Log, c: Collector, d: nat)
    requires Stored(l, c.from.lines) && c.from.lines <= c.now.lines &&
             m.archive == l.archive[d := Record(l, d) + OnDay(Pending(c), d)]
    ensures StoredOn(m, c.now.lines, d)
  {
    hide OnDay, Subsequence;
    assert StoredOn(l, c.from.lines, d);
    assert c.now.lines == c.from.lines + Pending(c);
    OnDayConcat(c.from.lines, Pending(c), d);
    SubsequenceGrows(OnDay(c.from.lines, d), Record(l, d), OnDay(Pending(c), d));
  }

  lemma {:induction false} NoLinesOnDay(lines: seq<Line>, d: nat)
    requires forall x :: x in lines ==> x.day != d
    ensures OnDay(lines, d) == []
  {
    if lines != [] {
      assert lines[0] in lines;
      NoLinesOnDay(lines[1..], d);
    }
  }

  /** Once every day of the pending lines is appended, all lines of the position are archived. */
  lemma SaveStores(redact: string -> string, l: Log, c: Collector)
    requires CollectorOk(redact, l, c) && forall x :: x in Pending(c) ==> x.day in c.appended
    ensures Stored(l, c.now.lines)
  {
    hide OnDay, Subsequence, WorkOk, Settled;
    assert c.now.lines == c.from.lines + Pending(c);
    forall d ensures StoredOn(l, c.now.lines, d) {
      if d !in c.appended {
        assert StoredOn(l, c.from.lines, d);
        OnDayConcat(c.from.lines, Pending(c), d);
        NoLinesOnDay(Pending(c), d);
        assert OnDay(c.from.lines, d) + [] == OnDay(c.from.lines, d);
      }
    }
  }

  lemma SameRecords(redact: string -> string, l: Log, m: Log)
    requires m.archive == l.archive
    ensures forall lines :: Stored(l, lines) ==> Stored(m, lines)
    ensures forall c :: CollectorOk(redact, l, c) ==> CollectorOk(redact, m, c)
  {
    hide Subsequence, OnDay, WorkOk, Settled;
    assert forall lines, d :: StoredOn(l, lines, d) ==> StoredOn(m, lines, d);
  }

  lemma BeginOk(redact: string -> string, l: Log)
    requires Inv(redact, l)
    ensures CollectorOk(redact, l, Collector(l.saved, l.saved, false, {}))
  {
    hide WorkOk, Stored;
  }

  lemma ReadCollectorOk(redact: string -> string, l: Log, k: nat, later: LogFile, observed: bool, days: seq<nat>)
    requires Inv(redact, l) && Enabled(redact, l, Read(k, later, observed, days))
    ensures CollectorOk(redact, l, Do(redact, l, Read(k, later, observed, days)).collectors[k])
  {
    hide WorkOk, Stored, NextRead, ReadOn, Settled, Again;
    var w := l.collectors[k].from;
    assert CollectorOk(redact, l, l.collectors[k]);
    ReadKeeps(redact, l, w, later, observed, days);
    SettledAfterRead(redact, l, w, later, observed, days);
  }

  lemma ForgetOk(redact: string -> string, l: Log)
    requires Inv(redact, l)
    ensures Inv(redact, Do(redact, l, Forget))
  {
    hide Reading, Stored, CollectorOk;
    StartReading(redact, l.file, START);
    var m := Do(redact, l, Forget);
    assert m.saved.lines[m.saved.base..] == [];
    SameRecords(redact, l, m);
  }

  lemma AppendKeeps(redact: string -> string, l: Log, k: nat, d: nat)
    requires Inv(redact, l) && Enabled(redact, l, Append(k, d))
    ensures Inv(redact, Do(redact, l, Append(k, d)))
  {
    hide WorkOk, Stored, OnDay, Pending, Settled;
    var m := Do(redact, l, Append(k, d));
    var extra := OnDay(Pending(l.collectors[k]), d);
    AppendKeepsOthers(l, m, d, extra, l.saved.lines);
    forall x | x in m.collectors ensures CollectorOk(redact, m, m.collectors[x]) {
      if x == k {
        AppendKeepsOwn(redact, l, m, l.collectors[k], d);
      } else {
        OtherCollector(redact, l, m, d, extra, l.collectors[x]);
      }
    }
  }

  lemma OtherCollector(redact: string -> string, l: Log, m: Log, d: nat, extra: seq<string>, c: Collector)
    requires m.archive == l.archive[d := Record(l, d) + extra] && CollectorOk(redact, l, c)
    ensures CollectorOk(redact, m, c)
  {
    hide WorkOk, Stored, StoredOn, Pending, Settled;
    AppendKeepsOthers(l, m, d, extra, c.from.lines);
    forall x | x in c.appended ensures StoredOn(m, c.now.lines, x) {
      StoredAppend(l, m, d, extra, c.now.lines, x);
    }
  }

  lemma SavedOk(redact: string -> string, l: Log, k: nat)
    requires Inv(redact, l) && k in l.collectors
    ensures WorkOk(redact, l.collectors[k].now)
    ensures Pending(l.collectors[k]) != [] ==>
              WorkOk(redact, Fallen(l.collectors[k])) && Stored(l, Fallen(l.collectors[k]).lines)
    ensures (forall x :: x in Pending(l.collectors[k]) ==> x.day in l.collectors[k].appended) ==>
              Stored(l, l.collectors[k].now.lines)
  {
    hide WorkOk, Stored, StoredOn, Pending, StillReads, Settled;
    var c := l.collectors[k];
    assert CollectorOk(redact, l, c);
    if Pending(c) != [] {
      FallenKeeps(redact, c);
    }
    if forall x :: x in Pending(c) ==> x.day in c.appended {
      SaveStores(redact, l, c);
    }
  }

  lemma StepKeepsInv(redact: string -> string, l: Log, a: Action)
    requires Inv(redact, l) && Enabled(redact, l, a)
    ensures Inv(redact, Do(redact, l, a))
  {
    hide WorkOk, Stored, CollectorOk, NextRead, ReadOn, Fallen, Pending, Again, OnDay;
    var m := Do(redact, l, a);
    match a
    case Append(k, d) => AppendKeeps(redact, l, k, d);
    case Forget => ForgetOk(redact, l);
    case Begin(k) =>
      SameRecords(redact, l, m);
      BeginOk(redact, l);
    case Read(k, later, observed, days) =>
      SameRecords(redact, l, m);
      ReadCollectorOk(redact, l, k, later, observed, days);
    case Save(k) =>
      SameRecords(redact, l, m);
      SavedOk(redact, l, k);
    case Unstore(k) =>
      SameRecords(redact, l, m);
      SavedOk(redact, l, k);
    case Grow(more) => SameRecords(redact, l, m);
    case Replace(file) => SameRecords(redact, l, m);
    case Drop(k) => SameRecords(redact, l, m);
    case Crash => SameRecords(redact, l, m);
  }

  /** In every reachable state, at every crash point, with any number of collectors, over replaced logs, failed
      observations and failed appends: every line the saved position stands for is in its day's record, in
      order, and the position is a reading of the log it last saw unless a step has broken that. */
  lemma {:induction false} NothingLostOverRuns(redact: string -> string, l: Log, actions: seq<Action>)
    requires Inv(redact, l) && Runs(redact, l, actions)
    ensures var m := Final(redact, l, actions);
            && Inv(redact, m)
            && (m.saved.sound ==>
               Reading(redact, m.saved.first, m.saved.seen, m.saved.pos, m.saved.marks, Present(m.saved)))
            && forall d :: Subsequence(OnDay(m.saved.lines, d), Record(m, d))
    decreases |actions|
  {
    hide Reading, OnDay, Subsequence, Do, Enabled, CollectorOk;
    if actions == [] {
      forall d ensures Subsequence(OnDay(l.saved.lines, d), Record(l, d)) {
        assert StoredOn(l, l.saved.lines, d);
      }
    } else {
      StepKeepsInv(redact, l, actions[0]);
      NothingLostOverRuns(redact, Do(redact, l, actions[0]), actions[1..]);
    }
  }

  lemma NewLogInv(redact: string -> string, f: LogFile)
    ensures Inv(redact, NewLog(f)) && AllCurrent(NewLog(f))
  {
    StartReading(redact, f, START);
    assert Texts([]) == [];
  }

  // ---------- which steps break a reading ----------

  /** The position, with the lines it stands for, is a reading of the log it last saw. */
  ghost predicate ReadsLog(redact: string -> string, w: Work) {
    w.base <= |w.lines| && Reading(redact, w.first, w.seen, w.pos, w.marks, Present(w))
  }

  ghost predicate AllRead(redact: string -> string, l: Log) {
    && ReadsLog(redact, l.saved)
    && forall k :: k in l.collectors ==> ReadsLog(redact, l.collectors[k].from) && ReadsLog(redact, l.collectors[k].now)
  }

  /** A step that reads on finds the log unchanged before the position. A restart that observes the log again, or
      has nothing before it, does not read on. */
  predicate Unchanged(l: Log, a: Action) {
    match a
    case Read(k, _, observed, _) =>
      k in l.collectors ==>
        var w := l.collectors[k].from;
        if Restarts(w.pos, First(l, w)) then Again(l, w) && !observed ==> SameBefore(w.seen, l.file, w.pos)
        else SameBefore(w.seen, l.file, w.pos)
    case Unstore(k) =>
      k in l.collectors ==> SameBefore(l.collectors[k].from.seen, l.collectors[k].now.seen, l.collectors[k].from.pos)
    case _ => true
  }

  /** A step that breaks no reading: it finds the log unchanged where it reads on, and when it leaves an offset
      behind, by a failed second observation or a failed append, the position stands at a line's start and its
      key-block flag comes out as it was. */
  predicate Harmless(redact: string -> string, l: Log, a: Action)
    requires Enabled(redact, l, a)
  {
    && Unchanged(l, a)
    && match a
       case Read(k, later, observed, _) =>
         var w := l.collectors[k].from;
         Again(l, w) && !observed ==> StillReads(w, l.file, NextRead(redact, l, w, later, false).pos)
       case Unstore(k) => StillReads(l.collectors[k].from, l.collectors[k].now.seen, l.collectors[k].now.pos)
       case _ => true
  }

  /** While every position is a reading of its log, a step over a log unchanged before the positions keeps it so
      exactly when it is harmless. */
  lemma StepKeepsReadings(redact: string -> string, l: Log, a: Action)
    requires Inv(redact, l) && AllRead(redact, l) && Enabled(redact, l, a) && Unchanged(l, a)
    ensures AllRead(redact, Do(redact, l, a)) <==> Harmless(redact, l, a)
  {
    hide ReadsLog, NextRead, Restarts, SameBefore, StillReads, ReadOn, Fallen, CollectorOk, Stored, Again, WorkOk;
    var m := Do(redact, l, a);
    match a
    case Read(k, later, observed, days) =>
      ReadKeepsReading(redact, l, l.collectors[k].from, later, observed, days);
      assert forall x :: x in m.collectors && x != k ==> m.collectors[x] == l.collectors[x];
      assert ReadsLog(redact, m.collectors[k].from);
    case Unstore(k) =>
      assert CollectorOk(redact, l, l.collectors[k]);
      FallenReads(redact, l, l.collectors[k]);
    case Forget => ForgetReads(redact, l);
    case Grow(_) =>
    case Replace(_) =>
    case Begin(_) =>
    case Append(_, _) =>
    case Save(_) =>
    case Drop(_) =>
    case Crash =>
  }

  /** One read from a reading: it ends in a reading exactly when a failed second observation meets StillReads. */
  lemma ReadKeepsReading(redact: string -> string, l: Log, w: Work, later: LogFile, observed: bool, days: seq<nat>)
    requires ReadsLog(redact, w) && |days| == |NextRead(redact, l, w, later, observed).lines|
    requires if Restarts(w.pos, First(l, w)) then Again(l, w) && !observed ==> SameBefore(w.seen, l.file, w.pos)
             else SameBefore(w.seen, l.file, w.pos)
    ensures ReadsLog(redact, ReadOn(redact, l, w, later, observed, days)) <==>
              (Again(l, w) && !observed ==> StillReads(w, l.file, NextRead(redact, l, w, later, false).pos))
  {
    hide Reading, Archive, NewMarks, Restarts, Rotated, Take, Rest, SameBefore, StillReads;
    if Again(l, w) && !observed {
      UnobservedReads(redact, l, w, later, days);
    } else {
      ReadKeeps(redact, l, w.(sound := true), later, observed, days);
      SoundAside(redact, l, w, later, observed, days);
    }
  }

  /** The bookkeeping flag does not change what is read. */
  lemma SoundAside(redact: string -> string, l: Log, w: Work, later: LogFile, observed: bool, days: seq<nat>)
    requires |days| == |NextRead(redact, l, w, later, observed).lines| && !(Again(l, w) && !observed)
    requires !Restarts(w.pos, First(l, w)) ==> SameBefore(w.seen, l.file, w.pos)
    ensures var v := w.(sound := true);
            && NextRead(redact, l, v, later, observed) == NextRead(redact, l, w, later, observed)
            && ReadOn(redact, l, v, later, observed, days).sound
            && ReadOn(redact, l, w, later, observed, days) ==
               ReadOn(redact, l, v, later, observed, days).(sound := ReadOn(redact, l, w, later, observed, days).sound)
  {
    hide Archive, NewMarks, Restarts, Rotated, Take, SameBefore;
  }

  lemma UnobservedReads(redact: string -> string, l: Log, w: Work, later: LogFile, days: seq<nat>)
    requires ReadsLog(redact, w) && Again(l, w) && SameBefore(w.seen, l.file, w.pos)
    requires |days| == |NextRead(redact, l, w, later, false).lines|
    ensures ReadsLog(redact, ReadOn(redact, l, w, later, false, days)) <==>
              StillReads(w, l.file, NextRead(redact, l, w, later, false).pos)
  {
    hide Reading, NextRead, Again, Rest;
    UnobservedPos(redact, l, w, later);
    var q := NextRead(redact, l, w, later, false).pos;
    KeptOffset(redact, w.first, w.seen, l.file, w.pos, w.marks, Present(w), q);
  }

  /** A failed append, restarted or not, over a log unchanged before the position. */
  lemma FallenReads(redact: string -> string, l: Log, c: Collector)
    requires CollectorOk(redact, l, c) && ReadsLog(redact, c.from) && Pending(c) != []
    requires SameBefore(c.from.seen, c.now.seen, c.from.pos)
    ensures ReadsLog(redact, Fallen(c)) <==> StillReads(c.from, c.now.seen, c.now.pos)
  {
    hide Reading, Rest, Stored, WorkOk;
    KeptOffset(redact, c.from.first, c.from.seen, c.now.seen, c.from.pos, c.from.marks, Present(c.from), Fallen(c).pos);
  }

  lemma ForgetReads(redact: string -> string, l: Log)
    ensures ReadsLog(redact, Work(START, l.file, false, [], l.saved.lines, |l.saved.lines|, true))
  {
    StartReading(redact, l.file, START);
    assert l.saved.lines[|l.saved.lines|..] == [];
  }

  /** Whatever became of a position before, a read that restarts and observes the log again is a reading of it. */
  lemma RestartRepairs(redact: string -> string, l: Log, w: Work, later: LogFile, observed: bool, days: seq<nat>)
    requires w.base <= |w.lines| && Restarts(w.pos, First(l, w)) && (Again(l, w) ==> observed)
    requires |days| == |NextRead(redact, l, w, later, observed).lines|
    ensures ReadsLog(redact, ReadOn(redact, l, w, later, observed, days))
  {
    hide Reading, Archive, NewMarks, Restarts, Rotated, Take, SameBefore, StillReads;
    ReadKeeps(redact, l, w.(sound := false), later, observed, days);
  }

  ghost predicate HarmlessRun(redact: string -> string, l: Log, actions: seq<Action>)
    requires Runs(redact, l, actions)
    decreases |actions|
  {
    actions != [] ==> Harmless(redact, l, actions[0]) && HarmlessRun(redact, Do(redact, l, actions[0]), actions[1..])
  }

  /** So over every run of harmless steps every position stays a reading of the log it last saw. */
  lemma {:induction false} ReadingsOverRuns(redact: string -> string, l: Log, actions: seq<Action>)
    requires Inv(redact, l) && AllRead(redact, l) && Runs(redact, l, actions) && HarmlessRun(redact, l, actions)
    ensures var m := Final(redact, l, actions);
            && AllRead(redact, m)
            && Reading(redact, m.saved.first, m.saved.seen, m.saved.pos, m.saved.marks, Present(m.saved))
    decreases |actions|
  {
    hide Reading, Do, Enabled, CollectorOk, Stored, Unchanged;
    if actions != [] {
      StepKeepsInv(redact, l, actions[0]);
      StepKeepsReadings(redact, l, actions[0]);
      ReadingsOverRuns(redact, Do(redact, l, actions[0]), actions[1..]);
    }
  }

  // ---------- a log that only grows ----------

  /** A position that reads the log as it is now, from the log's first byte. */
  predicate Current(l: Log, w: Work) {
    w.sound && w.seen.id == l.file.id && w.seen.content <= l.file.content && w.base == 0 && !w.first
  }

  predicate AllCurrent(l: Log) {
    Current(l, l.saved) &&
        forall k :: k in l.collectors ==> Current(l, l.collectors[k].from) && Current(l, l.collectors[k].now)
  }

  predicate Plain(a: Action) { !a.Replace? && !a.Unstore? && !a.Forget? }

  lemma CurrentRead(redact: string -> string, l: Log, w: Work)
    requires WorkOk(redact, w) && Current(l, w)
    ensures !Restarts(w.pos, First(l, w)) && SameBefore(w.seen, l.file, w.pos)
  {
    hide RedactLine, Lines, Redacted, SecretAfter, Rest;
    SameFileContinues(l.file, w.pos);
  }

  lemma PlainStep(redact: string -> string, l: Log, a: Action)
    requires Inv(redact, l) && AllCurrent(l) && Plain(a) && Enabled(redact, l, a)
    ensures AllCurrent(Do(redact, l, a))
  {
    hide NextRead, Restarts, Rotated, SameBefore, WorkOk, Stored, NewMarks, Take;
    if a.Read? {
      assert CollectorOk(redact, l, l.collectors[a.who]);
      CurrentRead(redact, l, l.collectors[a.who].from);
    }
  }

  /** Over every run in which the log only grows and no append of the background collector fails, the saved
      position is a reading of the log as it is now, from its first byte. */
  lemma {:induction false} GrowingLogIsRead(redact: string -> string, l: Log, actions: seq<Action>)
    requires Inv(redact, l) && AllCurrent(l) && Runs(redact, l, actions) && forall a :: a in actions ==> Plain(a)
    ensures var m := Final(redact, l, actions);
            && AllCurrent(m) && Reading(redact, false, m.file, m.saved.pos, m.saved.marks, Texts(m.saved.lines))
    decreases |actions|
  {
    hide Reading, Do, Enabled, CollectorOk, Stored, Plain, Texts;
    if actions == [] {
      assert l.saved.lines[0..] == l.saved.lines;
      ReadingGrows(redact, false, l.saved.seen, l.file, l.saved.pos, l.saved.marks, Texts(l.saved.lines));
    } else {
      assert actions[0] in actions && forall a :: a in actions[1..] ==> a in actions;
      StepKeepsInv(redact, l, actions[0]);
      PlainStep(redact, l, actions[0]);
      GrowingLogIsRead(redact, Do(redact, l, actions[0]), actions[1..]);
    }
  }
}
