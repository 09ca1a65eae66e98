/** What a read reports: every line it passes over without archiving it, and every log it finds missing, replaced or
    shorter. */
module LogGaps {
  import opened Common
  import opened Text
  import opened LogTail
  import opened LogAppend
  import Decimal

  // ---------- replaced, shrunk and missing logs ----------

  /** The log is another file: its known identity changed, or a byte of the remembered head did. */
  predicate Replaced(p: Pos, s: Snapshot)
    requires s.Seen?
  {
    || (s.id != 0 && p.file.Some? && p.file.value != s.id)
    || (s.size >= p.offset && exists i :: 0 <= i < |p.head| && i < |s.head| && p.head[i] != s.head[i])
  }

  predicate Reports(o: Outcome, g: Gap) { g in o.gaps }

  lemma HeadsDiffer(a: string, b: string)
    ensures SameHead(a, b) <==> forall i :: 0 <= i < |a| && i < |b| ==> a[i] == b[i]
  {
    var n := Min(|a|, |b|);
    if SameHead(a, b) {
      assert forall i :: 0 <= i < n ==> a[..n][i] == b[..n][i];
    }
  }

  lemma RotatedIsReplaced(p: Pos, s: Snapshot)
    requires s.Seen?
    ensures Rotated(p, s) <==> Replaced(p, s)
  {
    hide SameHead;
    HeadsDiffer(p.head, s.head);
  }

  /** A missing log is reported as such and nothing else happens; a replaced log is reported exactly when the file is
      another one, and a shrunk one exactly when it is shorter than the position. */
  lemma GapsTell(redact: string -> string, p: Pos, first: Snapshot, second: Snapshot)
    ensures var o := Archive(redact, p, first, second);
            && (LogUnavailable in o.gaps <==> first == Missing)
            && (first == Missing ==> o == Outcome(p, [LogUnavailable], [], false))
            && (LogRotated in o.gaps <==> first.Seen? && Replaced(p, first))
            && (LogTruncated in o.gaps <==> first.Seen? && first.size < p.offset)
  {
    hide Replaced, Rotated, ReadChunk;
    if first.Seen? {
      RotatedIsReplaced(p, first);
      var gaps := (if Rotated(p, first) then [LogRotated] else []) +
        (if first.size < p.offset then [LogTruncated] else []);
      var q := Judged(p, first);
      GapsKept(redact, q, first.size, first.data, gaps);
      if second.Seen? {
        GapsKept(redact, q.(offset := 0, head := second.head), second.size, second.data, gaps);
      }
    }
  }

  // ---------- oversized lines ----------

  function Oversized(gaps: seq<Gap>): nat {
    if gaps == [] then 0 else Oversized(gaps[..|gaps| - 1]) + if gaps[|gaps| - 1] == LogLineOversized then 1 else 0
  }

  lemma {:induction false} OversizedConcat(a: seq<Gap>, b: seq<Gap>)
    ensures Oversized(a + b) == Oversized(a) + Oversized(b)
  {
    if b == [] {
      assert a + b == a;
    } else {
      assert (a + b)[..|a + b| - 1] == a + b[..|b| - 1];
      OversizedConcat(a, b[..|b| - 1]);
    }
  }

  function Skipped(marks: seq<bool>): nat {
    if marks == [] then 0 else Skipped(marks[..|marks| - 1]) + if marks[|marks| - 1] then 0 else 1
  }

  lemma {:induction false} SkippedConcat(a: seq<bool>, b: seq<bool>)
    ensures Skipped(a + b) == Skipped(a) + Skipped(b)
  {
    if b == [] {
      assert a + b == a;
    } else {
      assert (a + b)[..|a + b| - 1] == a + b[..|b| - 1];
      SkippedConcat(a, b[..|b| - 1]);
    }
  }

  lemma {:induction false} AllSkipNone(n: nat)
    ensures Skipped(All(n)) == 0
  {
    if n > 0 {
      assert All(n)[..n - 1] == All(n - 1);
      AllSkipNone(n - 1);
    }
  }

  function One(b: bool): nat { if b then 1 else 0 }

  /** A read begins to skip, or begins again after the end of a skipped line. */
  predicate BeginsToSkip(p: Pos, o: Outcome, chunk: string) { o.pos.skipping && (p.skipping ==> '\n' in chunk) }

  /** A read reports one oversized line exactly when it begins to skip one, and none otherwise. */
  lemma OversizedTells(redact: string -> string, p: Pos, size: nat, chunk: string, gaps: seq<Gap>)
    requires p.skipping ==> (size <= p.offset ==> chunk == "")
    ensures var o := ReadChunk(redact, p, size, chunk, gaps);
            o.gaps == gaps + if BeginsToSkip(p, o, chunk) then [LogLineOversized] else []
  {
    hide RedactLine, Lines, Redacted, SecretAfter;
    assert gaps + [] == gaps;
    var cut := IndexOf(chunk, '\n');
    assert chunk[..|chunk|] == chunk;
    assert cut < |chunk| ==> '\n' in chunk;
  }

  /** One report per skipped line: what a read reports and the line it was in the middle of are what it marks as
      skipped and the line it is in the middle of afterwards. */
  lemma ReportsBalance(redact: string -> string, p: Pos, size: nat, chunk: string, gaps: seq<Gap>)
    requires size <= p.offset ==> chunk == ""
    ensures var o := ReadChunk(redact, p, size, chunk, gaps);
            Oversized(o.gaps) + One(p.skipping) == Oversized(gaps) + Skipped(NewMarks(p, chunk)) + One(o.pos.skipping)
  {
    hide RedactLine, Lines, Redacted, SecretAfter, ArchiveLines, ArchivedMarks, Oversized, Skipped;
    OversizedEnds(gaps);
    var cut := IndexOf(chunk, '\n');
    if size <= p.offset {
      EmptyChunk();
      SkippedEnds();
    } else if !p.skipping {
      ArchiveBalance(redact, p, chunk, |chunk|, gaps);
    } else if cut == |chunk| {
      SkippedEnds();
    } else {
      var q, rest := p.(offset := p.offset + cut + 1, skipping := false), chunk[cut + 1..];
      ArchiveBalance(redact, q, rest, |chunk|, gaps);
      SkippedConcat([false], ArchivedMarks(rest));
      SkippedEnds();
    }
  }

  lemma SkippedEnds()
    ensures Skipped([]) == 0 && Skipped([false]) == 1
  {
    assert [false][..0] == [];
  }

  lemma OversizedEnds(gaps: seq<Gap>)
    ensures Oversized([]) == 0 && Oversized(gaps + [LogLineOversized]) == Oversized(gaps) + 1
  {
    assert (gaps + [LogLineOversized])[..|gaps|] == gaps;
  }

  lemma ArchiveBalance(redact: string -> string, p: Pos, chunk: string, n: nat, gaps: seq<Gap>)
    requires !p.skipping
    ensures var o := ArchiveLines(redact, p, chunk, n, gaps);
            Oversized(o.gaps) == Oversized(gaps) + Skipped(ArchivedMarks(chunk)) + One(o.pos.skipping)
  {
    hide RedactLine, Lines, Redacted, SecretAfter, Oversized, Skipped;
    OversizedEnds(gaps);
    SkippedEnds();
    match LastIndexOf(chunk, '\n')
    case None =>
    case Some(end) => AllSkipNone(|Lines(chunk[..end + 1])|);
  }

  // ---------- over runs of reads ----------

  /** A log read again and again while it grows: what is archived, marked and reported. */
  datatype Tailed = Tailed(pos: Pos, marks: seq<bool>, texts: seq<string>, gaps: seq<Gap>)

  function Tail(redact: string -> string, seen: seq<LogFile>): Tailed {
    if seen == [] then Tailed(START, [], [], [])
    else
      var t := Tail(redact, seen[..|seen| - 1]);
      var first := Take(seen[|seen| - 1], t.pos.offset);
      var o := Archive(redact, t.pos, first, Missing);
      Tailed(o.pos, t.marks + NewMarks(t.pos, first.data), t.texts + o.lines, t.gaps + o.gaps)
  }

  predicate Grows(seen: seq<LogFile>) {
    forall i, j :: 0 <= i < j < |seen| ==> seen[i].id == seen[j].id && seen[i].content <= seen[j].content
  }

  /** Over any run of reads of a growing log nothing but oversized lines is reported, and exactly one report stands for
      each line that was skipped and for the one being skipped: none vanishes without a report. */
  lemma {:induction false} OneReportPerSkippedLine(redact: string -> string, seen: seq<LogFile>)
    requires seen != [] && Grows(seen)
    ensures var t := Tail(redact, seen);
            && Reading(redact, false, seen[|seen| - 1], t.pos, t.marks, t.texts)
            && Oversized(t.gaps) == Skipped(t.marks) + One(t.pos.skipping)
            && forall g :: g in t.gaps ==> g == LogLineOversized
  {
    hide Reading, Oversized, Skipped, Archive, NewMarks;
    var n := |seen| - 1;
    var before, f := seen[..n], seen[n];
    var t := Tail(redact, before);
    if n == 0 {
      StartReading(redact, f, START);
      SkippedEnds();
      OversizedEnds([]);
      NextTail(redact, t, f, f);
    } else {
      OneReportPerSkippedLine(redact, before);
      NextTail(redact, t, before[n - 1], f);
    }
  }

  lemma NextTail(redact: string -> string, t: Tailed, f: LogFile, g: LogFile)
    requires Reading(redact, false, f, t.pos, t.marks, t.texts) && g.id == f.id && f.content <= g.content
    requires Oversized(t.gaps) == Skipped(t.marks) + One(t.pos.skipping)
    ensures var first := Take(g, t.pos.offset);
            var o := Archive(redact, t.pos, first, Missing);
            && Reading(redact, false, g, o.pos, t.marks + NewMarks(t.pos, first.data), t.texts + o.lines)
            && Oversized(t.gaps + o.gaps) == Skipped(t.marks + NewMarks(t.pos, first.data)) + One(o.pos.skipping)
            && forall x :: x in o.gaps ==> x == LogLineOversized
  {
    hide Oversized, Skipped, ReadChunk, NewMarks, RedactLine, Lines, Rest, Redacted, SecretAfter, Judged;
    TailingReads(redact, false, f, g, t.pos, t.marks, t.texts, Missing);
    ReadingGrows(redact, false, f, g, t.pos, t.marks, t.texts);
    SameFileReads(redact, g, t.pos, Missing);
    var first := Take(g, t.pos.offset);
    var q := Judged(t.pos, first);
    ReportsBalance(redact, q, |g.content|, first.data, []);
    OversizedOnly(redact, q, |g.content|, first.data);
    OversizedEnds([]);
    MarksOfJudged(t.pos, q, first.data);
    OversizedConcat(t.gaps, Archive(redact, t.pos, first, Missing).gaps);
    SkippedConcat(t.marks, NewMarks(t.pos, first.data));
  }

  // ---------- key blocks ----------

  predicate Opens(line: string) {
    var i := Find(line, "-----BEGIN ");
    i.Some? && !Contains(line[i.value..], "-----END ")
  }

  predicate Closes(line: string) { Contains(line, "-----END ") }

  /** Nothing of a key block is archived: after the line that opens it, up to and with the line that closes it, every
      stored text is the placeholder, and the opening line is cut where the block begins. */
  lemma {:induction false} KeyBlocksHidden(redact: string -> string, secret: bool, lines: seq<string>, i: nat, j: nat)
    requires i < j < |lines| && Opens(lines[i]) && forall k :: i < k < j ==> !Closes(lines[k])
    requires !SecretAfter(redact, secret, lines[..i])
    ensures Redacted(redact, secret, lines)[j] == PEM
    decreases |lines|
  {
    hide Opens, Closes, RedactLine, Redacted, SecretAfter;
    RedactedStep(redact, secret, lines);
    var r := RedactLine(redact, secret, lines[0]);
    if i > 0 {
      RedactedStep(redact, secret, lines[..i]);
      assert lines[..i][1..] == lines[1..][..i - 1] && lines[..i][0] == lines[0];
      KeyBlocksHidden(redact, r.1, lines[1..], i - 1, j - 1);
    } else {
      assert lines[..0] == [];
      RedactedStep(redact, secret, []);
      LineMeaning(redact, lines[0]);
      StaysHidden(redact, lines[1..], j - 1);
    }
  }

  lemma {:induction false} StaysHidden(redact: string -> string, lines: seq<string>, j: nat)
    requires j < |lines| && forall k :: 0 <= k < j ==> !Closes(lines[k])
    ensures Redacted(redact, true, lines)[j] == PEM
    decreases |lines|
  {
    hide Contains;
    RedactedStep(redact, true, lines);
    if j > 0 {
      assert !Closes(lines[0]);
      StaysHidden(redact, lines[1..], j - 1);
    }
  }

  /** A line outside a key block is stored through the shared redaction, without what a block opens in it; a text past
      the limit is cut there and says how much is missing. */
  lemma LineMeaning(redact: string -> string, line: string)
    ensures var shown := redact(if Opens(line) then line[..Find(line, "-----BEGIN ").value] + PEM else line);
            var r := RedactLine(redact, false, line);
            && r.1 == Opens(line)
            && (|shown| <= LINE_LIMIT ==> r.0 == shown)
            && (|shown| > LINE_LIMIT ==>
                  r.0 == shown[..LINE_LIMIT] + " [truncated " + Decimal.Format(|shown| - LINE_LIMIT) + " bytes]")
  {
  }
}
