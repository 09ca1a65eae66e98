/** Tailing a node log: what one bounded read archives and where it leaves the position. */
module LogTail {
  import opened Common
  import opened Text
  import Decimal

  const READ_LIMIT: nat := 1048576
  const LINE_LIMIT: nat := 65536
  const HEAD_BYTES: nat := 256

  /** A log file where it lives: its identity (0 when unknown) and its bytes. */
  datatype LogFile = LogFile(id: nat, content: string)

  /** One observation of a log. */
  datatype Snapshot = Missing | Unreadable | Seen(id: nat, size: nat, head: string, data: string)

  function Take(f: LogFile, offset: nat): (s: Snapshot)
    ensures s.Seen? && |s.data| <= READ_LIMIT
  {
    Seen(f.id, |f.content|, f.content[..Min(HEAD_BYTES, |f.content|)],
         if |f.content| <= offset then "" else f.content[offset..Min(offset + READ_LIMIT, |f.content|)])
  }

  /** A node's collection position: the entries of the cursor's five maps for one label. */
  datatype Pos = Pos(offset: nat, file: Option<nat>, head: string, skipping: bool, secret: bool)

  const START := Pos(0, None, "", false, false)

  datatype Gap = LogUnavailable | LogRotated | LogTruncated | LogLineOversized

  datatype Outcome = Outcome(pos: Pos, gaps: seq<Gap>, lines: seq<string>, failed: bool)

  predicate SameHead(a: string, b: string) {
    var n := Min(|a|, |b|);
    a[..n] == b[..n]
  }

  // ---------- lines and redaction ----------

  /** The complete lines of a text, without their newlines. */
  function Lines(text: string): seq<string>
    decreases |text|
  {
    var cut := IndexOf(text, '\n');
    if cut == |text| then [] else [text[..cut]] + Lines(text[cut + 1..])
  }

  /** What follows the last newline. */
  function Rest(text: string): (r: string)
    ensures '\n' !in r && |r| <= |text|
    decreases |text|
  {
    var cut := IndexOf(text, '\n');
    if cut == |text| then (assert text[..cut] == text; text) else Rest(text[cut + 1..])
  }

  const PEM := "[redacted PEM block]"

  /** One line through the redactor: the text that is stored and whether a key block is now open.
      `redact` is the shared single-line redaction. */
  function RedactLine(redact: string -> string, secret: bool, text: string): (string, bool) {
    if secret then (PEM, !Contains(text, "-----END "))
    else
      var i := Find(text, "-----BEGIN ");
      var opens := i.Some? && !Contains(text[i.value..], "-----END ");
      var shown := redact(if opens then text[..i.value] + PEM else text);
      (if |shown| > LINE_LIMIT then shown[..LINE_LIMIT] + " [truncated " + Decimal.Format(|shown| - LINE_LIMIT) +
          " bytes]" else shown, opens)
  }

  function Redacted(redact: string -> string, secret: bool, lines: seq<string>): (r: seq<string>)
    ensures |r| == |lines|
    decreases |lines|
  {
    if lines == [] then []
    else [RedactLine(redact, secret, lines[0]).0] + Redacted(redact, RedactLine(redact, secret, lines[0]).1, lines[1..])
  }

  function SecretAfter(redact: string -> string, secret: bool, lines: seq<string>): bool
    decreases |lines|
  {
    if lines == [] then secret else SecretAfter(redact, RedactLine(redact, secret, lines[0]).1, lines[1..])
  }

  // ---------- one read ----------

  function ArchiveLines(redact: string -> string, p: Pos, chunk: string, n: nat, gaps: seq<Gap>): Outcome {
    match LastIndexOf(chunk, '\n')
    case None =>
      if n == READ_LIMIT then
        Outcome(p.(skipping := true, offset := p.offset + |chunk|), gaps + [LogLineOversized], [], false)
      else Outcome(p, gaps, [], false)
    case Some(end) =>
      var lines := Lines(chunk[..end + 1]);
      Outcome(p.(offset := p.offset + end + 1, secret := SecretAfter(redact, p.secret, lines)), gaps,
              Redacted(redact, p.secret, lines), false)
  }

  function ReadChunk(redact: string -> string, p: Pos, size: nat, chunk: string, gaps: seq<Gap>): Outcome {
    if size <= p.offset then Outcome(p, gaps, [], false)
    else if !p.skipping then ArchiveLines(redact, p, chunk, |chunk|, gaps)
    else
      var cut := IndexOf(chunk, '\n');
      if cut == |chunk| then Outcome(p.(offset := p.offset + |chunk|), gaps, [], false)
      else ArchiveLines(redact, p.(offset := p.offset + cut + 1, skipping := false), chunk[cut + 1..], |chunk|, gaps)
  }

  predicate Rotated(p: Pos, s: Snapshot)
    requires s.Seen?
  {
    || (s.id != 0 && p.file.Some? && p.file.value != s.id)
    || (s.size >= p.offset && p.head != "" && !SameHead(p.head, s.head))
  }

  predicate Restarts(p: Pos, s: Snapshot)
    requires s.Seen?
  {
    Rotated(p, s) || s.size < p.offset
  }

  /** The position once the first observation has been judged, before anything is read from it. */
  function Judged(p: Pos, s: Snapshot): Pos
    requires s.Seen?
  {
    Pos(p.offset, if s.id != 0 then Some(s.id) else p.file, s.head,
        if Restarts(p, s) then false else p.skipping, if Rotated(p, s) then false else p.secret)
  }

  /** archiveLog for one node: `first` is the observation at the stored position and `second` the one a
      restart makes at the start of the file. */
  function Archive(redact: string -> string, p: Pos, first: Snapshot, second: Snapshot): Outcome {
    match first
    case Missing => Outcome(p, [LogUnavailable], [], false)
    case Unreadable => Outcome(p, [], [], true)
    case Seen(id, size, head, data) =>
      var gaps := (if Rotated(p, first) then [LogRotated] else []) + (if size < p.offset then [LogTruncated] else []);
      var q := Judged(p, first);
      if Restarts(p, first) && p.offset != 0 then
        if second.Seen? then ReadChunk(redact, q.(offset := 0, head := second.head), second.size, second.data, gaps)
        else Outcome(q, gaps, [], true)
      else ReadChunk(redact, q, size, data, gaps)
  }

  // ---------- lines of concatenated text ----------

  lemma {:induction false} LinesOfConcat(a: string, b: string)
    ensures Lines(a + b) == Lines(a) + Lines(Rest(a) + b)
    ensures Rest(a + b) == Rest(Rest(a) + b)
    decreases |a|
  {
    hide Lines, Rest;
    var cut := IndexOf(a, '\n');
    LinesStep(a);
    if cut < |a| {
      FirstNewline(a + b, cut);
      LinesStep(a + b);
      assert (a + b)[..cut] == a[..cut] && (a + b)[cut + 1..] == a[cut + 1..] + b;
      LinesOfConcat(a[cut + 1..], b);
    }
  }

  lemma LinesStep(s: string)
    ensures var cut := IndexOf(s, '\n');
            if cut == |s| then Lines(s) == [] && Rest(s) == s
            else Lines(s) == [s[..cut]] + Lines(s[cut + 1..]) && Rest(s) == Rest(s[cut + 1..])
  {
    hide IndexOf;
  }

  lemma FirstNewline(s: string, i: nat)
    requires i < |s| && s[i] == '\n' && '\n' !in s[..i]
    ensures IndexOf(s, '\n') == i
  {
    var k := IndexOf(s, '\n');
    assert forall x :: 0 <= x < k ==> s[x] in s[..k];
    assert forall x :: 0 <= x < i ==> s[x] in s[..i];
  }

  lemma NoNewline(s: string)
    requires '\n' !in s
    ensures Lines(s) == [] && Rest(s) == s
  {
  }

  /** A text that ends with a newline leaves nothing over. */
  lemma {:induction false} EndsLine(s: string)
    requires s != [] && s[|s| - 1] == '\n'
    ensures Rest(s) == ""
    decreases |s|
  {
    var cut := IndexOf(s, '\n');
    assert s[|s| - 1] in s && s[..|s|] == s;
    if cut + 1 < |s| {
      EndsLine(s[cut + 1..]);
    }
  }

  lemma OneLine(r: string, x: string)
    requires '\n' !in r && '\n' !in x
    ensures Lines(r + x + "\n") == [r + x] && Rest(r + x + "\n") == ""
  {
    var s := r + x + "\n";
    assert s[..|s| - 1] == r + x;
    FirstNewline(s, |s| - 1);
    assert s[|s|..] == "";
  }

  lemma {:induction false} RedactedConcat(redact: string -> string, secret: bool, a: seq<string>, b: seq<string>)
    ensures Redacted(redact, secret, a + b) ==
            Redacted(redact, secret, a) + Redacted(redact, SecretAfter(redact, secret, a), b)
    ensures SecretAfter(redact, secret, a + b) == SecretAfter(redact, SecretAfter(redact, secret, a), b)
    decreases |a|
  {
    hide RedactLine, Redacted, SecretAfter;
    RedactedStep(redact, secret, a);
    RedactedStep(redact, secret, a + b);
    if a == [] {
      assert a + b == b;
    } else {
      RedactedConcat(redact, RedactLine(redact, secret, a[0]).1, a[1..], b);
      assert (a + b)[1..] == a[1..] + b;
    }
  }

  lemma RedactedStep(redact: string -> string, secret: bool, lines: seq<string>)
    ensures lines == [] ==> Redacted(redact, secret, lines) == [] && SecretAfter(redact, secret, lines) == secret
    ensures lines != [] ==>
              (var r := RedactLine(redact, secret, lines[0]);
               Redacted(redact, secret, lines) == [r.0] + Redacted(redact, r.1, lines[1..]) &&
               SecretAfter(redact, secret, lines) == SecretAfter(redact, r.1, lines[1..]))
  {
  }

  // ---------- a log that only grows ----------

  /** The lines a reading kept. */
  function Kept(lines: seq<string>, marks: seq<bool>): seq<string>
    requires |lines| == |marks|
  {
    if lines == [] then [] else (if marks[0] then [lines[0]] else []) + Kept(lines[1..], marks[1..])
  }

  /** A line is only skipped when it is as long as a whole read, or follows one that was skipped. */
  predicate Justified(lines: seq<string>, marks: seq<bool>)
    requires |lines| == |marks|
  {
    forall i :: 0 <= i < |marks| ==> marks[i] || MaySkip(lines, marks, i)
  }

  predicate MaySkip(lines: seq<string>, marks: seq<bool>, i: nat)
    requires |lines| == |marks| && i < |marks|
  {
    |lines[i]| >= READ_LIMIT || (i > 0 && !marks[i - 1])
  }

  /** A kept line ended inside the one read that began at its start. */
  predicate KeptAreShort(lines: seq<string>, marks: seq<bool>)
    requires |lines| == |marks|
  {
    forall i :: 0 <= i < |marks| && marks[i] ==> |lines[i]| < READ_LIMIT
  }

  predicate LastSkipped(marks: seq<bool>) { marks != [] && !marks[|marks| - 1] }

  /** The position belongs to this file: its remembered identity and head agree with the file. */
  predicate SameFile(f: LogFile, p: Pos) {
    && (f.id != 0 ==> p.file.None? || p.file == Some(f.id))
    && p.head <= f.content && |p.head| <= HEAD_BYTES && p.offset <= |f.content|
  }

  /** What has been archived of a log up to a position: `marks` says of each complete line before the
      position whether it was kept, and `texts` is one left-to-right redaction of the kept ones. */
  ghost predicate Reading(redact: string -> string, secret: bool, f: LogFile, p: Pos, marks: seq<bool>,
                          texts: seq<string>) {
    && SameFile(f, p)
    && var done := f.content[..p.offset];
       && |marks| == |Lines(done)| && Justified(Lines(done), marks) && KeptAreShort(Lines(done), marks)
       && (!p.skipping ==> Rest(done) == "")
       && (p.skipping ==> |Rest(done)| >= READ_LIMIT || LastSkipped(marks))
       && texts == Redacted(redact, secret, Kept(Lines(done), marks))
       && p.secret == SecretAfter(redact, secret, Kept(Lines(done), marks))
  }

  /** Reading on does not depend on when the bytes arrived. */
  lemma ReadingGrows(redact: string -> string, secret: bool, f: LogFile, g: LogFile, p: Pos, marks: seq<bool>,
                     texts: seq<string>)
    requires Reading(redact, secret, f, p, marks, texts) && g.id == f.id && f.content <= g.content
    ensures Reading(redact, secret, g, p, marks, texts)
  {
    assert g.content[..p.offset] == f.content[..p.offset];
  }

  lemma {:induction false} KeptConcat(a: seq<string>, m: seq<bool>, b: seq<string>, n: seq<bool>)
    requires |a| == |m| && |b| == |n|
    ensures Kept(a + b, m + n) == Kept(a, m) + Kept(b, n)
  {
    hide Kept;
    KeptStep(a, m);
    KeptStep(a + b, m + n);
    if a == [] {
      assert a + b == b && m + n == n;
    } else {
      KeptConcat(a[1..], m[1..], b, n);
      assert (a + b)[1..] == a[1..] + b && (m + n)[1..] == m[1..] + n;
    }
  }

  lemma KeptStep(lines: seq<string>, marks: seq<bool>)
    requires |lines| == |marks|
    ensures Kept(lines, marks) ==
              if lines == [] then [] else (if marks[0] then [lines[0]] else []) + Kept(lines[1..], marks[1..])
  {
  }

  lemma {:induction false} KeepAll(a: seq<string>, m: seq<bool>)
    requires |a| == |m| && forall i :: 0 <= i < |m| ==> m[i]
    ensures Kept(a, m) == a
  {
    if a != [] {
      KeepAll(a[1..], m[1..]);
    }
  }

  function All(n: nat): (m: seq<bool>)
    ensures |m| == n && forall i :: 0 <= i < n ==> m[i]
  {
    seq(n, i => true)
  }

  /** Moving a reading forward over `text`: the lines that end in it are marked `more`. */
  lemma Advance(redact: string -> string, secret: bool, f: LogFile, p: Pos, marks: seq<bool>, texts: seq<string>,
                q: Pos, text: string, more: seq<bool>)
    requires Reading(redact, secret, f, p, marks, texts)
    requires q.offset == p.offset + |text| && SameFile(f, q) && text == f.content[p.offset..q.offset]
    requires var tail := Rest(f.content[..p.offset]) + text;
             && |more| == |Lines(tail)| && q.secret == SecretAfter(redact, p.secret, Kept(Lines(tail), more))
             && Justified(Lines(f.content[..p.offset]) + Lines(tail), marks + more) && KeptAreShort(Lines(tail), more)
             && (!q.skipping ==> Rest(tail) == "")
             && (q.skipping ==> |Rest(tail)| >= READ_LIMIT || LastSkipped(marks + more))
    ensures Reading(redact, secret, f, q, marks + more,
                    texts + Redacted(redact, p.secret, Kept(Lines(Rest(f.content[..p.offset]) + text), more)))
  {
    hide RedactLine, Lines, Rest, Redacted, SecretAfter, Kept;
    var done := f.content[..p.offset];
    var lines, new_ := Lines(done), Lines(Rest(done) + text);
    assert f.content[..q.offset] == done + text;
    LinesOfConcat(done, text);
    KeptConcat(lines, marks, new_, more);
    RedactedConcat(redact, secret, Kept(lines, marks), Kept(new_, more));
  }

  lemma JustifiedMore(a: seq<string>, m: seq<bool>, b: seq<string>, n: seq<bool>)
    requires |a| == |m| && |b| == |n| && Justified(a, m)
    requires forall i :: 0 <= i < |n| && !n[i] ==> i == 0 && (|b[0]| >= READ_LIMIT || LastSkipped(m))
    ensures Justified(a + b, m + n)
  {
    forall i | 0 <= i < |m + n| ensures (m + n)[i] || MaySkip(a + b, m + n, i) {
      if i >= |m| {
        assert (m + n)[i] == n[i - |m|] && (a + b)[i] == b[i - |m|];
        assert LastSkipped(m) ==> !(m + n)[|m| - 1];
      } else {
        assert m[i] || MaySkip(a, m, i);
        assert (a + b)[i] == a[i] && (m + n)[i] == m[i];
        assert i > 0 ==> (m + n)[i - 1] == m[i - 1];
      }
    }
  }

  /** A line is shorter than the text that holds it and its newline. */
  lemma {:induction false} LinesShort(text: string)
    ensures forall k :: 0 <= k < |Lines(text)| ==> |Lines(text)[k]| < |text|
    decreases |text|
  {
    hide Lines;
    LinesStep(text);
    var cut := IndexOf(text, '\n');
    if cut < |text| {
      LinesShort(text[cut + 1..]);
    }
  }

  /** Reading whole lines from a line start. */
  lemma LinesRead(redact: string -> string, secret: bool, f: LogFile, p: Pos, marks: seq<bool>, texts: seq<string>,
                  text: string)
    requires Reading(redact, secret, f, p, marks, texts) && !p.skipping
    requires text != [] && text[|text| - 1] == '\n' && |text| <= READ_LIMIT
    requires p.offset + |text| <= |f.content| && text == f.content[p.offset..p.offset + |text|]
    ensures Reading(redact, secret, f,
                    p.(offset := p.offset + |text|, secret := SecretAfter(redact, p.secret, Lines(text))),
                    marks + All(|Lines(text)|), texts + Redacted(redact, p.secret, Lines(text)))
  {
    hide RedactLine, Lines, Redacted, SecretAfter, Kept, Rest;
    var done := f.content[..p.offset];
    var more := All(|Lines(text)|);
    LinesShort(text);
    assert Rest(done) + text == text;
    EndsLine(text);
    KeepAll(Lines(text), more);
    JustifiedMore(Lines(done), marks, Lines(text), more);
    Advance(redact, secret, f, p, marks, texts,
            p.(offset := p.offset + |text|, secret := SecretAfter(redact, p.secret, Lines(text))), text, more);
  }

  /** Passing over bytes without a newline, which leaves the reader skipping. */
  lemma BytesSkipped(redact: string -> string, secret: bool, f: LogFile, p: Pos, marks: seq<bool>, texts: seq<string>,
                     text: string)
    requires Reading(redact, secret, f, p, marks, texts) && '\n' !in text
    requires p.offset + |text| <= |f.content| && text == f.content[p.offset..p.offset + |text|]
    requires p.skipping || |text| >= READ_LIMIT || LastSkipped(marks)
    ensures Reading(redact, secret, f, p.(offset := p.offset + |text|, skipping := true), marks, texts)
  {
    hide RedactLine, Lines, Redacted, SecretAfter, Rest;
    var done := f.content[..p.offset];
    assert '\n' !in Rest(done) + text;
    NoNewline(Rest(done) + text);
    NothingKept(redact, p.secret);
    assert marks + [] == marks && texts + [] == texts && Lines(done) + [] == Lines(done);
    Advance(redact, secret, f, p, marks, texts, p.(offset := p.offset + |text|, skipping := true), text, []);
  }

  lemma NothingKept(redact: string -> string, secret: bool)
    ensures Redacted(redact, secret, []) == [] && SecretAfter(redact, secret, []) == secret && Kept([], []) == []
  {
  }

  /** The newline of a skipped line ends it; the line is marked as not kept. */
  lemma LineSkipped(redact: string -> string, secret: bool, f: LogFile, p: Pos, marks: seq<bool>, texts: seq<string>,
                    text: string)
    requires Reading(redact, secret, f, p, marks, texts) && p.skipping && '\n' !in text
    requires p.offset + |text| + 1 <= |f.content| && text + "\n" == f.content[p.offset..p.offset + |text| + 1]
    ensures Reading(redact, secret, f, p.(offset := p.offset + |text| + 1, skipping := false), marks + [false], texts)
  {
    hide RedactLine, Lines, Redacted, SecretAfter, Rest;
    var done := f.content[..p.offset];
    var tail := Rest(done) + (text + "\n");
    assert tail == Rest(done) + text + "\n";
    OneLine(Rest(done), text);
    NothingKept(redact, p.secret);
    assert Kept(Lines(tail), [false]) == [];
    JustifiedMore(Lines(done), marks, Lines(tail), [false]);
    assert texts + [] == texts;
    Advance(redact, secret, f, p, marks, texts, p.(offset := p.offset + |text| + 1, skipping := false), text + "\n",
            [false]);
  }

  // ---------- one read keeps the reading ----------

  /** The marks of a read that starts at a line start. */
  function ArchivedMarks(chunk: string): seq<bool> {
    match LastIndexOf(chunk, '\n') case None => [] case Some(end) => All(|Lines(chunk[..end + 1])|)
  }

  lemma ArchiveLinesReads(redact: string -> string, secret: bool, f: LogFile, p: Pos, marks: seq<bool>,
                          texts: seq<string>, chunk: string, n: nat, gaps: seq<Gap>)
    requires Reading(redact, secret, f, p, marks, texts) && !p.skipping
    requires p.offset + |chunk| <= |f.content| && chunk == f.content[p.offset..p.offset + |chunk|]
    requires |chunk| <= READ_LIMIT && (n == |chunk| || LastSkipped(marks))
    ensures var o := ArchiveLines(redact, p, chunk, n, gaps);
            Reading(redact, secret, f, o.pos, marks + ArchivedMarks(chunk), texts + o.lines)
  {
    hide RedactLine, Lines, Redacted, SecretAfter, Reading;
    match LastIndexOf(chunk, '\n')
    case None =>
      assert marks + [] == marks && texts + [] == texts;
      if n == READ_LIMIT {
        BytesSkipped(redact, secret, f, p, marks, texts, chunk);
      }
    case Some(end) =>
      var text := chunk[..end + 1];
      assert text == f.content[p.offset..p.offset + |text|];
      LinesRead(redact, secret, f, p, marks, texts, text);
  }

  /** The marks one read adds: a skipped line that ended in it, then the lines it archived. */
  function NewMarks(p: Pos, chunk: string): seq<bool> {
    var cut := IndexOf(chunk, '\n');
    if !p.skipping then ArchivedMarks(chunk)
    else if cut == |chunk| then []
    else [false] + ArchivedMarks(chunk[cut + 1..])
  }

  lemma SkippedThenRead(redact: string -> string, secret: bool, f: LogFile, p: Pos, marks: seq<bool>,
                        texts: seq<string>, chunk: string, cut: nat, gaps: seq<Gap>)
    requires Reading(redact, secret, f, p, marks, texts) && p.skipping && |chunk| <= READ_LIMIT
    requires p.offset + |chunk| <= |f.content| && chunk == f.content[p.offset..p.offset + |chunk|]
    requires cut < |chunk| && chunk[cut] == '\n' && '\n' !in chunk[..cut]
    ensures var q := p.(offset := p.offset + cut + 1, skipping := false);
            var o := ArchiveLines(redact, q, chunk[cut + 1..], |chunk|, gaps);
            && o.pos.offset >= p.offset && !o.failed
            && Reading(redact, secret, f, o.pos, marks + ([false] + ArchivedMarks(chunk[cut + 1..])), texts + o.lines)
  {
    hide RedactLine, Lines, Redacted, SecretAfter, ArchiveLines, ArchivedMarks, Reading;
    var text, q, rest := chunk[..cut], p.(offset := p.offset + cut + 1, skipping := false), chunk[cut + 1..];
    assert chunk[..cut + 1] == text + "\n";
    assert text + "\n" == f.content[p.offset..p.offset + |text| + 1];
    LineSkipped(redact, secret, f, p, marks, texts, text);
    assert rest == f.content[q.offset..q.offset + |rest|];
    ArchiveLinesReads(redact, secret, f, q, marks + [false], texts, rest, |chunk|, gaps);
    ArchiveLinesMoves(redact, q, rest, |chunk|, gaps);
    assert marks + [false] + ArchivedMarks(rest) == marks + ([false] + ArchivedMarks(rest));
  }

  lemma ReadChunkReads(redact: string -> string, secret: bool, f: LogFile, p: Pos, marks: seq<bool>, texts: seq<string>,
                       gaps: seq<Gap>)
    requires Reading(redact, secret, f, p, marks, texts)
    ensures var chunk := Take(f, p.offset).data;
            var o := ReadChunk(redact, p, |f.content|, chunk, gaps);
            && o.pos.offset >= p.offset && !o.failed
            && Reading(redact, secret, f, o.pos, marks + NewMarks(p, chunk), texts + o.lines)
  {
    hide RedactLine, Lines, Redacted, SecretAfter, ArchiveLines, ArchivedMarks, Reading;
    var chunk := Take(f, p.offset).data;
    var cut := IndexOf(chunk, '\n');
    assert marks + [] == marks && texts + [] == texts;
    if |f.content| <= p.offset {
      EmptyChunk();
    } else {
      assert chunk == f.content[p.offset..p.offset + |chunk|];
      if !p.skipping {
        ArchiveLinesReads(redact, secret, f, p, marks, texts, chunk, |chunk|, gaps);
        ArchiveLinesMoves(redact, p, chunk, |chunk|, gaps);
      } else if cut == |chunk| {
        assert chunk[..cut] == chunk;
        BytesSkipped(redact, secret, f, p, marks, texts, chunk);
      } else {
        SkippedThenRead(redact, secret, f, p, marks, texts, chunk, cut, gaps);
      }
    }
  }

  lemma EmptyChunk()
    ensures ArchivedMarks("") == []
  {
  }

  lemma ArchiveLinesMoves(redact: string -> string, p: Pos, chunk: string, n: nat, gaps: seq<Gap>)
    ensures var o := ArchiveLines(redact, p, chunk, n, gaps); o.pos.offset >= p.offset && !o.failed
  {
    hide RedactLine, Lines, Redacted, SecretAfter;
  }

  lemma SameFileContinues(f: LogFile, p: Pos)
    requires SameFile(f, p)
    ensures !Restarts(p, Take(f, p.offset)) && !Rotated(p, Take(f, p.offset))
    ensures SameFile(f, Judged(p, Take(f, p.offset)))
  {
    var head := f.content[..Min(HEAD_BYTES, |f.content|)];
    assert Min(|p.head|, |head|) == |p.head| && head[..|p.head|] == p.head;
  }

  /** The file agrees with another one on everything before the position. */
  predicate SameBefore(f: LogFile, g: LogFile, p: Pos) {
    p.offset <= |f.content| && p.offset <= |g.content| && g.content[..p.offset] == f.content[..p.offset]
  }

  /** A read that sees no restart goes on with a reading exactly as far as the file has not changed before the
      position, whatever else became of it. */
  lemma ContinuedReads(redact: string -> string, secret: bool, f: LogFile, g: LogFile, p: Pos, marks: seq<bool>,
                       texts: seq<string>, second: Snapshot)
    requires Reading(redact, secret, f, p, marks, texts) && SameBefore(f, g, p) && !Restarts(p, Take(g, p.offset))
    ensures var first := Take(g, p.offset);
            var o := Archive(redact, p, first, second);
            && !o.failed && o.pos.offset >= p.offset && LogRotated !in o.gaps && LogTruncated !in o.gaps
            && Reading(redact, secret, g, o.pos, marks + NewMarks(p, first.data), texts + o.lines)
  {
    hide RedactLine, Lines, Redacted, SecretAfter, NewMarks;
    var q := Judged(p, Take(g, p.offset));
    ReadChunkReads(redact, secret, g, q, marks, texts, []);
    OversizedOnly(redact, q, |g.content|, Take(g, p.offset).data);
    MarksOfJudged(p, q, Take(g, p.offset).data);
  }

  lemma LineCount(r: string, x: string)
    requires '\n' !in r
    ensures |Lines(r + x)| == |Lines(x)|
  {
    hide Lines, Rest;
    LinesStep(x);
    LinesStep(r + x);
    var cut := IndexOf(x, '\n');
    if cut < |x| {
      FirstNewline(r + x, |r| + cut);
      assert (r + x)[|r| + cut + 1..] == x[cut + 1..];
    } else {
      assert x[..|x|] == x;
      assert '\n' !in r + x;
      assert IndexOf(r + x, '\n') == |r + x|;
    }
  }

  /** A read marks as many lines as end in the bytes it passes over. */
  lemma ReadCounts(redact: string -> string, p: Pos, size: nat, chunk: string)
    requires size <= p.offset ==> chunk == ""
    ensures var n := ReadChunk(redact, p, size, chunk, []).pos.offset - p.offset;
            0 <= n <= |chunk| && |NewMarks(p, chunk)| == |Lines(chunk[..n])|
  {
    hide RedactLine, Lines, Redacted, SecretAfter, ArchiveLines, ArchivedMarks;
    var cut := IndexOf(chunk, '\n');
    if size <= p.offset {
      EmptyChunk();
      LinesStep("");
    } else if !p.skipping {
      ArchiveCounts(redact, p, chunk, |chunk|);
    } else if cut == |chunk| {
      assert chunk[..|chunk|] == chunk;
      LinesStep(chunk);
    } else {
      var q, rest := p.(offset := p.offset + cut + 1, skipping := false), chunk[cut + 1..];
      ArchiveCounts(redact, q, rest, |chunk|);
      OneMoreLine(chunk, cut, ArchiveLines(redact, q, rest, |chunk|, []).pos.offset - q.offset);
    }
  }

  lemma OneMoreLine(chunk: string, cut: nat, m: nat)
    requires cut < |chunk| && chunk[cut] == '\n' && '\n' !in chunk[..cut] && m <= |chunk| - cut - 1
    ensures |Lines(chunk[..cut + 1 + m])| == 1 + |Lines(chunk[cut + 1..][..m])|
  {
    hide Lines;
    var text := chunk[..cut + 1 + m];
    assert text[..cut] == chunk[..cut];
    FirstNewline(text, cut);
    LinesStep(text);
    assert text[cut + 1..] == chunk[cut + 1..][..m];
  }

  lemma ArchiveCounts(redact: string -> string, p: Pos, chunk: string, n: nat)
    ensures var m := ArchiveLines(redact, p, chunk, n, []).pos.offset - p.offset;
            0 <= m <= |chunk| && |ArchivedMarks(chunk)| == |Lines(chunk[..m])|
  {
    hide RedactLine, Lines, Redacted, SecretAfter;
    assert chunk[..|chunk|] == chunk;
    if LastIndexOf(chunk, '\n').None? {
      assert '\n' !in chunk;
      LinesStep(chunk);
      LinesStep(chunk[..0]);
      assert IndexOf(chunk, '\n') == |chunk|;
    }
  }

  /** A read that sees no restart although the log changed before the position: once another number of lines
      ends there, what the position and its texts stand for is no longer a reading of the log. */
  lemma UnnoticedChange(redact: string -> string, secret: bool, f: LogFile, g: LogFile, p: Pos, marks: seq<bool>,
                        texts: seq<string>, second: Snapshot)
    requires Reading(redact, secret, f, p, marks, texts) && !Restarts(p, Take(g, p.offset))
    requires |Lines(g.content[..p.offset])| != |marks|
    ensures var first := Take(g, p.offset);
            var o := Archive(redact, p, first, second);
            !Reading(redact, secret, g, o.pos, marks + NewMarks(p, first.data), texts + o.lines)
  {
    hide RedactLine, Lines, Redacted, SecretAfter, NewMarks, Archive, Rotated, Rest, Kept, Justified, KeptAreShort;
    MoreLinesCounted(redact, g, p, second);
  }

  /** A read that sees no restart moves past as many lines as it marks. */
  lemma MoreLinesCounted(redact: string -> string, g: LogFile, p: Pos, second: Snapshot)
    requires p.offset <= |g.content| && !Restarts(p, Take(g, p.offset)) && '\n' !in Rest(g.content[..p.offset])
    ensures var first := Take(g, p.offset);
            var o := Archive(redact, p, first, second);
            o.pos.offset <= |g.content| &&
            |Lines(g.content[..o.pos.offset])| == |Lines(g.content[..p.offset])| + |NewMarks(p, first.data)|
  {
    hide RedactLine, Lines, Redacted, SecretAfter, NewMarks, ReadChunk, Rest;
    var first := Take(g, p.offset);
    var q := Judged(p, first);
    var none: seq<Gap> := [];
    assert none + none == none;
    ReadCounts(redact, q, |g.content|, first.data);
    MarksOfJudged(p, q, first.data);
    var o := Archive(redact, p, first, second);
    hide Archive, Judged, Restarts;
    var text := first.data[..o.pos.offset - p.offset];
    var done := g.content[..p.offset];
    TakenText(g, p.offset, |text|);
    LinesOfConcat(done, text);
    LineCount(Rest(done), text);
  }

  lemma TakenText(g: LogFile, offset: nat, n: nat)
    requires offset <= |g.content| && n <= |Take(g, offset).data|
    ensures offset + n <= |g.content| && g.content[..offset + n] == g.content[..offset] + Take(g, offset).data[..n]
  {
  }

  /** Tailing a growing log. Whatever the schedule of bounded reads, after every read the position is a
      line start unless a line is being skipped, and the archived texts are one left-to-right redaction of
      the complete lines before it, minus lines that were as long as a whole read or followed a skipped one. */
  lemma TailingReads(redact: string -> string, secret: bool, f: LogFile, g: LogFile, p: Pos, marks: seq<bool>,
                     texts: seq<string>, second: Snapshot)
    requires Reading(redact, secret, f, p, marks, texts) && g.id == f.id && f.content <= g.content
    ensures var first := Take(g, p.offset);
            var o := Archive(redact, p, first, second);
            && !o.failed && o.pos.offset >= p.offset && LogRotated !in o.gaps && LogTruncated !in o.gaps
            && Reading(redact, secret, g, o.pos, marks + NewMarks(p, first.data), texts + o.lines)
  {
    hide RedactLine, Lines, Redacted, SecretAfter, NewMarks, Archive, Rest;
    SameFileContinues(g, p);
    ContinuedReads(redact, secret, f, g, p, marks, texts, second);
  }

  lemma MarksOfJudged(p: Pos, q: Pos, chunk: string)
    requires p.skipping == q.skipping
    ensures NewMarks(p, chunk) == NewMarks(q, chunk)
  {
  }

  lemma OversizedOnly(redact: string -> string, p: Pos, size: nat, chunk: string)
    ensures var o := ReadChunk(redact, p, size, chunk, []); o.gaps == [] || o.gaps == [LogLineOversized]
  {
    hide RedactLine, Lines, Redacted, SecretAfter;
  }

  // ---------- what follows for ordinary logs ----------

  lemma {:induction false} ShortLineKept(lines: seq<string>, marks: seq<bool>, i: nat)
    requires |lines| == |marks| && Justified(lines, marks) && i < |marks|
    requires forall k :: 0 <= k < |lines| ==> |lines[k]| < READ_LIMIT
    ensures marks[i]
  {
    assert marks[i] || MaySkip(lines, marks, i);
    if i > 0 { ShortLineKept(lines, marks, i - 1); }
  }

  lemma {:induction false} KeptCount(lines: seq<string>, marks: seq<bool>)
    requires |lines| == |marks|
    ensures |Kept(lines, marks)| <= |lines|
    ensures |Kept(lines, marks)| == |lines| ==> forall i :: 0 <= i < |marks| ==> marks[i]
  {
    if lines != [] {
      KeptCount(lines[1..], marks[1..]);
      assert forall i :: 1 <= i < |marks| ==> marks[i] == marks[1..][i - 1];
    }
  }

  /** Every complete line before the position is archived, independent of how the reads cut the log, exactly
      when none of them fills a whole read. */
  lemma EveryLineArchived(redact: string -> string, secret: bool, f: LogFile, p: Pos, marks: seq<bool>,
                          texts: seq<string>)
    requires Reading(redact, secret, f, p, marks, texts)
    ensures var lines := Lines(f.content[..p.offset]);
            texts == Redacted(redact, secret, lines) <==> forall k :: 0 <= k < |lines| ==> |lines[k]| < READ_LIMIT
  {
    hide RedactLine, Lines, Redacted, SecretAfter, Rest, Kept;
    var lines := Lines(f.content[..p.offset]);
    if forall k :: 0 <= k < |lines| ==> |lines[k]| < READ_LIMIT {
      forall i | 0 <= i < |marks| ensures marks[i] {
        ShortLineKept(lines, marks, i);
      }
      KeepAll(lines, marks);
    }
    KeptCount(lines, marks);
  }

  // ---------- the line after an oversized one ----------

  /** A read that ends a skipped line starts skipping again exactly when it was a full read and holds no
      further newline, however short the line that began in it is: the test compares the length of the
      whole read, not of what is left of it. */
  lemma SkipsAgain(redact: string -> string, p: Pos, size: nat, chunk: string, gaps: seq<Gap>)
    requires p.skipping && '\n' in chunk && p.offset < size
    ensures ReadChunk(redact, p, size, chunk, gaps).pos.skipping
       <==> |chunk| == READ_LIMIT && '\n' !in chunk[IndexOf(chunk, '\n') + 1..]
  {
    hide RedactLine, Lines, Redacted, SecretAfter;
    var cut := IndexOf(chunk, '\n');
    assert chunk[..|chunk|] == chunk;
    var rest := chunk[cut + 1..];
    assert LastIndexOf(rest, '\n').Some? ==> rest[LastIndexOf(rest, '\n').value] in rest;
  }

  function Repeat(c: char, n: nat): (s: string)
    ensures |s| == n && forall i :: 0 <= i < n ==> s[i] == c
  {
    seq(n, i => c)
  }

  lemma ReadsWithoutNewline(redact: string -> string, f: LogFile, p: Pos)
    requires SameFile(f, p) && !p.skipping && p.offset + READ_LIMIT <= |f.content| &&
             '\n' !in f.content[p.offset..p.offset + READ_LIMIT]
    ensures Archive(redact, p, Take(f, p.offset), Missing).pos
         == Judged(p, Take(f, p.offset)).(offset := p.offset + READ_LIMIT, skipping := true)
  {
    hide RedactLine, Lines, Redacted, SecretAfter, Judged;
    SameFileContinues(f, p);
    JudgedPlain(f, p);
    assert LastIndexOf(Take(f, p.offset).data, '\n').None?;
  }

  lemma JudgedPlain(f: LogFile, p: Pos)
    requires SameFile(f, p)
    ensures var q := Judged(p, Take(f, p.offset)); q.offset == p.offset && q.skipping == p.skipping
  {
    SameFileContinues(f, p);
  }

  /** Skipping, over a read that is one line end and nothing else. */
  lemma ReadsLineEnd(redact: string -> string, f: LogFile, p: Pos, x: string)
    requires SameFile(f, p) && p.skipping && '\n' !in x && Take(f, p.offset).data == x + "\n"
    ensures var o := Archive(redact, p, Take(f, p.offset), Missing);
            && o.lines == []
            && o.pos == Judged(p, Take(f, p.offset)).(offset := p.offset + |x| + 1, skipping := |x| + 1 == READ_LIMIT)
  {
    hide RedactLine, Lines, Redacted, SecretAfter, Judged;
    SameFileContinues(f, p);
    JudgedPlain(f, p);
    var chunk := Take(f, p.offset).data;
    assert chunk[..|x|] == x;
    FirstNewline(chunk, |x|);
    assert chunk[|x| + 1..] == "";
    assert |f.content| > p.offset;
  }

  lemma Slices(a: string, c: string)
    requires |a| == 2 * READ_LIMIT - 1 && '\n' !in a && c == a + "\nb\n"
    ensures '\n' !in c[0..READ_LIMIT]
    ensures c[READ_LIMIT..2 * READ_LIMIT] == a[READ_LIMIT..] + "\n" && '\n' !in a[READ_LIMIT..]
    ensures c[2 * READ_LIMIT..] == "b\n"
  {
    assert c[0..READ_LIMIT] == a[..READ_LIMIT];
    assert forall i :: 0 <= i < |a| ==> a[i] in a;
  }

  lemma TwoLines(a: string)
    requires '\n' !in a
    ensures Lines(a + "\nb\n") == [a, "b"]
  {
    hide Lines, Rest;
    OneLine("", a);
    assert "" + a + "\n" == a + "\n" && a + "\nb\n" == a + "\n" + "b\n";
    LinesOfConcat(a + "\n", "b\n");
    OneLine("", "b");
    assert "" + "b" + "\n" == "b\n" && Rest(a + "\n") + "b\n" == "b\n" && "" + a == a && "" + "b" == "b";
  }

  /** A two-byte line that is lost that way: it follows a line of 2 * READ_LIMIT - 1 bytes. Three reads
      pass over the whole log and archive neither line. */
  lemma ShortLineLost(redact: string -> string)
    ensures var a := Repeat('a', 2 * READ_LIMIT - 1);
            var f := LogFile(7, a + "\nb\n");
            var p1 := Archive(redact, START, Take(f, 0), Missing).pos;
            var p2 := Archive(redact, p1, Take(f, p1.offset), Missing).pos;
            var o3 := Archive(redact, p2, Take(f, p2.offset), Missing);
            && Lines(f.content) == [a, "b"] && o3.pos.offset == |f.content| && !o3.pos.skipping
            && o3.lines == []
  {
    hide Archive, Lines, Repeat;
    var a := Repeat('a', 2 * READ_LIMIT - 1);
    var f := LogFile(7, a + "\nb\n");
    TwoLines(a);
    Slices(a, f.content);
    ReadsWithoutNewline(redact, f, START);
    var p1 := Archive(redact, START, Take(f, 0), Missing).pos;
    ReadsLineEnd(redact, f, p1, a[READ_LIMIT..]);
    var p2 := Archive(redact, p1, Take(f, p1.offset), Missing).pos;
    ReadsLineEnd(redact, f, p2, "b");
  }

  // ---------- a replaced or shrunk log ----------

  lemma StartReading(redact: string -> string, f: LogFile, p: Pos)
    requires p.offset == 0 && !p.skipping && SameFile(f, p)
    ensures Reading(redact, p.secret, f, p, [], [])
  {
    assert f.content[..0] == "";
  }

  /** A replaced or shrunk log is read from its start: the result is a reading of the new text alone, from its
      first byte, provided the second observation succeeds, whatever that observation finds. After a
      replacement the redaction starts over; after a truncation an open key block stays open. */
  lemma RestartReads(redact: string -> string, p: Pos, g: LogFile, h: LogFile)
    requires Restarts(p, Take(g, p.offset)) && p.offset != 0
    ensures var o := Archive(redact, p, Take(g, p.offset), Take(h, 0));
            && !o.failed && o.pos.file == Judged(p, Take(g, p.offset)).file && o.pos.head == Take(h, 0).head
            && Reading(redact, if Rotated(p, Take(g, p.offset)) then false else p.secret, LogFile(g.id, h.content),
                       o.pos, NewMarks(START, Take(h, 0).data), o.lines)
            && (Rotated(p, Take(g, p.offset)) <==> LogRotated in o.gaps)
  {
    hide RedactLine, Lines, Redacted, SecretAfter, Reading, Rotated, ReadChunk, NewMarks, Take, Restarts;
    var first := Take(g, p.offset);
    var q := Judged(p, first).(offset := 0, head := Take(h, 0).head);
    var k := LogFile(g.id, h.content);
    var gaps := (if Rotated(p, first) then [LogRotated] else []) +
        (if first.size < p.offset then [LogTruncated] else []);
    RestartedFile(p, g, h);
    StartReading(redact, k, q);
    ReadChunkReads(redact, q.secret, k, q, [], [], gaps);
    MarksOfJudged(START, q, Take(h, 0).data);
    GapsKept(redact, q, |h.content|, Take(h, 0).data, gaps);
    ReadKeepsIdentity(redact, q, |h.content|, Take(h, 0).data, gaps);
    var o := ReadChunk(redact, q, |h.content|, Take(h, 0).data, gaps);
    assert [] + o.lines == o.lines && [] + NewMarks(q, Take(h, 0).data) == NewMarks(q, Take(h, 0).data);
  }

  lemma RestartedFile(p: Pos, g: LogFile, h: LogFile)
    requires Restarts(p, Take(g, p.offset))
    ensures var q := Judged(p, Take(g, p.offset)).(offset := 0, head := Take(h, 0).head);
            SameFile(LogFile(g.id, h.content), q) && !q.skipping
    ensures Take(LogFile(g.id, h.content), 0).data == Take(h, 0).data && Take(h, 0).size == |h.content|
  {
  }

  lemma ReadKeepsIdentity(redact: string -> string, p: Pos, size: nat, chunk: string, gaps: seq<Gap>)
    ensures var o := ReadChunk(redact, p, size, chunk, gaps); o.pos.file == p.file && o.pos.head == p.head
  {
    hide RedactLine, Lines, Redacted, SecretAfter;
  }

  /** The same at the very start of a log, where there is nothing to observe again. */
  lemma FirstReads(redact: string -> string, p: Pos, g: LogFile, second: Snapshot)
    requires Restarts(p, Take(g, 0)) && p.offset == 0
    ensures var o := Archive(redact, p, Take(g, 0), second);
            && !o.failed
            && Reading(redact, if Rotated(p, Take(g, 0)) then false else p.secret, g, o.pos,
                       NewMarks(START, Take(g, 0).data), o.lines)
  {
    hide RedactLine, Lines, Redacted, SecretAfter, Reading, Rotated;
    var first := Take(g, 0);
    var q := Judged(p, first);
    var gaps := (if Rotated(p, first) then [LogRotated] else []) +
        (if first.size < p.offset then [LogTruncated] else []);
    StartReading(redact, g, q);
    ReadChunkReads(redact, q.secret, g, q, [], [], gaps);
    MarksOfJudged(START, q, first.data);
    var o := ReadChunk(redact, q, |g.content|, first.data, gaps);
    assert [] + o.lines == o.lines && [] + NewMarks(q, first.data) == NewMarks(q, first.data);
  }

  lemma GapsKept(redact: string -> string, p: Pos, size: nat, chunk: string, gaps: seq<Gap>)
    ensures var o := ReadChunk(redact, p, size, chunk, gaps); o.gaps == gaps || o.gaps == gaps + [LogLineOversized]
  {
    hide RedactLine, Lines, Redacted, SecretAfter;
  }

  /** A position that already carries a log's identity and head but still an old offset: the next read of
      that log, however much it grew, starts over exactly when the log is still shorter than the offset. */
  lemma OldOffsetRestarts(p: Pos, g: LogFile, h: LogFile)
    requires g.id != 0 ==> p.file == Some(g.id)
    requires p.head == Take(g, 0).head && h.id == g.id && g.content <= h.content
    ensures Restarts(p, Take(h, p.offset)) <==> |h.content| < p.offset
  {
    var head := Take(h, p.offset).head;
    assert Min(|p.head|, |head|) == |p.head| && head[..|p.head|] == p.head;
  }

  /** When the second observation of a restart fails, the new identity is kept with the old offset and
      nothing is archived. What comes before that offset is lost exactly when the log has reached it by the
      next read: that read then sees no restart and goes on from the middle. */
  lemma FailedRestart(redact: string -> string, p: Pos, g: LogFile, second: Snapshot, h: LogFile, third: Snapshot)
    requires Restarts(p, Take(g, p.offset)) && p.offset != 0 && !second.Seen? && h.id == g.id && g.content <= h.content
    ensures var o := Archive(redact, p, Take(g, p.offset), second);
            var next := Take(h, p.offset);
            && o.failed && o.lines == [] && o.pos.offset == p.offset
            && (Restarts(o.pos, next) <==> |h.content| < p.offset)
            && (|h.content| >= p.offset ==>
                  Archive(redact, o.pos, next, third) ==
                      ReadChunk(redact, Judged(o.pos, next), |h.content|, next.data, []))
  {
    hide RedactLine, Lines, Redacted, SecretAfter, ReadChunk, Restarts, Rotated;
    var o := Archive(redact, p, Take(g, p.offset), second);
    OldOffsetRestarts(o.pos, g, h);
    NoRestartReads(redact, o.pos, h, third);
  }

  lemma NoRestartReads(redact: string -> string, p: Pos, h: LogFile, third: Snapshot)
    ensures var next := Take(h, p.offset);
            !Restarts(p, next) ==>
                  Archive(redact, p, next, third) == ReadChunk(redact, Judged(p, next), |h.content|, next.data, [])
  {
    hide ReadChunk;
    var none: seq<Gap> := [];
    assert none + none == none;
  }

  /** In particular a log that is already that long goes on from the middle at once. */
  lemma FailedRestartLosesTheStart(redact: string -> string, p: Pos, g: LogFile, second: Snapshot, third: Snapshot)
    requires Restarts(p, Take(g, p.offset)) && p.offset != 0 && p.offset <= |g.content| && !second.Seen?
    ensures var o := Archive(redact, p, Take(g, p.offset), second);
            && o.failed && o.lines == [] && o.pos.offset == p.offset && !Restarts(o.pos, Take(g, o.pos.offset))
            && Archive(redact, o.pos, Take(g, o.pos.offset), third)
               == ReadChunk(redact, Judged(o.pos, Take(g, p.offset)), |g.content|, Take(g, p.offset).data, [])
  {
    hide Archive, Restarts, ReadChunk;
    FailedRestart(redact, p, g, second, g, third);
  }

  // ---------- a read whose lines cannot be stored ----------

  /** What is left in the cursor when a day record cannot be appended: the offset is moved only after all
      of them, but identity, head and flags were moved before. */
  function Unstored(p: Pos, o: Outcome): Pos { o.pos.(offset := p.offset) }

  /** archiveLog including the append of the lines it read; `stored` is whether every day record could be
      appended. The reader that only buffers its lines always passes true. */
  function ArchiveInto(redact: string -> string, p: Pos, first: Snapshot, second: Snapshot, stored: bool): Outcome {
    var o := Archive(redact, p, first, second);
    if o.lines == [] || stored then o else Outcome(Unstored(p, o), o.gaps, o.lines, true)
  }

  // ---------- draining ----------

  /** No stretch between newlines is longer than half a read. */
  ghost predicate ShortLines(content: string) {
    forall i, j {:trigger content[i..j]} :: 0 <= i <= j <= |content| && '\n' !in content[i..j] ==>
          j - i <= READ_LIMIT / 2
  }

  lemma SameFileReads(redact: string -> string, f: LogFile, p: Pos, second: Snapshot)
    requires SameFile(f, p)
    ensures Archive(redact, p, Take(f, p.offset), second) ==
            ReadChunk(redact, Judged(p, Take(f, p.offset)), |f.content|, Take(f, p.offset).data, [])
    ensures Judged(p, Take(f, p.offset)).offset == p.offset && Judged(p, Take(f, p.offset)).skipping == p.skipping
  {
    hide RedactLine, ReadChunk;
    SameFileContinues(f, p);
    var none: seq<Gap> := [];
    assert none + none == none;
  }

  /** A read from a line's start stops after its last newline, and skips only without one. */
  lemma ChunkMove(redact: string -> string, q: Pos, size: nat, chunk: string)
    requires !q.skipping && (chunk == "" <==> size <= q.offset) && |chunk| <= READ_LIMIT
    ensures var o := ReadChunk(redact, q, size, chunk, []);
            && !o.failed
            && match LastIndexOf(chunk, '\n')
               case None =>
                 o.pos.offset == (if |chunk| == READ_LIMIT then q.offset + |chunk| else q.offset) &&
                     (|chunk| < READ_LIMIT ==> !o.pos.skipping)
               case Some(e) => o.pos.offset == q.offset + e + 1 && !o.pos.skipping
  {
    hide RedactLine, Lines, Redacted, SecretAfter;
  }

  /** A read that moved less than half a read reached the end of what it saw: the position is right
      after the last newline of the log. */
  lemma ShortMoveReachesEnd(redact: string -> string, f: LogFile, p: Pos, second: Snapshot)
    requires SameFile(f, p) && !p.skipping && ShortLines(f.content)
    ensures var o := Archive(redact, p, Take(f, p.offset), second);
            && p.offset <= o.pos.offset <= |f.content| && !o.failed
            && (o.pos.offset - p.offset < READ_LIMIT / 2 ==> '\n' !in f.content[o.pos.offset..] && !o.pos.skipping)
  {
    hide LastIndexOf, Archive, ReadChunk, Judged, ShortLines;
    SameFileReads(redact, f, p, second);
    ChunkMove(redact, Judged(p, Take(f, p.offset)), |f.content|, Take(f, p.offset).data);
    AfterLastNewline(f, p.offset);
  }

  /** Without long lines, what a read sees ends at most half a read after its last newline, and a read that is
      not full sees the whole rest of the log. */
  lemma AfterLastNewline(f: LogFile, offset: nat)
    requires offset <= |f.content| && ShortLines(f.content)
    ensures var chunk := Take(f, offset).data;
            match LastIndexOf(chunk, '\n')
            case None => |chunk| <= READ_LIMIT / 2 && '\n' !in f.content[offset..]
            case Some(e) => |chunk| - (e + 1) <= READ_LIMIT / 2 && offset + e + 1 <= |f.content| &&
                            (|chunk| < READ_LIMIT ==> '\n' !in f.content[offset + e + 1..])
  {
    hide LastIndexOf;
    var chunk := Take(f, offset).data;
    assert chunk == f.content[offset..offset + |chunk|];
    match LastIndexOf(chunk, '\n')
    case None =>
      assert |chunk| <= READ_LIMIT / 2;
      assert f.content[offset..] == chunk;
    case Some(e) =>
      assert chunk[e + 1..] == f.content[offset + e + 1..offset + |chunk|];
      assert |chunk| - (e + 1) <= READ_LIMIT / 2;
      if |chunk| < READ_LIMIT {
        assert f.content[offset + e + 1..] == chunk[e + 1..];
      }
  }
}
