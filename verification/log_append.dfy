/** A read whose lines cannot be appended: the background collector saves the position with its offset unmoved
    but its identity, head and flags already moved. */
module LogAppend {
  import opened Common
  import opened Text
  import opened LogTail

  lemma LinesEndSkipping(redact: string -> string, p: Pos, size: nat, chunk: string, gaps: seq<Gap>)
    ensures var o := ReadChunk(redact, p, size, chunk, gaps); o.lines != [] ==> !o.pos.skipping
  {
    hide RedactLine, Lines, SecretAfter, LastIndexOf;
  }

  /** A position whose offset stays while its identity and flags move, over a log that has not changed before it:
      it is still a reading exactly at a line's start and with the key-block flag it had. */
  lemma KeptOffset(redact: string -> string, secret: bool, f: LogFile, g: LogFile, p: Pos, marks: seq<bool>,
                   texts: seq<string>, q: Pos)
    requires Reading(redact, secret, f, p, marks, texts) && SameBefore(f, g, p)
    requires q.offset == p.offset && SameFile(g, q) && !q.skipping
    ensures Reading(redact, secret, g, q, marks, texts) <==> Rest(g.content[..p.offset]) == "" && q.secret == p.secret
  {
    hide RedactLine, Lines, Redacted, SecretAfter, Kept, Rest;
  }

  /** The complete lines of a read, after the end of the line being skipped. */
  function NewLines(p: Pos, chunk: string): seq<string> {
    var cut := IndexOf(chunk, '\n');
    if !p.skipping then Lines(chunk) else if cut == |chunk| then [] else Lines(chunk[cut + 1..])
  }

  /** The lines that end in a text end before its last newline. */
  lemma LinesToLast(s: string)
    ensures Lines(s) == match LastIndexOf(s, '\n') case None => [] case Some(e) => Lines(s[..e + 1])
  {
    hide Lines, Rest;
    match LastIndexOf(s, '\n')
    case None =>
      assert '\n' !in s;
      assert IndexOf(s, '\n') == |s|;
      LinesStep(s);
    case Some(e) =>
      var head, tail := s[..e + 1], s[e + 1..];
      assert s == head + tail;
      EndsLine(head);
      LinesOfConcat(head, tail);
      assert Rest(head) + tail == tail;
      assert IndexOf(tail, '\n') == |tail|;
      LinesStep(tail);
  }

  lemma NewLinesRead(redact: string -> string, p: Pos, size: nat, chunk: string, gaps: seq<Gap>)
    requires size <= p.offset ==> chunk == ""
    ensures var o := ReadChunk(redact, p, size, chunk, gaps);
            && o.lines == Redacted(redact, p.secret, NewLines(p, chunk))
            && o.pos.secret == SecretAfter(redact, p.secret, NewLines(p, chunk))
  {
    hide RedactLine, Lines, LastIndexOf, Redacted, SecretAfter;
    NothingKept(redact, p.secret);
    LinesToLast(chunk);
    LinesStep("");
    var cut := IndexOf(chunk, '\n');
    if cut < |chunk| {
      LinesToLast(chunk[cut + 1..]);
    }
  }

  /** A failed append leaves a reading behind exactly when the position stands at a line's start and the complete
      lines of the read leave the key-block flag as they find it. */
  lemma UnstoredReads(redact: string -> string, secret: bool, f: LogFile, g: LogFile, p: Pos, marks: seq<bool>,
                      texts: seq<string>, second: Snapshot)
    requires Reading(redact, secret, f, p, marks, texts) && SameBefore(f, g, p) && !Restarts(p, Take(g, p.offset))
    requires NewLines(p, Take(g, p.offset).data) != []
    ensures var o := ArchiveInto(redact, p, Take(g, p.offset), second, false);
            && o.failed
            && (Reading(redact, secret, g, o.pos, marks, texts) <==>
                  Rest(g.content[..p.offset]) == "" &&
                  SecretAfter(redact, p.secret, NewLines(p, Take(g, p.offset).data)) == p.secret)
  {
    hide RedactLine, Lines, Redacted, SecretAfter, Kept, Restarts, Rest, Reading, Archive, ReadChunk, NewLines;
    var next := Take(g, p.offset);
    var o := Archive(redact, p, next, second);
    NoRestartReads(redact, p, g, second);
    NotRestarted(p, g);
    NewLinesRead(redact, Judged(p, next), |g.content|, next.data, []);
    SameNewLines(p, Judged(p, next), next.data);
    LinesEndSkipping(redact, Judged(p, next), |g.content|, next.data, []);
    ReadKeepsIdentity(redact, Judged(p, next), |g.content|, next.data, []);
    KeptOffset(redact, secret, f, g, p, marks, texts, Unstored(p, o));
  }

  lemma NotRestarted(p: Pos, g: LogFile)
    requires !Restarts(p, Take(g, p.offset))
    ensures var q := Judged(p, Take(g, p.offset));
            SameFile(g, q) && q.offset == p.offset && q.skipping == p.skipping && q.secret == p.secret
  {
  }

  lemma SameNewLines(p: Pos, q: Pos, chunk: string)
    requires p.skipping == q.skipping
    ensures NewLines(p, chunk) == NewLines(q, chunk)
  {
  }

  /** How a read that archived something leaves a node's entries, restarted or not. */
  lemma ArchiveEnds(redact: string -> string, p: Pos, g: LogFile, second: Snapshot)
    ensures var first := Take(g, p.offset);
            var o := Archive(redact, p, first, second);
            o.lines != [] ==>
              && !o.pos.skipping && o.pos.file == Judged(p, first).file
              && (if Restarts(p, first) && p.offset != 0 then second.Seen? && o.pos.head == second.head
                  else o.pos.head == first.head)
  {
    hide ReadChunk, Restarts, Rotated;
    var first := Take(g, p.offset);
    var q := Judged(p, first);
    var gaps := (if Rotated(p, first) then [LogRotated] else []) + if first.size < p.offset then [LogTruncated] else [];
    if Restarts(p, first) && p.offset != 0 {
      if second.Seen? {
        var r := q.(offset := 0, head := second.head);
        LinesEndSkipping(redact, r, second.size, second.data, gaps);
        ReadKeepsIdentity(redact, r, second.size, second.data, gaps);
      }
    } else {
      LinesEndSkipping(redact, q, first.size, first.data, gaps);
      ReadKeepsIdentity(redact, q, first.size, first.data, gaps);
    }
  }

  /** After a restart it leaves the new identity with the old offset, with the same consequence as a failed
      second observation. */
  lemma UnstoredRestart(redact: string -> string, p: Pos, g: LogFile, later: LogFile, h: LogFile)
    requires Restarts(p, Take(g, p.offset)) && p.offset != 0 && later.id == g.id && h.id == g.id &&
             later.content <= h.content
    ensures var o := ArchiveInto(redact, p, Take(g, p.offset), Take(later, 0), false);
            o.lines != [] ==>
              && o.failed && o.pos.offset == p.offset
              && (Restarts(o.pos, Take(h, p.offset)) <==> |h.content| < p.offset)
  {
    hide Archive, Restarts, Reading, Take;
    RestartReads(redact, p, g, later);
    var o := Archive(redact, p, Take(g, p.offset), Take(later, 0));
    JudgedFile(p, g);
    OldOffsetRestarts(Unstored(p, o), later, h);
  }

  lemma JudgedFile(p: Pos, g: LogFile)
    ensures g.id != 0 ==> Judged(p, Take(g, p.offset)).file == Some(g.id)
  {
  }

  // ---------- what such a read can cost ----------

  /** Reading two lines that end the log, from a line's start. */
  lemma TwoLinesRead(redact: string -> string, f: LogFile, p: Pos, x: string, y: string, second: Snapshot)
    requires SameFile(f, p) && !p.skipping && '\n' !in x && '\n' !in y && Take(f, p.offset).data == x + "\n" + y + "\n"
    ensures var o := Archive(redact, p, Take(f, p.offset), second);
            && o.lines == Redacted(redact, p.secret, [x, y]) && o.pos.secret == SecretAfter(redact, p.secret, [x, y])
            && o.pos.offset == p.offset + |x| + |y| + 2 && SameFile(f, o.pos) && !o.pos.skipping
  {
    hide RedactLine, Lines, Redacted, SecretAfter, Judged, Rest;
    SameFileReads(redact, f, p, second);
    SameFileContinues(f, p);
    JudgedPlain(f, p);
    JudgedSecret(f, p);
    var chunk := Take(f, p.offset).data;
    TwoLinesOf(x, y);
    assert |f.content| > p.offset;
    assert chunk[..|chunk|] == chunk && chunk[|chunk| - 1] == '\n';
    LastIsNewline(chunk);
  }

  lemma JudgedSecret(f: LogFile, p: Pos)
    requires SameFile(f, p)
    ensures Judged(p, Take(f, p.offset)).secret == p.secret
  {
    SameFileContinues(f, p);
  }

  lemma LastIsNewline(s: string)
    requires s != [] && s[|s| - 1] == '\n'
    ensures LastIndexOf(s, '\n') == Some(|s| - 1)
  {
  }

  lemma TwoLinesOf(x: string, y: string)
    requires '\n' !in x && '\n' !in y
    ensures Lines(x + "\n" + y + "\n") == [x, y]
  {
    hide Lines, Rest;
    OneLine("", x);
    OneLine("", y);
    assert "" + x + "\n" == x + "\n" && "" + y + "\n" == y + "\n" && x + "\n" + y + "\n" == (x + "\n") + (y + "\n");
    LinesOfConcat(x + "\n", y + "\n");
    assert Rest(x + "\n") + (y + "\n") == y + "\n" && "" + x == x && "" + y == y;
  }

  /** The rest of a key block whose end is read, but not stored: the next read shows the line of the block
      through the single-line redaction only. Stored at once, it would have been hidden. */
  lemma KeyLineShown(redact: string -> string, f: LogFile, p: Pos, body: string, end: string)
    requires SameFile(f, p) && !p.skipping && p.secret && '\n' !in body && '\n' !in end
    requires Take(f, p.offset).data == body + "\n" + end + "\n"
    requires !Contains(body, "-----END ") && !Contains(body, "-----BEGIN ") && Contains(end, "-----END ")
    ensures var stored := ArchiveInto(redact, p, Take(f, p.offset), Missing, true);
            var o := ArchiveInto(redact, p, Take(f, p.offset), Missing, false);
            var again := ArchiveInto(redact, o.pos, Take(f, o.pos.offset), Missing, true);
            && stored.lines == [PEM, PEM]
            && o.failed && o.pos.offset == p.offset && p.secret && !o.pos.secret
            && |again.lines| == 2 && (|redact(body)| <= LINE_LIMIT ==> again.lines[0] == redact(body))
  {
    hide Archive, SameFile, Take;
    TwoLinesRead(redact, f, p, body, end, Missing);
    TwoRedacted(redact, true, body, end);
    var o := ArchiveInto(redact, p, Take(f, p.offset), Missing, false);
    UnstoredSameFile(redact, f, p);
    TwoLinesRead(redact, f, o.pos, body, end, Missing);
    TwoRedacted(redact, false, body, end);
  }

  lemma UnstoredSameFile(redact: string -> string, f: LogFile, p: Pos)
    requires SameFile(f, p) && !p.skipping
    ensures var o := Archive(redact, p, Take(f, p.offset), Missing);
            SameFile(f, Unstored(p, o)) && (o.lines != [] ==> !Unstored(p, o).skipping)
  {
    hide RedactLine, Lines, Redacted, SecretAfter, ReadChunk, Judged;
    var next := Take(f, p.offset);
    SameFileReads(redact, f, p, Missing);
    SameFileContinues(f, p);
    LinesEndSkipping(redact, Judged(p, next), |f.content|, next.data, []);
    ReadKeepsIdentity(redact, Judged(p, next), |f.content|, next.data, []);
  }

  lemma TwoRedacted(redact: string -> string, secret: bool, x: string, y: string)
    ensures var r := RedactLine(redact, secret, x);
            && Redacted(redact, secret, [x, y]) == [r.0, RedactLine(redact, r.1, y).0]
            && SecretAfter(redact, secret, [x, y]) == RedactLine(redact, r.1, y).1
  {
    hide RedactLine, Redacted, SecretAfter;
    assert [x, y][1..] == [y] && [y][1..] == [];
    var r := RedactLine(redact, secret, x);
    RedactedStep(redact, secret, [x, y]);
    RedactedStep(redact, r.1, [y]);
    RedactedStep(redact, RedactLine(redact, r.1, y).1, []);
  }

  lemma {:induction false} NotContained(s: string, word: string, c: char)
    requires c in word && c !in s
    ensures !Contains(s, word)
  {
    if s != [] {
      NotContained(s[1..], word, c);
    }
    assert forall k :: 0 <= k < |s| ==> s[k] != c;
  }

  lemma ContainsItself(s: string)
    ensures Contains(s, s)
  {
  }

  /** A log that is one line opening a key block, read from the start. */
  lemma BeginLineRead(redact: string -> string, f: LogFile, begin: string)
    requires f.content == begin + "\n" && '\n' !in begin && |begin| < READ_LIMIT
    requires "-----BEGIN " <= begin && !Contains(begin, "-----END ")
    ensures var p := Archive(redact, START, Take(f, 0), Missing).pos;
            p.offset == |f.content| && p.secret && !p.skipping && SameFile(f, p)
  {
    hide Lines, Rest, Contains, Redacted, SecretAfter, RedactLine;
    OneLine("", begin);
    assert "" + begin + "\n" == f.content && "" + begin == begin;
    LastIsNewline(f.content);
    assert f.content[..|f.content|] == f.content;
    assert f.content[0..|f.content|] == f.content;
    OpeningLine(redact, begin);
    RedactedStep(redact, false, [begin]);
    RedactedStep(redact, true, []);
    assert [begin][1..] == [];
  }

  /** So every key block can be shown: its first line is read and stored, then a line of it and its end arrive
      together and cannot be stored once. */
  lemma KeyBlockShown(redact: string -> string, id: nat, begin: string, body: string, end: string)
    requires '\n' !in begin && '\n' !in body && '\n' !in end && |begin| + |body| + |end| + 3 <= READ_LIMIT
    requires "-----BEGIN " <= begin && !Contains(begin, "-----END ") && Contains(end, "-----END ")
    requires !Contains(body, "-----END ") && !Contains(body, "-----BEGIN ") && |redact(body)| <= LINE_LIMIT
    ensures var f := LogFile(id, begin + "\n");
            var g := LogFile(id, f.content + (body + "\n" + end + "\n"));
            var p := Archive(redact, START, Take(f, 0), Missing).pos;
            var o := ArchiveInto(redact, p, Take(g, p.offset), Missing, false);
            var again := ArchiveInto(redact, o.pos, Take(g, o.pos.offset), Missing, true);
            && ArchiveInto(redact, p, Take(g, p.offset), Missing, true).lines == [PEM, PEM]
            && |again.lines| == 2 && again.lines[0] == redact(body)
  {
    hide Archive, Redacted, SecretAfter, RedactLine, ArchiveInto, Contains;
    var f := LogFile(id, begin + "\n");
    var g := LogFile(id, f.content + (body + "\n" + end + "\n"));
    BeginLineRead(redact, f, begin);
    var p := Archive(redact, START, Take(f, 0), Missing).pos;
    assert g.content[|f.content|..] == body + "\n" + end + "\n";
    assert Take(g, p.offset).data == body + "\n" + end + "\n";
    KeyLineShown(redact, g, p, body, end);
  }

  lemma KeyBlockExample(redact: string -> string)
    requires |redact("key")| <= LINE_LIMIT
    ensures var f := LogFile(7, "-----BEGIN \n");
            var g := LogFile(7, f.content + "key\n-----END \n");
            var p := Archive(redact, START, Take(f, 0), Missing).pos;
            var o := ArchiveInto(redact, p, Take(g, p.offset), Missing, false);
            var again := ArchiveInto(redact, o.pos, Take(g, o.pos.offset), Missing, true);
            && ArchiveInto(redact, p, Take(g, p.offset), Missing, true).lines == [PEM, PEM]
            && |again.lines| == 2 && again.lines[0] == redact("key")
  {
    hide Archive, Redacted, SecretAfter, RedactLine, ArchiveInto, Contains, Take;
    NotContained("-----BEGIN ", "-----END ", 'D');
    NotContained("key", "-----END ", 'D');
    NotContained("key", "-----BEGIN ", 'B');
    ContainsItself("-----END ");
    KeyBlockShown(redact, 7, "-----BEGIN ", "key", "-----END ");
    assert "-----BEGIN " + "\n" == "-----BEGIN \n";
    assert "key" + "\n" + "-----END " + "\n" == "key\n-----END \n";
  }

  lemma OpeningLine(redact: string -> string, line: string)
    requires "-----BEGIN " <= line && !Contains(line, "-----END ")
    ensures RedactLine(redact, false, line).1
  {
    hide Contains;
    assert line[0..] == line;
  }

  /** The tail of an oversized line followed by another one: read but not stored, the tail is archived as a
      line of its own by the next read. Stored at once, only the other line is. */
  lemma TailShown(redact: string -> string, f: LogFile, p: Pos, tail: string, x: string)
    requires SameFile(f, p) && p.skipping && !p.secret && '\n' !in tail && '\n' !in x
    requires Take(f, p.offset).data == tail + "\n" + x + "\n"
    ensures var stored := ArchiveInto(redact, p, Take(f, p.offset), Missing, true);
            var o := ArchiveInto(redact, p, Take(f, p.offset), Missing, false);
            var again := ArchiveInto(redact, o.pos, Take(f, o.pos.offset), Missing, true);
            && stored.lines == Redacted(redact, false, [x])
            && o.failed && o.pos.offset == p.offset && p.skipping && !o.pos.skipping
            && again.lines == Redacted(redact, o.pos.secret, [tail, x])
  {
    hide Archive, SameFile, Take, Redacted;
    SkippedLineRead(redact, f, p, tail, x);
    var o := ArchiveInto(redact, p, Take(f, p.offset), Missing, false);
    TwoLinesRead(redact, f, o.pos, tail, x, Missing);
  }

  lemma SkippedChunk(redact: string -> string, q: Pos, size: nat, tail: string, x: string)
    requires q.skipping && !q.secret && size > q.offset && '\n' !in tail && '\n' !in x
    ensures var o := ReadChunk(redact, q, size, tail + "\n" + x + "\n", []);
            o.lines == Redacted(redact, false, [x]) && o.lines != [] && !o.failed && !o.pos.skipping
  {
    hide RedactLine, Lines, Redacted, SecretAfter, Rest;
    var chunk := tail + "\n" + x + "\n";
    assert chunk[..|tail|] == tail;
    FirstNewline(chunk, |tail|);
    var rest := chunk[|tail| + 1..];
    assert rest == x + "\n";
    OneLine("", x);
    assert "" + x + "\n" == x + "\n" && "" + x == x;
    LastIsNewline(rest);
    assert rest[..|rest|] == rest;
    OneRedacted(redact, x);
  }

  lemma SkippedLineRead(redact: string -> string, f: LogFile, p: Pos, tail: string, x: string)
    requires SameFile(f, p) && p.skipping && !p.secret && '\n' !in tail && '\n' !in x
    requires Take(f, p.offset).data == tail + "\n" + x + "\n"
    ensures var o := Archive(redact, p, Take(f, p.offset), Missing);
            o.lines == Redacted(redact, false, [x]) && o.lines != [] && !o.failed && SameFile(f, Unstored(p, o)) &&
                !o.pos.skipping
  {
    hide RedactLine, Redacted, ReadChunk, Judged, Archive;
    SameFileReads(redact, f, p, Missing);
    SameFileContinues(f, p);
    JudgedSecret(f, p);
    assert |f.content| > p.offset;
    SkippedChunk(redact, Judged(p, Take(f, p.offset)), |f.content|, tail, x);
    ReadKeepsIdentity(redact, Judged(p, Take(f, p.offset)), |f.content|, Take(f, p.offset).data, []);
  }

  lemma OneRedacted(redact: string -> string, x: string)
    ensures |Redacted(redact, false, [x])| == 1
  {
  }

  /** Such a log: a line of one byte more than a read, then a short one. */
  lemma TailExample(redact: string -> string)
    ensures var f := LogFile(7, Repeat('a', READ_LIMIT) + "b\nc\n");
            var p := Archive(redact, START, Take(f, 0), Missing).pos;
            var o := ArchiveInto(redact, p, Take(f, p.offset), Missing, false);
            && p.skipping && p.offset == READ_LIMIT
            && ArchiveInto(redact, o.pos, Take(f, o.pos.offset), Missing, true).lines ==
               Redacted(redact, o.pos.secret, ["b", "c"])
  {
    hide Archive, Redacted, Repeat, ArchiveInto;
    var a := Repeat('a', READ_LIMIT);
    var f := LogFile(7, a + "b\nc\n");
    assert f.content[0..READ_LIMIT] == a;
    ReadsWithoutNewline(redact, f, START);
    var p := Archive(redact, START, Take(f, 0), Missing).pos;
    assert Take(f, p.offset).data == "b" + "\n" + "c" + "\n";
    TailShown(redact, f, p, "b", "c");
  }
}
