/** The stored cursor and the methods that move it. */
module LogCursor {
  import opened Common
  import opened Text
  import opened LogTail

  /** redactLogLine over the lines of a read that ends with a newline, carrying the key-block flag. */
  method RedactLines(redact: string -> string, inSecret: bool, text: string) returns (texts: seq<string>, secret: bool)
    requires text == [] || text[|text| - 1] == '\n'
    ensures texts == Redacted(redact, inSecret, Lines(text)) && secret == SecretAfter(redact, inSecret, Lines(text))
  {
    hide RedactLine, Redacted, SecretAfter, Lines;
    texts, secret := [], inSecret;
    var left := text;
    while left != []
      invariant left == [] || left[|left| - 1] == '\n'
      invariant texts + Redacted(redact, secret, Lines(left)) == Redacted(redact, inSecret, Lines(text))
      invariant SecretAfter(redact, secret, Lines(left)) == SecretAfter(redact, inSecret, Lines(text))
      decreases |left|
    {
      var cut := IndexOf(left, '\n');
      assert left[..|left|] == left && left[|left| - 1] in left;
      LinesStep(left);
      RedactedStep(redact, secret, Lines(left));
      assert Lines(left)[1..] == Lines(left[cut + 1..]);
      var shown := RedactLine(redact, secret, left[..cut]);
      texts := texts + [shown.0];
      secret := shown.1;
      left := left[cut + 1..];
    }
    LinesStep("");
    RedactedStep(redact, secret, []);
  }

  /** The cursor holds five maps keyed by node; here they are one map of a node's five entries. */
  class Cursor {
    var positions: map<string, Pos>

    /** A node's position; absent entries read as Go's zero values. */
    function At(node: string): Pos
      reads this
    {
      if node in positions then positions[node] else START
    }

    constructor ()
      ensures forall node :: At(node) == START
    {
      positions := map[];
    }

    /** archiveLog: judge the observation, restart when the file was replaced or shrank, skip the rest of
        an oversized line, archive the complete lines. `stored` is whether all their day records could be
        appended; when one could not, only the offset stays where it was. */
    method ArchiveLog(redact: string -> string, node: string, first: Snapshot, second: Snapshot, stored: bool)
      returns (gaps: seq<Gap>, lines: seq<string>, failed: bool)
      modifies this
      ensures Outcome(At(node), gaps, lines, failed) == ArchiveInto(redact, old(At(node)), first, second, stored)
      ensures forall other :: other != node ==> At(other) == old(At(other))
    {
      hide RedactLine, Lines, Redacted, SecretAfter, ReadChunk, Judged, Restarts, Rotated;
      if first == Missing { return [LogUnavailable], [], false; }
      if first == Unreadable { return [], [], true; }
      var start := At(node);
      var p, restart;
      p, restart, gaps := JudgeFirst(start, first);
      var size, chunk := first.size, first.data;
      if restart && p.offset != 0 {
        if !second.Seen? {
          positions := positions[node := p];
          return gaps, [], true;
        }
        size, chunk, p := second.size, second.data, p.(offset := 0, head := second.head);
      }
      p, gaps, lines := ReadFrom(redact, p, size, chunk, gaps);
      failed := lines != [] && !stored;
      if failed { p := p.(offset := start.offset); }
      positions := positions[node := p];
    }

    /** The first half of archiveLog: was the log replaced, or did it shrink? */
    static method JudgeFirst(start: Pos, first: Snapshot) returns (p: Pos, restart: bool, gaps: seq<Gap>)
      requires first.Seen?
      ensures p == Judged(start, first) && restart == Restarts(start, first) && p.offset == start.offset
      ensures gaps ==
              (if Rotated(start, first) then [LogRotated] else []) + if first.size < start.offset then [LogTruncated]
              else []
    {
      hide SameHead;
      p, restart, gaps := start, false, [];
      if first.id != 0 {
        if p.file.Some? && p.file.value != first.id {
          gaps := gaps + [LogRotated];
          restart, p := true, p.(secret := false);
        }
        p := p.(file := Some(first.id));
      }
      if !restart && first.size >= p.offset && p.head != "" && !SameHead(p.head, first.head) {
        gaps := gaps + [LogRotated];
        restart, p := true, p.(secret := false);
      }
      p := p.(head := first.head);
      if first.size < p.offset {
        gaps := gaps + [LogTruncated];
        restart := true;
      }
      if restart { p := p.(skipping := false); }
    }

    /** The second half of archiveLog, on the node's entries. */
    static method ReadFrom(redact: string -> string, from: Pos, size: nat, data: string, reported: seq<Gap>)
      returns (p: Pos, gaps: seq<Gap>, lines: seq<string>)
      ensures Outcome(p, gaps, lines, false) == ReadChunk(redact, from, size, data, reported)
    {
      hide RedactLine, Lines, Redacted, SecretAfter, IndexOf, LastIndexOf;
      p, gaps, lines := from, reported, [];
      var chunk := data;
      if size <= p.offset { return; }
      if p.skipping {
        var cut := IndexOf(chunk, '\n');
        if cut == |chunk| {
          p := p.(offset := p.offset + |chunk|);
          return;
        }
        p := p.(offset := p.offset + cut + 1, skipping := false);
        chunk := chunk[cut + 1..];
      }
      match LastIndexOf(chunk, '\n')
      case None =>
        if |data| == READ_LIMIT {
          gaps := gaps + [LogLineOversized];
          p := p.(skipping := true, offset := p.offset + |chunk|);
        }
      case Some(end) =>
        var secret;
        lines, secret := RedactLines(redact, p.secret, chunk[..end + 1]);
        p := p.(offset := p.offset + end + 1, secret := secret);
    }
  }

  /** filledARead: some position moved by at least half a read; one that moved back counts from zero. */
  predicate Filled(before: map<string, nat>, after: map<string, nat>) {
    exists node :: node in after && Moved(before, after, node) >= READ_LIMIT / 2
  }

  function Moved(before: map<string, nat>, after: map<string, nat>, node: string): nat
    requires node in after
  {
    var moved := (after[node] as int) - (if node in before then before[node] else 0);
    if moved < 0 then after[node] else moved
  }

  method FilledARead(before: map<string, nat>, after: map<string, nat>) returns (filled: bool)
    ensures filled == Filled(before, after)
  {
    var left := after.Keys;
    while left != {}
      invariant left <= after.Keys
      invariant forall node :: node in after && node !in left ==> Moved(before, after, node) < READ_LIMIT / 2
      decreases |left|
    {
      var node :| node in left;
      left := left - {node};
      var moved := (after[node] as int) - (if node in before then before[node] else 0);
      if moved < 0 { moved := after[node]; }
      if moved >= READ_LIMIT / 2 { return true; }
    }
    return false;
  }

  /** Drain soundness: in a round over unreplaced logs whose lines stay below half a read, when no position
      filled a read, every node that was read stands right after the last newline of its log. */
  lemma DrainedRound(redact: string -> string, logs: map<string, LogFile>, starts: map<string, Pos>,
                     before: map<string, nat>, after: map<string, nat>, second: Snapshot)
    requires logs.Keys <= starts.Keys && logs.Keys <= after.Keys
    requires forall node :: node in logs ==>
      && SameFile(logs[node], starts[node]) && !starts[node].skipping && ShortLines(logs[node].content)
      && starts[node].offset == (if node in before then before[node] else 0)
      && after[node] == Archive(redact, starts[node], Take(logs[node], starts[node].offset), second).pos.offset
    requires !Filled(before, after)
    ensures forall node :: node in logs ==>
      after[node] <= |logs[node].content| && '\n' !in logs[node].content[after[node]..]
  {
    forall node | node in logs
      ensures after[node] <= |logs[node].content| && '\n' !in logs[node].content[after[node]..]
    {
      hide Archive, ShortLines, SameFile, Take;
      ShortMoveReachesEnd(redact, logs[node], starts[node], second);
      assert Moved(before, after, node) < READ_LIMIT / 2;
    }
  }
}
