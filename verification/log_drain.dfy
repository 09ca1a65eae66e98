/** Draining remote logs: which nodes the last round marks as read to their end. */
module LogDrain {
  import opened Common
  import opened LogTail
  import opened LogCursor
  import GapLedger

  /** What one round did with a node: nothing (it is stopped and only running nodes are read, or it is no longer
      recorded), found no log, failed, or read this log. */
  datatype NodeRead = Unread | Absent | Failed | ReadOf(log: LogFile)

  const ERROR := "collector_error"

  function Did(done: map<string, NodeRead>, node: string): NodeRead { if node in done then done[node] else Unread }

  function Offset(offsets: map<string, nat>, node: string): nat { if node in offsets then offsets[node] else 0 }

  predicate FailedNode(open: seq<GapLedger.Gap>, node: string) {
    exists i :: 0 <= i < |open| && open[i].cause.node == node && open[i].cause.reason == ERROR
  }

  /** markRemoteDrained: every node with a position is marked unless an open gap says its read failed. */
  method MarkDrained(offsets: map<string, nat>, open: seq<GapLedger.Gap>, drained: map<string, int>, now: int)
    returns (marked: map<string, int>)
    ensures forall node :: node in marked <==> node in drained || (node in offsets && !FailedNode(open, node))
    ensures forall node :: node in marked ==>
              marked[node] == if node in offsets && !FailedNode(open, node) then now else drained[node]
  {
    var failed: set<string> := {};
    for i := 0 to |open|
      invariant forall node :: node in failed <==> FailedNode(open[..i], node)
    {
      FailedStep(open, i);
      if open[i].cause.reason == ERROR { failed := failed + {open[i].cause.node}; }
    }
    assert open[..|open|] == open;
    marked := drained;
    var left := offsets.Keys;
    while left != {}
      invariant left <= offsets.Keys
      invariant forall node :: node in marked <==>
                  node in drained || (node in offsets && node !in left && node !in failed)
      invariant forall node :: node in marked ==>
                  marked[node] == if node in offsets && node !in left && node !in failed then now else drained[node]
      decreases |left|
    {
      var node :| node in left;
      left := left - {node};
      if node !in failed { marked := marked[node := now]; }
    }
  }

  lemma FailedStep(open: seq<GapLedger.Gap>, i: nat)
    requires i < |open|
    ensures forall node :: FailedNode(open[..i + 1], node) <==>
              FailedNode(open[..i], node) || (open[i].cause.node == node && open[i].cause.reason == ERROR)
  {
    assert open[..i + 1] == open[..i] + [open[i]];
    forall node ensures FailedNode(open[..i + 1], node) <==>
              FailedNode(open[..i], node) || (open[i].cause.node == node && open[i].cause.reason == ERROR) {
      assert open[..i + 1][i] == open[i] && forall k :: 0 <= k < i ==> open[..i + 1][k] == open[..i][k];
    }
  }

  /** The positions before and after a round that read `done`, and the gaps left open by it. Logs that were read
      are unreplaced and have no line above half a read. */
  ghost predicate IsRound(redact: string -> string, done: map<string, NodeRead>, starts: map<string, Pos>,
                          before: map<string, nat>, after: map<string, nat>,
                          open: seq<GapLedger.Gap>, gaps: seq<GapLedger.Gap>, next: seq<GapLedger.Gap>)
  {
    && (forall node :: node in after <==> node in before || !Did(done, node).Unread?)
    && (forall node :: node in after && !Did(done, node).ReadOf? ==> after[node] == Offset(before, node))
    && (forall node :: node in after && Did(done, node).ReadOf? ==> node in starts)
    && (forall node :: node in after && Did(done, node).ReadOf? ==>
          ReadAs(redact, Did(done, node).log, starts[node], Offset(before, node), after[node]))
    && (forall node :: FailedNode(gaps, node) <==> Did(done, node).Failed?)
    && next == GapLedger.Next(open, gaps)
  }

  ghost predicate ReadAs(redact: string -> string, log: LogFile, start: Pos, before: nat, after: nat) {
    && SameFile(log, start) && !start.skipping && ShortLines(log.content) && start.offset == before
    && after == Archive(redact, start, Take(log, start.offset), Missing).pos.offset
  }

  predicate AtLastNewline(log: LogFile, offset: nat) { offset <= |log.content| && '\n' !in log.content[offset..] }

  /** After a round in which no position filled a read, a node is marked exactly when it has a position and was
      not a failed read, so stopped nodes left out of the round and nodes without a log are marked too; a marked
      node that was read in the round was read to its last newline. */
  lemma MarkedMeaning(redact: string -> string, done: map<string, NodeRead>, starts: map<string, Pos>,
                      before: map<string, nat>, after: map<string, nat>, open: seq<GapLedger.Gap>,
                      gaps: seq<GapLedger.Gap>, next: seq<GapLedger.Gap>, node: string)
    requires IsRound(redact, done, starts, before, after, open, gaps, next) && !Filled(before, after)
    ensures node in after && !FailedNode(next, node) <==>
              Did(done, node).ReadOf? || Did(done, node).Absent? || (Did(done, node).Unread? && node in before)
    ensures node in after && !FailedNode(next, node) ==>
              (Did(done, node).ReadOf? ==> AtLastNewline(Did(done, node).log, after[node]))
  {
    hide ReadAs, GapLedger.Next, FailedNode;
    NextFailures(open, gaps, node);
    if node in after && Did(done, node).ReadOf? {
      ReadToEnd(redact, Did(done, node).log, starts[node], Offset(before, node), after[node]);
      assert Moved(before, after, node) < READ_LIMIT / 2;
    }
  }

  lemma ReadToEnd(redact: string -> string, log: LogFile, start: Pos, before: nat, after: nat)
    requires ReadAs(redact, log, start, before, after)
    ensures before <= after && (after - before < READ_LIMIT / 2 ==> AtLastNewline(log, after))
  {
    hide Archive, ShortLines, SameFile, Take;
    ShortMoveReachesEnd(redact, log, start, Missing);
  }

  /** The failures left open after a round are the round's own. */
  lemma NextFailures(open: seq<GapLedger.Gap>, gaps: seq<GapLedger.Gap>, node: string)
    ensures FailedNode(GapLedger.Next(open, gaps), node) <==> FailedNode(gaps, node)
  {
    hide GapLedger.Continued, GapLedger.Begun;
    var next := GapLedger.Next(open, gaps);
    forall c: GapLedger.Cause ensures GapLedger.Has(next, c) <==> GapLedger.Has(gaps, c) {
      GapLedger.ContinuedCauses(open, gaps, c);
      GapLedger.BegunHas(GapLedger.Continued(open, gaps), gaps, c);
    }
    FailedHas(next, node);
    FailedHas(gaps, node);
  }

  lemma FailedHas(gs: seq<GapLedger.Gap>, node: string)
    ensures FailedNode(gs, node) <==>
              exists c: GapLedger.Cause :: c.node == node && c.reason == ERROR && GapLedger.Has(gs, c)
  {
    if FailedNode(gs, node) {
      var i :| 0 <= i < |gs| && gs[i].cause.node == node && gs[i].cause.reason == ERROR;
      assert GapLedger.Has(gs, gs[i].cause);
    }
  }

  /** So a stopped node whose log still holds unread lines loses the gap that stood for them: it is marked, and
      a gap that ended by then is no longer shown. */
  lemma StoppedNodeLosesItsGap(redact: string -> string, node: string, offset: nat, now: int, gap: GapLedger.Gap)
    requires gap.cause.node == node && gap.cause.reason == GapLedger.NO_JOB && gap.to <= now
    ensures var at: map<string, nat> := map[node := offset];
            && IsRound(redact, map[], map[], at, at, [], [], []) && !Filled(at, at)
            && node in at && !FailedNode([], node)
            && GapLedger.LeftOf(gap, map[node := now]) == []
  {
    assert GapLedger.Next([], []) == [];
  }
}
