/** The gap ledger: ongoing failures stay open and grow, ended ones are archived, and a reader merges both. */
module GapLedger {
  import opened Common

  const SECOND: int := 1_000_000_000

  /** The same failure: node, source and reason. */
  datatype Cause = Cause(node: string, source: string, reason: string)

  datatype Gap = Gap(from: int, to: int, cause: Cause)

  predicate Inside(g: Gap, c: Cause, t: int) { g.cause == c && g.from <= t <= g.to }

  predicate Shows(gs: seq<Gap>, c: Cause, t: int) { exists i :: 0 <= i < |gs| && Inside(gs[i], c, t) }

  predicate Distinct(gs: seq<Gap>) { forall i, j :: 0 <= i < j < |gs| ==> gs[i].cause != gs[j].cause }

  predicate Has(gs: seq<Gap>, c: Cause) { exists i :: 0 <= i < |gs| && gs[i].cause == c }

  // ---------- one round ----------

  /** The round's last gap of a cause. */
  function Latest(current: seq<Gap>, c: Cause): (r: Option<Gap>)
    ensures r.Some? <==> Has(current, c)
    ensures r.Some? ==> r.value in current && r.value.cause == c
  {
    if current == [] then None
    else if current[|current| - 1].cause == c then Some(current[|current| - 1])
    else
      var rest := current[..|current| - 1];
      assert Has(rest, c) ==> Has(current, c);
      assert Has(current, c) ==> Has(rest, c) by {
        if Has(current, c) {
          var i :| 0 <= i < |current| && current[i].cause == c;
          assert rest[i].cause == c;
        }
      }
      Latest(rest, c)
  }

  predicate Continues(g: Gap, current: seq<Gap>) {
    Latest(current, g.cause).Some? && Latest(current, g.cause).value.from <= g.to + SECOND
  }

  function Continued(open: seq<Gap>, current: seq<Gap>): seq<Gap> {
    if open == [] then []
    else
      var g := open[|open| - 1];
      Continued(open[..|open| - 1], current) +
          if Continues(g, current) then [g.(to := Latest(current, g.cause).value.to)] else []
  }

  function Ended(open: seq<Gap>, current: seq<Gap>): seq<Gap> {
    if open == [] then []
    else
      var g := open[|open| - 1];
      Ended(open[..|open| - 1], current) + if Continues(g, current) then [] else [g]
  }

  /** The round's gaps whose cause is not yet listed, each once. */
  function Begun(listed: seq<Gap>, current: seq<Gap>): seq<Gap> {
    if current == [] then listed
    else
      var before := Begun(listed, current[..|current| - 1]);
      var g := current[|current| - 1];
      if Has(before, g.cause) then before else before + [g]
  }

  function Next(open: seq<Gap>, current: seq<Gap>): seq<Gap> { Begun(Continued(open, current), current) }

  /** mergeWebMonitorGaps, with its map of continuing causes and its set of causes seen. */
  method MergeGaps(open: seq<Gap>, current: seq<Gap>) returns (next: seq<Gap>, ended: seq<Gap>)
    ensures next == Next(open, current) && ended == Ended(open, current)
  {
    var continuing: map<Cause, Gap> := map[];
    for i := 0 to |current|
      invariant forall c :: c in continuing <==> Latest(current[..i], c).Some?
      invariant forall c :: c in continuing ==> Latest(current[..i], c) == Some(continuing[c])
    {
      assert current[..i + 1][..i] == current[..i];
      continuing := continuing[current[i].cause := current[i]];
    }
    assert current[..|current|] == current;
    var seen: set<Cause> := {};
    next, ended := [], [];
    for i := 0 to |open|
      invariant next == Continued(open[..i], current) && ended == Ended(open[..i], current)
      invariant forall c :: c in seen <==> Has(next, c)
    {
      assert open[..i + 1][..i] == open[..i];
      var g := open[i];
      if g.cause in continuing && continuing[g.cause].from <= g.to + SECOND {
        HasAppend(next, g.(to := continuing[g.cause].to));
        next := next + [g.(to := continuing[g.cause].to)];
        seen := seen + {g.cause};
      } else {
        ended := ended + [g];
      }
    }
    assert open[..|open|] == open;
    ghost var listed := next;
    for i := 0 to |current|
      invariant next == Begun(listed, current[..i])
      invariant forall c :: c in seen <==> Has(next, c)
    {
      assert current[..i + 1][..i] == current[..i];
      if current[i].cause !in seen {
        HasAppend(next, current[i]);
        next := next + [current[i]];
        seen := seen + {current[i].cause};
      }
    }
  }

  lemma HasAppend(gs: seq<Gap>, g: Gap)
    ensures forall c :: Has(gs + [g], c) <==> Has(gs, c) || c == g.cause
  {
    forall c ensures Has(gs + [g], c) <==> Has(gs, c) || c == g.cause {
      assert (gs + [g])[|gs|] == g;
      assert forall i :: 0 <= i < |gs| ==> (gs + [g])[i] == gs[i];
    }
  }

  lemma ShowsAppend(gs: seq<Gap>, g: Gap, c: Cause, t: int)
    ensures Shows(gs + [g], c, t) <==> Shows(gs, c, t) || Inside(g, c, t)
  {
    assert (gs + [g])[|gs|] == g;
    assert forall i :: 0 <= i < |gs| ==> (gs + [g])[i] == gs[i];
  }

  // ---------- what a round does to the ledger ----------

  datatype Ledger = Ledger(open: seq<Gap>, archived: seq<Gap>)

  function Round(l: Ledger, current: seq<Gap>): Ledger {
    Ledger(Next(l.open, current), l.archived + Ended(l.open, current))
  }

  predicate Covers(l: Ledger, c: Cause, t: int) { Shows(l.open, c, t) || Shows(l.archived, c, t) }

  /** All gaps of a round span the same interval, as collectNetwork makes them. */
  predicate Uniform(current: seq<Gap>, since: int, now: int) {
    since <= now && forall i :: 0 <= i < |current| ==> current[i].from == since && current[i].to == now
  }

  /** Open gaps that a round's interval neither starts nor ends before. */
  predicate Precedes(open: seq<Gap>, since: int, now: int) {
    forall i :: 0 <= i < |open| ==> open[i].from <= open[i].to && open[i].from <= since && open[i].to <= now
  }

  /** An instant a continuing gap bridges: after the open gap ended, before the round began, at most a
      second in between. */
  predicate Bridged(open: seq<Gap>, current: seq<Gap>, since: int, c: Cause, t: int) {
    Has(current, c) &&
        exists i :: 0 <= i < |open| && open[i].cause == c && open[i].to < t < since && since <= open[i].to + SECOND
  }

  lemma {:induction false} ContinuedMeaning(open: seq<Gap>, current: seq<Gap>, since: int, now: int, c: Cause, t: int)
    requires Uniform(current, since, now) && Precedes(open, since, now)
    ensures Shows(Continued(open, current), c, t) || Shows(Ended(open, current), c, t) ==>
              Shows(open, c, t) || (Has(current, c) && since <= t <= now) || Bridged(open, current, since, c, t)
    ensures Shows(open, c, t) || Bridged(open, current, since, c, t) ==>
              Shows(Continued(open, current), c, t) || Shows(Ended(open, current), c, t)
    ensures Has(Continued(open, current), c) ==>
              Has(current, c) && (since <= t <= now ==> Shows(Continued(open, current), c, t))
  {
    if open != [] {
      var rest, g := open[..|open| - 1], open[|open| - 1];
      assert open == rest + [g];
      ContinuedMeaning(rest, current, since, now, c, t);
      ShowsAppend(rest, g, c, t);
      BridgedStep(rest, g, current, since, c, t);
      assert Latest(current, g.cause).Some? ==> Latest(current, g.cause).value in current;
      assert Continued(rest, current) + [] == Continued(rest, current) &&
          Ended(rest, current) + [] == Ended(rest, current);
      if Continues(g, current) {
        var h := g.(to := Latest(current, g.cause).value.to);
        assert h.to == now;
        ShowsAppend(Continued(rest, current), h, c, t);
        HasAppend(Continued(rest, current), h);
      } else {
        ShowsAppend(Ended(rest, current), g, c, t);
      }
    }
  }

  lemma BridgedStep(rest: seq<Gap>, g: Gap, current: seq<Gap>, since: int, c: Cause, t: int)
    ensures Bridged(rest + [g], current, since, c, t) <==>
              Bridged(rest, current, since, c, t) ||
              (Has(current, c) && g.cause == c && g.to < t < since && since <= g.to + SECOND)
  {
    assert (rest + [g])[|rest|] == g;
    assert forall i :: 0 <= i < |rest| ==> (rest + [g])[i] == rest[i];
  }

  lemma {:induction false} BegunMeaning(listed: seq<Gap>, current: seq<Gap>, since: int, now: int, c: Cause, t: int)
    requires Uniform(current, since, now)
    ensures Has(Begun(listed, current), c) <==> Has(listed, c) || Has(current, c)
    ensures Shows(Begun(listed, current), c, t) <==>
              Shows(listed, c, t) || (!Has(listed, c) && Has(current, c) && since <= t <= now)
    ensures Distinct(listed) ==> Distinct(Begun(listed, current))
  {
    if current != [] {
      var rest, g := current[..|current| - 1], current[|current| - 1];
      assert current == rest + [g];
      BegunMeaning(listed, rest, since, now, c, t);
      HasAppend(rest, g);
      var before := Begun(listed, rest);
      HasAppend(before, g);
      ShowsAppend(before, g, c, t);
      if !Has(before, g.cause) && Distinct(listed) {
        DistinctAppend(before, g);
      }
      BegunHas(listed, rest, g.cause);
    }
  }

  lemma {:induction false} ContinuedCauses(open: seq<Gap>, current: seq<Gap>, c: Cause)
    ensures Has(Continued(open, current), c) ==> Has(current, c)
  {
    if open != [] {
      var rest, g := open[..|open| - 1], open[|open| - 1];
      ContinuedCauses(rest, current, c);
      if Continues(g, current) {
        HasAppend(Continued(rest, current), g.(to := Latest(current, g.cause).value.to));
      } else {
        assert Continued(rest, current) + [] == Continued(rest, current);
      }
    }
  }

  lemma {:induction false} BegunHas(listed: seq<Gap>, current: seq<Gap>, c: Cause)
    ensures Has(Begun(listed, current), c) <==> Has(listed, c) || Has(current, c)
  {
    if current != [] {
      var rest, g := current[..|current| - 1], current[|current| - 1];
      assert current == rest + [g];
      BegunHas(listed, rest, c);
      HasAppend(rest, g);
      HasAppend(Begun(listed, rest), g);
    }
  }

  lemma DistinctAppend(gs: seq<Gap>, g: Gap)
    requires !Has(gs, g.cause) && Distinct(gs)
    ensures Distinct(gs + [g])
  {
  }

  lemma {:induction false} ContinuedDistinct(open: seq<Gap>, current: seq<Gap>)
    requires Distinct(open)
    ensures Distinct(Continued(open, current))
    ensures forall c :: Has(Continued(open, current), c) ==> Has(open, c)
  {
    if open != [] {
      var rest, g := open[..|open| - 1], open[|open| - 1];
      assert open == rest + [g];
      ContinuedDistinct(rest, current);
      HasAppend(rest, g);
      if Continues(g, current) {
        var h := g.(to := Latest(current, g.cause).value.to);
        assert !Has(rest, g.cause) by {
          assert forall i :: 0 <= i < |rest| ==> open[i] == rest[i] && open[i].cause != open[|open| - 1].cause;
        }
        DistinctAppend(Continued(rest, current), h);
        HasAppend(Continued(rest, current), h);
      }
    }
  }

  /** One time-ordered round adds exactly its own failures to what the ledger covers, plus bridges of at
      most a second; and no cause is ever open twice. */
  lemma RoundCoverage(l: Ledger, current: seq<Gap>, since: int, now: int, c: Cause, t: int)
    requires Uniform(current, since, now) && Precedes(l.open, since, now) && Distinct(l.open)
    ensures Covers(Round(l, current), c, t) <==>
              Covers(l, c, t) || (Has(current, c) && since <= t <= now) || Bridged(l.open, current, since, c, t)
    ensures Distinct(Round(l, current).open)
  {
    hide Continued, Ended, Begun, Bridged;
    ContinuedMeaning(l.open, current, since, now, c, t);
    BegunMeaning(Continued(l.open, current), current, since, now, c, t);
    ContinuedDistinct(l.open, current);
    ShowsConcat(l.archived, Ended(l.open, current), c, t);
  }

  lemma ShowsConcat(a: seq<Gap>, b: seq<Gap>, c: Cause, t: int)
    ensures Shows(a + b, c, t) <==> Shows(a, c, t) || Shows(b, c, t)
  {
    assert forall i :: 0 <= i < |a| ==> (a + b)[i] == a[i];
    assert forall i :: 0 <= i < |b| ==> (a + b)[|a| + i] == b[i];
    if Shows(a + b, c, t) {
      var i :| 0 <= i < |a + b| && Inside((a + b)[i], c, t);
      assert i >= |a| ==> Inside(b[i - |a|], c, t);
    }
  }

  // ---------- whole runs ----------

  /** One collection round: the interval it answers for and the gaps it found. */
  datatype Collected = Collected(since: int, now: int, gaps: seq<Gap>)

  /** Rounds whose intervals neither start nor end earlier than an earlier round's. */
  predicate InOrder(rounds: seq<Collected>) {
    (forall i :: 0 <= i < |rounds| ==> Uniform(rounds[i].gaps, rounds[i].since, rounds[i].now)) &&
    forall i, j :: 0 <= i < j < |rounds| ==> rounds[i].since <= rounds[j].since && rounds[i].now <= rounds[j].now
  }

  function After(rounds: seq<Collected>): Ledger {
    if rounds == [] then Ledger([], []) else Round(After(rounds[..|rounds| - 1]), rounds[|rounds| - 1].gaps)
  }

  predicate Fails(r: Collected, c: Cause) { Has(r.gaps, c) }

  predicate FailedAt(rounds: seq<Collected>, c: Cause, t: int) {
    exists i :: 0 <= i < |rounds| && Fails(rounds[i], c) && rounds[i].since <= t <= rounds[i].now
  }

  /** An instant between two consecutive rounds that both failed, at most a second apart. */
  predicate BetweenFailures(before: Collected, after: Collected, c: Cause, t: int) {
    Fails(before, c) && Fails(after, c) && before.now < t < after.since && after.since <= before.now + SECOND
  }

  predicate BridgedAt(rounds: seq<Collected>, c: Cause, t: int) {
    exists i :: 0 < i < |rounds| && BetweenFailures(rounds[i - 1], rounds[i], c, t)
  }

  predicate EndAt(gs: seq<Gap>, since: int, now: int) {
    forall i :: 0 <= i < |gs| ==> gs[i].from <= since && gs[i].to == now
  }

  /** After a round exactly its own failures are open, each up to the round's end. */
  ghost predicate OpenAre(open: seq<Gap>, r: Collected) {
    (forall c :: Has(open, c) <==> Fails(r, c)) && EndAt(open, r.since, r.now)
  }

  /** What archive and open gaps cover after any run is exactly the union of the failing rounds'
      intervals and the bridges between consecutive failing rounds. */
  lemma {:induction false} LedgerCoverage(rounds: seq<Collected>, c: Cause, t: int)
    requires InOrder(rounds)
    ensures Covers(After(rounds), c, t) <==> FailedAt(rounds, c, t) || BridgedAt(rounds, c, t)
    ensures Distinct(After(rounds).open)
    ensures rounds != [] ==> OpenAre(After(rounds).open, rounds[|rounds| - 1])
  {
    hide Distinct, Next, Continued, Ended, Begun, Has, Shows, Bridged, BridgedAt, FailedAt, Covers, OpenAre,
         BetweenFailures, Round, Precedes, InOrder, After, Uniform;
    if rounds == [] {
      EmptyLedger(c, t);
    } else {
      var before, r := rounds[..|rounds| - 1], rounds[|rounds| - 1];
      var l := After(before);
      LastRound(rounds);
      LedgerCoverage(before, c, t);
      if before == [] {
        EmptyLedger(c, t);
        OneRound(r, c, t);
      } else {
        OpenPrecedes(l.open, before[|before| - 1], r);
      }
      RoundCoverage(l, r.gaps, r.since, r.now, c, t);
      RoundOpens(l, r);
      FailedStep(before, r, c, t);
      assert rounds == before + [r];
      if before != [] {
        BridgedMeansBetween(l.open, before[|before| - 1], r, c, t);
        BridgedAtStep(before, r, c, t);
      }
    }
  }

  lemma LastRound(rounds: seq<Collected>)
    requires InOrder(rounds) && rounds != []
    ensures var before, r := rounds[..|rounds| - 1], rounds[|rounds| - 1];
            && rounds == before + [r] && InOrder(before) && Uniform(r.gaps, r.since, r.now)
            && After(rounds) == Round(After(before), r.gaps)
            && (before != [] ==> (var p := before[|before| - 1];
                  Uniform(p.gaps, p.since, p.now) && p.since <= r.since && p.now <= r.now))
  {
  }

  lemma OpenPrecedes(open: seq<Gap>, p: Collected, r: Collected)
    requires OpenAre(open, p) && Uniform(p.gaps, p.since, p.now) && p.since <= r.since && p.now <= r.now
    ensures Precedes(open, r.since, r.now)
  {
  }

  lemma OneRound(r: Collected, c: Cause, t: int)
    ensures !BridgedAt([r], c, t) && [] + [r] == [r] && Precedes([], r.since, r.now)
  {
  }

  lemma EmptyLedger(c: Cause, t: int)
    ensures After([]) == Ledger([], []) && !Covers(Ledger([], []), c, t) && Distinct([]) && !FailedAt([], c, t) &&
            !BridgedAt([], c, t)
    ensures forall current, since :: !Bridged([], current, since, c, t)
  {
  }

  lemma RoundOpens(l: Ledger, r: Collected)
    requires Uniform(r.gaps, r.since, r.now) && Precedes(l.open, r.since, r.now)
    ensures OpenAre(Round(l, r.gaps).open, r)
  {
    hide Continued, Begun, Has, Shows;
    forall c ensures Has(Next(l.open, r.gaps), c) <==> Fails(r, c) {
      ContinuedMeaning(l.open, r.gaps, r.since, r.now, c, 0);
      BegunMeaning(Continued(l.open, r.gaps), r.gaps, r.since, r.now, c, 0);
    }
    ContinuedEnds(l.open, r.gaps, r.since, r.now);
    BegunEnds(Continued(l.open, r.gaps), r.gaps, r.since, r.now);
  }

  lemma {:induction false} ContinuedEnds(open: seq<Gap>, current: seq<Gap>, since: int, now: int)
    requires Uniform(current, since, now) && Precedes(open, since, now)
    ensures EndAt(Continued(open, current), since, now)
  {
    if open != [] {
      ContinuedEnds(open[..|open| - 1], current, since, now);
      assert Continues(open[|open| - 1], current) ==> Latest(current, open[|open| - 1].cause).value in current;
    }
  }

  lemma {:induction false} BegunEnds(listed: seq<Gap>, current: seq<Gap>, since: int, now: int)
    requires Uniform(current, since, now) && EndAt(listed, since, now)
    ensures EndAt(Begun(listed, current), since, now)
  {
    if current != [] {
      BegunEnds(listed, current[..|current| - 1], since, now);
    }
  }

  lemma BridgedMeansBetween(open: seq<Gap>, p: Collected, r: Collected, c: Cause, t: int)
    requires OpenAre(open, p)
    ensures Bridged(open, r.gaps, r.since, c, t) <==> BetweenFailures(p, r, c, t)
  {
    assert Fails(p, c) == Has(open, c);
  }

  lemma FailedStep(before: seq<Collected>, r: Collected, c: Cause, t: int)
    ensures FailedAt(before + [r], c, t) <==> FailedAt(before, c, t) || (Fails(r, c) && r.since <= t <= r.now)
  {
    var all := before + [r];
    assert all[|before|] == r && forall i :: 0 <= i < |before| ==> all[i] == before[i];
  }

  lemma BridgedAtStep(before: seq<Collected>, r: Collected, c: Cause, t: int)
    requires before != []
    ensures BridgedAt(before + [r], c, t) <==> BridgedAt(before, c, t) || BetweenFailures(before[|before| - 1], r, c, t)
  {
    var all := before + [r];
    assert all[|before|] == r && forall i :: 0 <= i < |before| ==> all[i] == before[i];
    if BridgedAt(before, c, t) {
      var i :| 0 < i < |before| && BetweenFailures(before[i - 1], before[i], c, t);
      assert BetweenFailures(all[i - 1], all[i], c, t);
    }
    if BetweenFailures(before[|before| - 1], r, c, t) {
      assert BetweenFailures(all[|before| - 1], all[|before|], c, t);
    }
  }

  // ---------- consecutive failures are one interval ----------

  /** From round k on, every round fails with c and begins at most a second after the one before. */
  predicate Streak(rounds: seq<Collected>, k: nat, c: Cause) {
    k < |rounds| && (forall i :: k <= i < |rounds| ==> Fails(rounds[i], c)) &&
    forall i :: k < i < |rounds| ==> rounds[i].since <= rounds[i - 1].now + SECOND
  }

  ghost predicate ArchivedAlike(a: seq<Gap>, b: seq<Gap>, c: Cause) {
    forall g: Gap :: g.cause == c ==> multiset(a)[g] == multiset(b)[g]
  }

  /** A streak grows one open gap: it keeps the start it had after the streak's first round, runs to the last
      round's end, and nothing of its cause is archived meanwhile. */
  lemma {:induction false} StreakIsOneGap(rounds: seq<Collected>, k: nat, c: Cause, g: Gap)
    requires InOrder(rounds) && Streak(rounds, k, c)
    requires g in After(rounds[..k + 1]).open && g.cause == c
    ensures g.(to := rounds[|rounds| - 1].now) in After(rounds).open
    ensures ArchivedAlike(After(rounds).archived, After(rounds[..k + 1]).archived, c)
    decreases |rounds|
  {
    hide Next, Continued, Ended, Begun, Has, Shows, Distinct, ArchivedAlike, Round, Covers, FailedAt, BridgedAt,
         OpenAre;
    if |rounds| == k + 1 {
      assert rounds[..k + 1] == rounds;
      LedgerCoverage(rounds, c, 0);
      OpenEnds(After(rounds).open, rounds[k], g);
      AlikeSelf(After(rounds).archived, c);
    } else {
      var before, r := rounds[..|rounds| - 1], rounds[|rounds| - 1];
      assert before[..k + 1] == rounds[..k + 1];
      StreakIsOneGap(before, k, c, g);
      var l := After(before);
      LedgerCoverage(before, c, 0);
      assert r == rounds[|before|] && before[|before| - 1] == rounds[|before| - 1];
      StreakGrows(l, before[|before| - 1], r, c, g);
      AlikeTrans(Round(l, r.gaps).archived, l.archived, After(rounds[..k + 1]).archived, c);
    }
  }

  lemma StreakGrows(l: Ledger, p: Collected, r: Collected, c: Cause, g: Gap)
    requires OpenAre(l.open, p) && Uniform(r.gaps, r.since, r.now) && Fails(r, c) && r.since <= p.now + SECOND
    requires g.(to := p.now) in l.open && g.cause == c
    ensures g.(to := r.now) in Round(l, r.gaps).open
    ensures ArchivedAlike(Round(l, r.gaps).archived, l.archived, c)
  {
    hide Next, Continued, Ended, Begun, Has, ArchivedAlike;
    GapGrows(l.open, r, g.(to := p.now));
    EndedAlike(l, r, c);
  }

  lemma OpenEnds(open: seq<Gap>, r: Collected, g: Gap)
    requires OpenAre(open, r) && g in open
    ensures g.(to := r.now) == g
  {
  }

  lemma AlikeSelf(x: seq<Gap>, c: Cause)
    ensures ArchivedAlike(x, x, c)
  {
  }

  lemma AlikeTrans(x: seq<Gap>, y: seq<Gap>, z: seq<Gap>, c: Cause)
    requires ArchivedAlike(x, y, c) && ArchivedAlike(y, z, c)
    ensures ArchivedAlike(x, z, c)
  {
  }

  lemma GapGrows(open: seq<Gap>, r: Collected, h: Gap)
    requires Uniform(r.gaps, r.since, r.now) && Fails(r, h.cause) && h in open && r.since <= h.to + SECOND
    ensures h.(to := r.now) in Next(open, r.gaps)
  {
    var k :| 0 <= k < |open| && open[k] == h;
    ContinuedKeeps(open, r, k);
    BegunKeeps(Continued(open, r.gaps), r.gaps, h.(to := r.now));
  }

  lemma {:induction false} ContinuedKeeps(open: seq<Gap>, r: Collected, k: nat)
    requires k < |open| && Uniform(r.gaps, r.since, r.now) && Fails(r, open[k].cause) && r.since <= open[k].to + SECOND
    ensures open[k].(to := r.now) in Continued(open, r.gaps)
  {
    if k == |open| - 1 {
      assert Latest(r.gaps, open[k].cause).value in r.gaps;
    } else {
      ContinuedKeeps(open[..|open| - 1], r, k);
    }
  }

  lemma {:induction false} BegunKeeps(listed: seq<Gap>, current: seq<Gap>, g: Gap)
    requires g in listed
    ensures g in Begun(listed, current)
  {
    if current != [] {
      BegunKeeps(listed, current[..|current| - 1], g);
    }
  }

  lemma EndedAlike(l: Ledger, r: Collected, c: Cause)
    requires Uniform(r.gaps, r.since, r.now) && Fails(r, c)
    requires forall i :: 0 <= i < |l.open| && l.open[i].cause == c ==> r.since <= l.open[i].to + SECOND
    ensures ArchivedAlike(Round(l, r.gaps).archived, l.archived, c)
  {
    NoneEnded(l.open, r, c);
    var e := Ended(l.open, r.gaps);
    assert multiset(l.archived + e) == multiset(l.archived) + multiset(e);
    forall g: Gap | g.cause == c ensures multiset(e)[g] == 0 {
      assert g !in e;
    }
  }

  lemma {:induction false} NoneEnded(open: seq<Gap>, r: Collected, c: Cause)
    requires Uniform(r.gaps, r.since, r.now) && Fails(r, c)
    requires forall i :: 0 <= i < |open| && open[i].cause == c ==> r.since <= open[i].to + SECOND
    ensures forall g :: g in Ended(open, r.gaps) ==> g.cause != c
  {
    if open != [] {
      NoneEnded(open[..|open| - 1], r, c);
      assert Latest(r.gaps, c).value in r.gaps;
    }
  }

  /** A continuing gap keeps its start and takes the round's end, so nothing that either interval covers is
      lost exactly when the round neither starts before the gap nor, after a clock was set back, ends before it. */
  lemma ContinuingKeepsAll(g: Gap, since: int, now: int)
    requires g.from <= g.to && since <= now && since <= g.to + SECOND
    ensures var l := Round(Ledger([g], []), [Gap(since, now, g.cause)]);
            (forall t :: g.from <= t <= g.to || since <= t <= now ==> Covers(l, g.cause, t)) <==>
                  g.from <= since && g.to <= now
  {
    var f := Gap(since, now, g.cause);
    var l := Round(Ledger([g], []), [f]);
    ContinuingOne(g, f);
    assert l.open[0] == g.(to := now);
    assert forall t :: Covers(l, g.cause, t) <==> g.from <= t <= now;
    assert Covers(l, g.cause, since) <==> g.from <= since;
    assert Covers(l, g.cause, g.to) <==> g.to <= now;
  }

  lemma ContinuingOne(g: Gap, f: Gap)
    requires f.cause == g.cause && f.from <= g.to + SECOND
    ensures Round(Ledger([g], []), [f]) == Ledger([g.(to := f.to)], [])
  {
    assert Latest([f], g.cause) == Some(f) by {
      assert [f][|[f]| - 1] == f;
    }
    assert [g][..0] == [] && [f][..0] == [];
    var h := g.(to := f.to);
    assert Continued([g], [f]) == [h] && Ended([g], [f]) == [];
    assert [h][0].cause == f.cause;
    assert Has([h], f.cause);
    assert Begun([h], []) == [h];
    assert Next([g], [f]) == [h];
  }

  // ---------- the reading sweep ----------

  predicate Listed(g: Gap, from: int, to: int, keep: Gap -> bool) { !(g.to < from || g.from > to) && keep(g) }

  predicate ByStart(recorded: seq<Gap>) {
    forall i, j :: 0 <= i < j < |recorded| ==> recorded[i].from <= recorded[j].from
  }

  predicate Within(g: Gap, o: Gap) { g.cause == o.cause && o.from <= g.from && g.to <= o.to }

  predicate WithinOne(g: Gap, out: seq<Gap>) { exists k :: 0 <= k < |out| && Within(g, out[k]) }

  predicate MoreThanASecondApart(out: seq<Gap>) {
    forall i, j :: 0 <= i < j < |out| && out[i].cause == out[j].cause ==> out[i].to + SECOND < out[j].from
  }

  predicate Joins(a: Gap, b: Gap, c: Cause, t: int) {
    a.cause == c && b.cause == c && a.to < t < b.from && b.from <= a.to + SECOND
  }

  /** Some listed gap of the cause holds the instant, or two of them at most a second apart enclose it. */
  predicate Explained(listed: seq<Gap>, c: Cause, t: int) {
    Shows(listed, c, t) || exists a, b :: a in listed && b in listed && Joins(a, b, c, t)
  }

  ghost predicate AllExplained(out: seq<Gap>, listed: seq<Gap>) {
    forall i, t :: 0 <= i < |out| && Inside(out[i], out[i].cause, t) ==> Explained(listed, out[i].cause, t)
  }

  /** Every merged interval ends where some listed gap of its cause ends. */
  predicate EndsListed(out: seq<Gap>, listed: seq<Gap>) {
    forall i :: 0 <= i < |out| ==> EndsAt(listed, out[i].cause, out[i].to)
  }

  predicate EndsAt(listed: seq<Gap>, c: Cause, t: int) { exists g :: g in listed && g.cause == c && g.to == t }

  lemma EndsAtGrows(listed: seq<Gap>, g: Gap)
    ensures EndsAt(listed + [g], g.cause, g.to)
    ensures forall c, t :: EndsAt(listed, c, t) ==> EndsAt(listed + [g], c, t)
  {
    assert g in listed + [g] && forall h :: h in listed ==> h in listed + [g];
  }

  function ListedOf(recorded: seq<Gap>, from: int, to: int, keep: Gap -> bool): seq<Gap> {
    if recorded == [] then []
    else
      var g := recorded[|recorded| - 1];
      var rest := ListedOf(recorded[..|recorded| - 1], from, to, keep);
      if Listed(g, from, to, keep) then rest + [g] else rest
  }

  ghost predicate LastOfCause(at: map<Cause, nat>, out: seq<Gap>) {
    (forall c :: c in at ==> at[c] < |out| && out[at[c]].cause == c) &&
    forall i :: 0 <= i < |out| ==> out[i].cause in at && i <= at[out[i].cause]
  }

  /** The merging loop of coverageGaps over the gaps sorted by their start. */
  method SweepGaps(recorded: seq<Gap>, from: int, to: int, keep: Gap -> bool) returns (out: seq<Gap>)
    requires ByStart(recorded)
    ensures MoreThanASecondApart(out)
    ensures forall g :: g in ListedOf(recorded, from, to, keep) ==> WithinOne(g, out)
    ensures AllExplained(out, ListedOf(recorded, from, to, keep))
  {
    hide ListedOf, AllExplained, EndsListed, WithinOne, Explained, Shows, Within, LastOfCause, MoreThanASecondApart,
         ByStart;
    var at: map<Cause, nat> := map[];
    out := [];
    ghost var listed: seq<Gap> := [];
    SweepStarts(from, to, keep);
    for i := 0 to |recorded|
      invariant listed == ListedOf(recorded[..i], from, to, keep)
      invariant LastOfCause(at, out) && MoreThanASecondApart(out)
      invariant i < |recorded| ==> StartBy(out, recorded[i].from)
      invariant forall g :: g in listed ==> WithinOne(g, out)
      invariant AllExplained(out, listed) && EndsListed(out, listed)
    {
      var g := recorded[i];
      ListedStep(recorded, i, from, to, keep);
      StartsOn(recorded, i, out);
      if !(g.to < from || g.from > to) && keep(g) {
        ghost var was, had := out, listed;
        listed := listed + [g];
        LastIs(at, out, g.cause);
        if g.cause in at && g.from <= out[at[g.cause]].to + SECOND {
          var k := at[g.cause];
          WidenedApart(at, out, k, g);
          if g.to > out[k].to {
            out := out[k := out[k].(to := g.to)];
          }
          WidenedExplains(was, had, k, g, out);
          WidenedHolds(was, had, k, g, out);
        } else {
          AppendedApart(at, out, g);
          at := at[g.cause := |out|];
          out := out + [g];
          AppendedExplains(was, had, g);
          AppendedHolds(was, had, g);
        }
      }
    }
    assert recorded[..|recorded|] == recorded;
  }

  predicate StartBy(out: seq<Gap>, t: int) { forall j :: 0 <= j < |out| ==> out[j].from <= t }

  lemma StartsOn(recorded: seq<Gap>, i: nat, out: seq<Gap>)
    requires ByStart(recorded) && i < |recorded| && StartBy(out, recorded[i].from)
    ensures i + 1 < |recorded| ==> StartBy(out, recorded[i + 1].from) && recorded[i].from <= recorded[i + 1].from
  {
  }

  lemma LastIs(at: map<Cause, nat>, out: seq<Gap>, c: Cause)
    requires LastOfCause(at, out)
    ensures c in at ==> at[c] < |out| && out[at[c]].cause == c
  {
  }

  lemma WidenedApart(at: map<Cause, nat>, out: seq<Gap>, k: nat, g: Gap)
    requires LastOfCause(at, out) && MoreThanASecondApart(out) && g.cause in at && k == at[g.cause] && k < |out|
    ensures var r := out[k := out[k].(to := g.to)]; LastOfCause(at, r) && MoreThanASecondApart(r)
  {
  }

  lemma AppendedApart(at: map<Cause, nat>, out: seq<Gap>, g: Gap)
    requires LastOfCause(at, out) && MoreThanASecondApart(out) && StartBy(out, g.from)
    requires g.cause in at ==> at[g.cause] < |out| && out[at[g.cause]].to + SECOND < g.from
    ensures LastOfCause(at[g.cause := |out|], out + [g]) && MoreThanASecondApart(out + [g])
  {
    var r := out + [g];
    forall i | 0 <= i < |out| && out[i].cause == g.cause ensures out[i].to + SECOND < g.from {
      assert i <= at[g.cause];
    }
  }

  lemma SweepStarts(from: int, to: int, keep: Gap -> bool)
    ensures ListedOf([], from, to, keep) == [] && AllExplained([], []) && EndsListed([], [])
    ensures LastOfCause(map[], []) && MoreThanASecondApart([])
  {
  }

  lemma ListedStep(recorded: seq<Gap>, i: nat, from: int, to: int, keep: Gap -> bool)
    requires i < |recorded|
    ensures ListedOf(recorded[..i + 1], from, to, keep) ==
              ListedOf(recorded[..i], from, to, keep) +
              if Listed(recorded[i], from, to, keep) then [recorded[i]] else []
  {
    assert recorded[..i + 1][..i] == recorded[..i];
  }

  lemma ExplainedGrows(listed: seq<Gap>, g: Gap, c: Cause, t: int)
    requires Explained(listed, c, t)
    ensures Explained(listed + [g], c, t)
  {
    ShowsAppend(listed, g, c, t);
    if !Shows(listed, c, t) {
      var a, b :| a in listed && b in listed && Joins(a, b, c, t);
      assert a in listed + [g] && b in listed + [g];
    }
  }

  lemma WidenedExplains(was: seq<Gap>, listed: seq<Gap>, k: nat, g: Gap, out: seq<Gap>)
    requires k < |was| && was[k].cause == g.cause && g.from <= was[k].to + SECOND
    requires out == if g.to > was[k].to then was[k := was[k].(to := g.to)] else was
    requires AllExplained(was, listed) && EndsListed(was, listed)
    ensures AllExplained(out, listed + [g]) && EndsListed(out, listed + [g])
  {
    hide Explained, EndsAt;
    forall i, t | 0 <= i < |out| && Inside(out[i], out[i].cause, t) ensures Explained(listed + [g], out[i].cause, t) {
      if Inside(was[i], was[i].cause, t) {
        ExplainedGrows(listed, g, was[i].cause, t);
      } else {
        NewInstant(was[k], listed, g, t);
      }
    }
    EndsAtGrows(listed, g);
    forall i | 0 <= i < |out| ensures EndsAt(listed + [g], out[i].cause, out[i].to) {
      assert EndsAt(listed, was[i].cause, was[i].to);
    }
  }

  lemma NewInstant(o: Gap, listed: seq<Gap>, g: Gap, t: int)
    requires o.cause == g.cause && o.to < t <= g.to && g.from <= o.to + SECOND
    requires EndsAt(listed, o.cause, o.to)
    ensures Explained(listed + [g], g.cause, t)
  {
    ShowsAppend(listed, g, g.cause, t);
    if t < g.from {
      var h :| h in listed && h.cause == o.cause && h.to == o.to;
      assert h in listed + [g] && g in listed + [g] && Joins(h, g, g.cause, t);
    }
  }

  lemma WidenedHolds(was: seq<Gap>, listed: seq<Gap>, k: nat, g: Gap, out: seq<Gap>)
    requires k < |was| && was[k].cause == g.cause && was[k].from <= g.from
    requires out == if g.to > was[k].to then was[k := was[k].(to := g.to)] else was
    requires forall h :: h in listed ==> WithinOne(h, was)
    ensures forall h :: h in listed + [g] ==> WithinOne(h, out)
  {
    forall h | h in listed + [g] ensures WithinOne(h, out) {
      if h in listed {
        var j :| 0 <= j < |was| && Within(h, was[j]);
        assert Within(h, out[j]);
      } else {
        assert Within(g, out[k]);
      }
    }
  }

  lemma AppendedExplains(was: seq<Gap>, listed: seq<Gap>, g: Gap)
    requires AllExplained(was, listed) && EndsListed(was, listed)
    ensures AllExplained(was + [g], listed + [g]) && EndsListed(was + [g], listed + [g])
  {
    hide Explained, EndsAt;
    var out := was + [g];
    forall i, t | 0 <= i < |out| && Inside(out[i], out[i].cause, t) ensures Explained(listed + [g], out[i].cause, t) {
      if i < |was| {
        ExplainedGrows(listed, g, was[i].cause, t);
      } else {
        OwnInstant(listed, g, t);
      }
    }
    EndsAtGrows(listed, g);
    forall i | 0 <= i < |out| ensures EndsAt(listed + [g], out[i].cause, out[i].to) {
      assert i < |was| ==> EndsAt(listed, was[i].cause, was[i].to);
    }
  }

  lemma OwnInstant(listed: seq<Gap>, g: Gap, t: int)
    requires Inside(g, g.cause, t)
    ensures Explained(listed + [g], g.cause, t)
  {
    ShowsAppend(listed, g, g.cause, t);
  }

  lemma AppendedHolds(was: seq<Gap>, listed: seq<Gap>, g: Gap)
    requires forall h :: h in listed ==> WithinOne(h, was)
    ensures forall h :: h in listed + [g] ==> WithinOne(h, was + [g])
  {
    var out := was + [g];
    forall h | h in listed + [g] ensures WithinOne(h, out) {
      if h in listed {
        var j :| 0 <= j < |was| && Within(h, was[j]);
        assert Within(h, out[j]);
      } else {
        assert Within(g, out[|was|]);
      }
    }
  }

  /** Any merge with the sweep's properties shows, of proper intervals, exactly the listed instants and the
      joints of at most a second. */
  lemma SweepUnion(listed: seq<Gap>, out: seq<Gap>, c: Cause, t: int)
    requires forall g :: g in listed ==> g.from <= g.to
    requires MoreThanASecondApart(out) && AllExplained(out, listed)
    requires forall g :: g in listed ==> WithinOne(g, out)
    ensures Shows(out, c, t) <==> Explained(listed, c, t)
  {
    if Shows(out, c, t) {
      var i :| 0 <= i < |out| && Inside(out[i], c, t);
      assert Inside(out[i], out[i].cause, t);
    }
    if Shows(listed, c, t) {
      var i :| 0 <= i < |listed| && Inside(listed[i], c, t);
      assert listed[i] in listed;
      var k :| 0 <= k < |out| && Within(listed[i], out[k]);
      assert Inside(out[k], c, t);
    } else if Explained(listed, c, t) {
      var a, b :| a in listed && b in listed && Joins(a, b, c, t);
      var i :| 0 <= i < |out| && Within(a, out[i]);
      var j :| 0 <= j < |out| && Within(b, out[j]);
      assert i == j;
      assert Inside(out[i], c, t);
    }
  }

  // ---------- gaps a later drain has covered ----------

  const NO_JOB := "remote_log_collection_unavailable"

  /** What is left of one gap once its node was drained up to an instant. */
  function LeftOf(g: Gap, drained: map<string, int>): seq<Gap> {
    if g.cause.node in drained && g.cause.reason == NO_JOB then
      var at := drained[g.cause.node];
      if g.to <= at then [] else [if g.from < at then g.(from := at) else g]
    else [g]
  }

  function WithoutDrained(gs: seq<Gap>, drained: map<string, int>): seq<Gap> {
    if gs == [] then [] else WithoutDrained(gs[..|gs| - 1], drained) + LeftOf(gs[|gs| - 1], drained)
  }

  method DropDrained(gs: seq<Gap>, drained: map<string, int>) returns (out: seq<Gap>)
    ensures out == WithoutDrained(gs, drained)
  {
    out := [];
    for i := 0 to |gs|
      invariant out == WithoutDrained(gs[..i], drained)
    {
      assert gs[..i + 1][..i] == gs[..i];
      var g := gs[i];
      if g.cause.node in drained && g.cause.reason == NO_JOB {
        var at := drained[g.cause.node];
        if g.to <= at {
          continue;
        }
        if g.from < at {
          g := g.(from := at);
        }
      }
      out := out + [g];
    }
    assert gs[..|gs|] == gs;
  }

  /** Nothing but "no collection job" instants before a node's drain disappears, and all of those do. */
  lemma {:induction false} DrainedMeaning(gs: seq<Gap>, drained: map<string, int>, c: Cause, t: int)
    requires c.node in drained ==> t != drained[c.node]
    ensures Shows(WithoutDrained(gs, drained), c, t) <==>
              Shows(gs, c, t) && !(c.reason == NO_JOB && c.node in drained && t < drained[c.node])
  {
    hide Shows;
    if gs == [] {
      NothingShown(c, t);
    } else {
      var rest, g := gs[..|gs| - 1], gs[|gs| - 1];
      assert gs == rest + [g];
      DrainedMeaning(rest, drained, c, t);
      ShowsAppend(rest, g, c, t);
      var before, left := WithoutDrained(rest, drained), LeftOf(g, drained);
      if left == [] {
        assert before + left == before;
      } else {
        ShowsAppend(before, left[0], c, t);
        assert left == [left[0]];
      }
    }
  }

  lemma NothingShown(c: Cause, t: int)
    ensures !Shows([], c, t)
  {
  }
}
