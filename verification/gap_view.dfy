/** What a reader is shown of the gap ledger after any run of collection rounds, failed writes included. */
module GapView {
  import opened Common
  import opened GapLedger

  // ---------- rounds whose writes fail ----------

  /** How a round ended: saved; its ended gaps could not be appended, and the cursor was kept; or they were
      appended but the cursor could not be written. */
  datatype Ending = Saved | GapsNotAppended | CursorNotWritten

  datatype Attempt = Attempt(round: Collected, ending: Ending)

  function Tried(attempts: seq<Attempt>): Ledger {
    if attempts == [] then Ledger([], [])
    else
      var l, a := Tried(attempts[..|attempts| - 1]), attempts[|attempts| - 1];
      match a.ending
      case Saved => Round(l, a.round.gaps)
      case GapsNotAppended => l
      case CursorNotWritten => Ledger(l.open, l.archived + Ended(l.open, a.round.gaps))
  }

  function SavedRounds(attempts: seq<Attempt>): seq<Collected> {
    if attempts == [] then []
    else
      var a := attempts[|attempts| - 1];
      SavedRounds(attempts[..|attempts| - 1]) + if a.ending.Saved? then [a.round] else []
  }

  lemma {:induction false} EndedAreOpen(open: seq<Gap>, current: seq<Gap>)
    ensures forall g :: g in Ended(open, current) ==> g in open
  {
    if open != [] {
      EndedAreOpen(open[..|open| - 1], current);
    }
  }

  lemma EndedShows(open: seq<Gap>, current: seq<Gap>, c: Cause, t: int)
    ensures Shows(Ended(open, current), c, t) ==> Shows(open, c, t)
  {
    EndedAreOpen(open, current);
    var ended := Ended(open, current);
    if Shows(ended, c, t) {
      var i :| 0 <= i < |ended| && Inside(ended[i], c, t);
      assert ended[i] in ended;
      assert ended[i] in open;
      var k :| 0 <= k < |open| && open[k] == ended[i];
    }
  }

  /** A round whose write fails leaves the ledger's coverage as it was, and the next one goes on from there:
      whatever fails, the ledger covers exactly what the saved rounds alone would have left. */
  lemma {:induction false} TriedCoverage(attempts: seq<Attempt>, c: Cause, t: int)
    requires InOrder(SavedRounds(attempts))
    ensures Tried(attempts).open == After(SavedRounds(attempts)).open
    ensures Covers(Tried(attempts), c, t) <==>
              FailedAt(SavedRounds(attempts), c, t) || BridgedAt(SavedRounds(attempts), c, t)
  {
    hide Next, Ended, Shows, FailedAt, BridgedAt, InOrder, Uniform, Distinct, After, Has, Precedes, Bridged;
    var rounds := SavedRounds(attempts);
    if attempts == [] {
      LedgerCoverage([], c, t);
      EmptyLedger(c, t);
    } else {
      var before, a := attempts[..|attempts| - 1], attempts[|attempts| - 1];
      var l := Tried(before);
      assert rounds == SavedRounds(before) + if a.ending.Saved? then [a.round] else [];
      if a.ending.Saved? {
        assert rounds[..|rounds| - 1] == SavedRounds(before) && rounds[|rounds| - 1] == a.round;
        LastRound(rounds);
        TriedCoverage(before, c, t);
        RoundBegins(SavedRounds(before), a.round);
        LedgerCoverage(SavedRounds(before), c, t);
        RoundCoverage(l, a.round.gaps, a.round.since, a.round.now, c, t);
        RoundCoverage(After(SavedRounds(before)), a.round.gaps, a.round.since, a.round.now, c, t);
        LedgerCoverage(rounds, c, t);
      } else {
        assert rounds == SavedRounds(before);
        TriedCoverage(before, c, t);
        EndedShows(l.open, a.round.gaps, c, t);
        ShowsConcat(l.archived, Ended(l.open, a.round.gaps), c, t);
      }
    }
  }

  lemma RoundBegins(before: seq<Collected>, r: Collected)
    requires InOrder(before + [r])
    ensures InOrder(before) && Precedes(After(before).open, r.since, r.now) && Distinct(After(before).open)
  {
    hide After, Distinct, Has, Shows, FailedAt, BridgedAt, Uniform;
    var rounds := before + [r];
    assert rounds[..|rounds| - 1] == before && rounds[|rounds| - 1] == r;
    LastRound(rounds);
    LedgerCoverage(before, Cause("", "", ""), 0);
    if before == [] {
      EmptyLedger(Cause("", "", ""), 0);
      NoRounds();
    } else {
      OpenPrecedes(After(before).open, before[|before| - 1], r);
    }
  }

  lemma NoRounds()
    ensures After([]) == Ledger([], [])
  {
  }

  // ---------- the ledger's gaps are made of rounds ----------

  predicate StartsRound(rounds: seq<Collected>, c: Cause, t: int) {
    exists i :: 0 <= i < |rounds| && Fails(rounds[i], c) && rounds[i].since == t
  }

  predicate EndsRound(rounds: seq<Collected>, c: Cause, t: int) {
    exists i :: 0 <= i < |rounds| && Fails(rounds[i], c) && rounds[i].now == t
  }

  predicate OfRounds(rounds: seq<Collected>, g: Gap) {
    g.from <= g.to && StartsRound(rounds, g.cause, g.from) && EndsRound(rounds, g.cause, g.to)
  }

  predicate AllOfRounds(rounds: seq<Collected>, gs: seq<Gap>) { forall i :: 0 <= i < |gs| ==> OfRounds(rounds, gs[i]) }

  predicate InLedger(l: Ledger, g: Gap) { g in l.open || g in l.archived }

  /** Some gap of the ledger holds the whole interval. */
  ghost predicate Holds(l: Ledger, c: Cause, from: int, to: int) {
    exists g :: InLedger(l, g) && g.cause == c && g.from <= from && to <= g.to
  }

  lemma OfRoundsGrow(rounds: seq<Collected>, r: Collected, g: Gap)
    requires OfRounds(rounds, g)
    ensures OfRounds(rounds + [r], g)
  {
    var more := rounds + [r];
    var i :| 0 <= i < |rounds| && Fails(rounds[i], g.cause) && rounds[i].since == g.from;
    var j :| 0 <= j < |rounds| && Fails(rounds[j], g.cause) && rounds[j].now == g.to;
    assert more[i] == rounds[i] && more[j] == rounds[j];
  }

  lemma AllOfRoundsGrow(rounds: seq<Collected>, r: Collected, gs: seq<Gap>)
    requires AllOfRounds(rounds, gs)
    ensures AllOfRounds(rounds + [r], gs)
  {
    hide OfRounds;
    forall i | 0 <= i < |gs| ensures OfRounds(rounds + [r], gs[i]) {
      OfRoundsGrow(rounds, r, gs[i]);
    }
  }

  lemma AllOfRoundsIn(rounds: seq<Collected>, gs: seq<Gap>, some: seq<Gap>)
    requires AllOfRounds(rounds, gs) && forall g :: g in some ==> g in gs
    ensures AllOfRounds(rounds, some)
  {
    hide OfRounds;
    forall i | 0 <= i < |some| ensures OfRounds(rounds, some[i]) {
      assert some[i] in gs;
    }
  }

  lemma {:induction false} ContinuedOfRounds(rounds: seq<Collected>, r: Collected, open: seq<Gap>)
    requires AllOfRounds(rounds, open) && Uniform(r.gaps, r.since, r.now) && Precedes(open, r.since, r.now)
    ensures AllOfRounds(rounds + [r], Continued(open, r.gaps))
  {
    hide StartsRound, EndsRound;
    if open != [] {
      var rest, g := open[..|open| - 1], open[|open| - 1];
      ContinuedOfRounds(rounds, r, rest);
      if Continues(g, r.gaps) {
        OfRoundsGrow(rounds, r, g);
        RoundEnds(rounds, r, g.cause);
        assert Latest(r.gaps, g.cause).value in r.gaps;
      }
    }
  }

  lemma RoundEnds(rounds: seq<Collected>, r: Collected, c: Cause)
    requires Fails(r, c)
    ensures StartsRound(rounds + [r], c, r.since) && EndsRound(rounds + [r], c, r.now)
  {
    assert (rounds + [r])[|rounds|] == r;
  }

  lemma {:induction false} BegunOfRounds(rounds: seq<Collected>, r: Collected, listed: seq<Gap>, current: seq<Gap>)
    requires AllOfRounds(rounds + [r], listed) && Uniform(current, r.since, r.now)
    requires forall g :: g in current ==> Fails(r, g.cause)
    ensures AllOfRounds(rounds + [r], Begun(listed, current))
  {
    hide StartsRound, EndsRound, Has;
    if current != [] {
      var rest, g := current[..|current| - 1], current[|current| - 1];
      BegunOfRounds(rounds, r, listed, rest);
      RoundEnds(rounds, r, g.cause);
    }
  }

  lemma NextOfRounds(rounds: seq<Collected>, r: Collected, open: seq<Gap>)
    requires AllOfRounds(rounds, open) && Uniform(r.gaps, r.since, r.now) && Precedes(open, r.since, r.now)
    ensures AllOfRounds(rounds + [r], Next(open, r.gaps))
  {
    hide AllOfRounds, Continued, Begun;
    ContinuedOfRounds(rounds, r, open);
    GapsFail(r);
    BegunOfRounds(rounds, r, Continued(open, r.gaps), r.gaps);
  }

  lemma GapsFail(r: Collected)
    ensures forall g :: g in r.gaps ==> Fails(r, g.cause)
  {
  }

  // ---------- every failing round lies within one gap ----------

  lemma {:induction false} ContinuedOrEnded(open: seq<Gap>, current: seq<Gap>, since: int, now: int, g: Gap)
    requires g in open && Uniform(current, since, now) && Precedes(open, since, now)
    ensures g in Ended(open, current) ||
            exists h :: h in Continued(open, current) && h.cause == g.cause && h.from == g.from && g.to <= h.to
  {
    var rest, last := open[..|open| - 1], open[|open| - 1];
    if g in rest {
      ContinuedOrEnded(rest, current, since, now, g);
      if g !in Ended(rest, current) {
        var h :| h in Continued(rest, current) && h.cause == g.cause && h.from == g.from && g.to <= h.to;
        assert h in Continued(open, current);
      }
    } else {
      assert last == g;
      if Continues(g, current) {
        assert Latest(current, g.cause).value in current;
        assert g.(to := now) in Continued(open, current);
      }
    }
  }

  lemma {:induction false} BegunHolds(listed: seq<Gap>, current: seq<Gap>, since: int, now: int, c: Cause)
    requires Uniform(current, since, now) && Has(current, c) && !Has(listed, c)
    ensures exists h :: h in Begun(listed, current) && h.cause == c && h.from == since && h.to == now
  {
    var rest, g := current[..|current| - 1], current[|current| - 1];
    var before := Begun(listed, rest);
    assert current == rest + [g];
    HasAppend(rest, g);
    if Has(rest, c) {
      BegunHolds(listed, rest, since, now, c);
      var h :| h in before && h.cause == c && h.from == since && h.to == now;
      assert h in Begun(listed, current);
    } else {
      BegunHas(listed, rest, c);
      assert g in Begun(listed, current);
    }
  }

  lemma {:induction false} ContinuedHolds(open: seq<Gap>, current: seq<Gap>, since: int, now: int, c: Cause)
    requires Uniform(current, since, now) && Precedes(open, since, now) && Has(Continued(open, current), c)
    ensures exists h :: h in Continued(open, current) && h.cause == c && h.from <= since && h.to == now
  {
    var i :| 0 <= i < |Continued(open, current)| && Continued(open, current)[i].cause == c;
    ContinuedEnds(open, current, since, now);
    assert Continued(open, current)[i] in Continued(open, current);
  }

  lemma RoundHolds(l: Ledger, r: Collected, c: Cause)
    requires Uniform(r.gaps, r.since, r.now) && Precedes(l.open, r.since, r.now) && Fails(r, c)
    ensures Holds(Round(l, r.gaps), c, r.since, r.now)
  {
    hide Continued, Ended, Begun, Precedes, Uniform, Has;
    var kept := Continued(l.open, r.gaps);
    if Has(kept, c) {
      ContinuedHolds(l.open, r.gaps, r.since, r.now, c);
      var h :| h in kept && h.cause == c && h.from <= r.since && h.to == r.now;
      BegunKeeps(kept, r.gaps, h);
      assert InLedger(Round(l, r.gaps), h);
    } else {
      BegunHolds(kept, r.gaps, r.since, r.now, c);
      var h :| h in Next(l.open, r.gaps) && h.cause == c && h.from == r.since && h.to == r.now;
      assert InLedger(Round(l, r.gaps), h);
    }
  }

  lemma RoundKeepsHeld(l: Ledger, r: Collected, c: Cause, from: int, to: int)
    requires Uniform(r.gaps, r.since, r.now) && Precedes(l.open, r.since, r.now) && Holds(l, c, from, to)
    ensures Holds(Round(l, r.gaps), c, from, to)
  {
    hide Continued, Ended, Begun, Precedes, Uniform;
    var m := Round(l, r.gaps);
    var g :| InLedger(l, g) && g.cause == c && g.from <= from && to <= g.to;
    if g in l.archived {
      assert InLedger(m, g);
    } else {
      ContinuedOrEnded(l.open, r.gaps, r.since, r.now, g);
      if g in Ended(l.open, r.gaps) {
        assert InLedger(m, g);
      } else {
        var h :| h in Continued(l.open, r.gaps) && h.cause == g.cause && h.from == g.from && g.to <= h.to;
        BegunKeeps(Continued(l.open, r.gaps), r.gaps, h);
        assert InLedger(m, h);
      }
    }
  }

  lemma LastAttempt(attempts: seq<Attempt>)
    requires attempts != []
    ensures var before, a := attempts[..|attempts| - 1], attempts[|attempts| - 1];
            var rounds, old_, l := SavedRounds(attempts), SavedRounds(before), Tried(before);
            && (a.ending.Saved? ==>
                  rounds == old_ + [a.round] && rounds[..|rounds| - 1] == old_ &&
                      Tried(attempts) == Round(l, a.round.gaps))
            && (!a.ending.Saved? ==> rounds == old_ && Tried(attempts).open == l.open)
            && (a.ending.GapsNotAppended? ==> Tried(attempts) == l)
            && (a.ending.CursorNotWritten? ==>
               Tried(attempts) == Ledger(l.open, l.archived + Ended(l.open, a.round.gaps)))
  {
    hide Round, Ended;
  }

  /** Over any run, the ledger's gaps start and end with failing rounds, and every failing round lies within one. */
  lemma {:induction false} LedgerOfRounds(attempts: seq<Attempt>, i: nat, c: Cause)
    requires InOrder(SavedRounds(attempts))
    ensures AllOfRounds(SavedRounds(attempts), Tried(attempts).open) &&
            AllOfRounds(SavedRounds(attempts), Tried(attempts).archived)
    ensures i < |SavedRounds(attempts)| && Fails(SavedRounds(attempts)[i], c) ==>
              Holds(Tried(attempts), c, SavedRounds(attempts)[i].since, SavedRounds(attempts)[i].now)
  {
    hide Next, Ended, InOrder, Uniform, After, Has, Precedes, OfRounds, Round, AllOfRounds, Holds, InLedger,
         SavedRounds, Tried;
    if attempts == [] {
      NoGaps();
    } else {
      var before, a := attempts[..|attempts| - 1], attempts[|attempts| - 1];
      var l := Tried(before);
      var rounds, old_ := SavedRounds(attempts), SavedRounds(before);
      LastAttempt(attempts);
      if a.ending.Saved? {
        LastRound(rounds);
        LedgerOfRounds(before, i, c);
        RoundBegins(old_, a.round);
        TriedCoverage(before, c, 0);
        SavedStep(l, old_, a.round);
        if i < |old_| && Fails(old_[i], c) {
          RoundKeepsHeld(l, a.round, c, old_[i].since, old_[i].now);
        } else if i == |old_| && Fails(a.round, c) {
          RoundHolds(l, a.round, c);
        }
      } else {
        LedgerOfRounds(before, i, c);
        EndedAreOpen(l.open, a.round.gaps);
        AllOfRoundsIn(rounds, l.open, Ended(l.open, a.round.gaps));
        AllOfRoundsConcat(rounds, l.archived, Ended(l.open, a.round.gaps));
        if i < |rounds| && Fails(rounds[i], c) {
          MoreArchived(l, Ended(l.open, a.round.gaps), c, rounds[i].since, rounds[i].now);
        }
      }
    }
  }

  lemma NoGaps()
    ensures SavedRounds([]) == [] && Tried([]) == Ledger([], []) && forall rounds :: AllOfRounds(rounds, [])
  {
  }

  lemma AllOfRoundsConcat(rounds: seq<Collected>, a: seq<Gap>, b: seq<Gap>)
    requires AllOfRounds(rounds, a) && AllOfRounds(rounds, b)
    ensures AllOfRounds(rounds, a + b)
  {
    hide OfRounds;
  }

  lemma MoreArchived(l: Ledger, more: seq<Gap>, c: Cause, from: int, to: int)
    requires Holds(l, c, from, to)
    ensures Holds(Ledger(l.open, l.archived + more), c, from, to)
  {
    var g :| InLedger(l, g) && g.cause == c && g.from <= from && to <= g.to;
    assert InLedger(Ledger(l.open, l.archived + more), g);
  }

  lemma SavedStep(l: Ledger, rounds: seq<Collected>, r: Collected)
    requires AllOfRounds(rounds, l.open) && AllOfRounds(rounds, l.archived)
    requires Uniform(r.gaps, r.since, r.now) && Precedes(l.open, r.since, r.now)
    ensures AllOfRounds(rounds + [r], Round(l, r.gaps).open) && AllOfRounds(rounds + [r], Round(l, r.gaps).archived)
  {
    hide Next, Ended, Uniform, Precedes, AllOfRounds;
    NextOfRounds(rounds, r, l.open);
    EndedAreOpen(l.open, r.gaps);
    AllOfRoundsIn(rounds, l.open, Ended(l.open, r.gaps));
    AllOfRoundsConcat(rounds, l.archived, Ended(l.open, r.gaps));
    AllOfRoundsGrow(rounds, r, l.archived + Ended(l.open, r.gaps));
  }

  // ---------- sorting and sweeping ----------

  /** Stable insertion by start, as the library's stable sort orders them. */
  function Insert(sorted: seq<Gap>, g: Gap): seq<Gap> {
    if sorted == [] || sorted[|sorted| - 1].from <= g.from then sorted + [g]
    else Insert(sorted[..|sorted| - 1], g) + [sorted[|sorted| - 1]]
  }

  function SortByStart(gs: seq<Gap>): seq<Gap> {
    if gs == [] then [] else Insert(SortByStart(gs[..|gs| - 1]), gs[|gs| - 1])
  }

  lemma {:induction false} InsertMeaning(sorted: seq<Gap>, g: Gap)
    requires ByStart(sorted)
    ensures ByStart(Insert(sorted, g)) && forall x :: x in Insert(sorted, g) <==> x in sorted || x == g
  {
    if sorted != [] && sorted[|sorted| - 1].from > g.from {
      var rest, last := sorted[..|sorted| - 1], sorted[|sorted| - 1];
      InsertMeaning(rest, g);
      assert sorted == rest + [last];
      var r := Insert(rest, g);
      forall i | 0 <= i < |r| ensures r[i].from <= last.from {
        assert r[i] in r;
        if r[i] != g {
          assert r[i] in rest;
        }
      }
    }
  }

  lemma {:induction false} SortMeaning(gs: seq<Gap>)
    ensures ByStart(SortByStart(gs)) && forall x :: x in SortByStart(gs) <==> x in gs
  {
    if gs != [] {
      var rest, last := gs[..|gs| - 1], gs[|gs| - 1];
      SortMeaning(rest);
      InsertMeaning(SortByStart(rest), last);
      assert gs == rest + [last];
    }
  }

  predicate Proper(gs: seq<Gap>) { forall g :: g in gs ==> g.from <= g.to }

  /** Of the gaps that touch the window and are wanted, one holds the instant, or two at most a second apart
      enclose it. */
  predicate Shown(recorded: seq<Gap>, from: int, to: int, keep: Gap -> bool, c: Cause, t: int) {
    || (exists g :: g in recorded && Listed(g, from, to, keep) && Inside(g, c, t))
    || (exists a, b :: a in recorded && b in recorded &&
          Listed(a, from, to, keep) && Listed(b, from, to, keep) && Joins(a, b, c, t))
  }

  lemma {:induction false} ListedMeaning(recorded: seq<Gap>, from: int, to: int, keep: Gap -> bool)
    ensures forall g :: g in ListedOf(recorded, from, to, keep) <==> g in recorded && Listed(g, from, to, keep)
  {
    hide Listed;
    if recorded != [] {
      var rest, last := recorded[..|recorded| - 1], recorded[|recorded| - 1];
      ListedMeaning(rest, from, to, keep);
      assert recorded == rest + [last];
    }
  }

  lemma ExplainedIsShown(recorded: seq<Gap>, sorted: seq<Gap>, from: int, to: int, keep: Gap -> bool, c: Cause, t: int)
    requires forall g :: g in sorted <==> g in recorded
    ensures Explained(ListedOf(sorted, from, to, keep), c, t) <==> Shown(recorded, from, to, keep, c, t)
  {
    hide Listed, ListedOf, Joins, Inside;
    ListedMeaning(sorted, from, to, keep);
    var listed := ListedOf(sorted, from, to, keep);
    if Shows(listed, c, t) {
      var i :| 0 <= i < |listed| && Inside(listed[i], c, t);
      assert listed[i] in listed;
    }
    if exists g :: g in recorded && Listed(g, from, to, keep) && Inside(g, c, t) {
      var g :| g in recorded && Listed(g, from, to, keep) && Inside(g, c, t);
      var i :| 0 <= i < |listed| && listed[i] == g;
    }
  }

  /** The sorting and merging of coverageGaps: for proper gaps, in any order, the result shows exactly the wanted
      instants and the joints of at most a second, as intervals of a cause more than a second apart. */
  method CoverageGaps(recorded: seq<Gap>, from: int, to: int, keep: Gap -> bool) returns (out: seq<Gap>)
    ensures MoreThanASecondApart(out)
    ensures Proper(recorded) ==> forall c, t :: Shows(out, c, t) <==> Shown(recorded, from, to, keep, c, t)
  {
    hide Shown, Shows, ListedOf, Explained, SortByStart, MoreThanASecondApart, AllExplained, WithinOne;
    var sorted := SortByStart(recorded);
    SortMeaning(recorded);
    out := SweepGaps(sorted, from, to, keep);
    if Proper(recorded) {
      ListedMeaning(sorted, from, to, keep);
      forall c, t ensures Shows(out, c, t) <==> Shown(recorded, from, to, keep, c, t) {
        SweepUnion(ListedOf(sorted, from, to, keep), out, c, t);
        ExplainedIsShown(recorded, sorted, from, to, keep, c, t);
      }
    }
  }

  // ---------- from rounds to what is shown ----------

  predicate NearPair(a: Collected, b: Collected, c: Cause, t: int, from: int, to: int) {
    && Fails(a, c) && Fails(b, c) && a.now < t < b.since && b.since <= a.now + SECOND && from <= a.now && b.since <= to
  }

  /** An instant between two failing rounds at most a second apart, whatever rounds lie in between. */
  predicate NearFailures(rounds: seq<Collected>, c: Cause, t: int, from: int, to: int) {
    exists i, j :: 0 <= i < |rounds| && 0 <= j < |rounds| && NearPair(rounds[i], rounds[j], c, t, from, to)
  }

  function Recorded(l: Ledger): seq<Gap> { l.archived + l.open }

  lemma RecordedIn(l: Ledger, g: Gap)
    ensures g in Recorded(l) <==> InLedger(l, g)
  {
  }

  lemma RecordedOfRounds(rounds: seq<Collected>, l: Ledger, g: Gap)
    requires AllOfRounds(rounds, l.open) && AllOfRounds(rounds, l.archived) && InLedger(l, g)
    ensures OfRounds(rounds, g)
  {
  }

  lemma CoversIn(l: Ledger, c: Cause, t: int)
    ensures Covers(l, c, t) <==> exists g :: InLedger(l, g) && Inside(g, c, t)
  {
    if Shows(l.open, c, t) {
      var i :| 0 <= i < |l.open| && Inside(l.open[i], c, t);
      assert InLedger(l, l.open[i]);
    }
    if Shows(l.archived, c, t) {
      var i :| 0 <= i < |l.archived| && Inside(l.archived[i], c, t);
      assert InLedger(l, l.archived[i]);
    }
    if exists g :: InLedger(l, g) && Inside(g, c, t) {
      var g :| InLedger(l, g) && Inside(g, c, t);
      if g in l.open {
        var i :| 0 <= i < |l.open| && l.open[i] == g;
      } else {
        var i :| 0 <= i < |l.archived| && l.archived[i] == g;
      }
    }
  }

  lemma JointIsNear(rounds: seq<Collected>, a: Gap, b: Gap, from: int, to: int, c: Cause, t: int)
    requires OfRounds(rounds, a) && OfRounds(rounds, b) && Joins(a, b, c, t) && from <= a.to && b.from <= to
    ensures NearFailures(rounds, c, t, from, to)
  {
    var i :| 0 <= i < |rounds| && Fails(rounds[i], a.cause) && rounds[i].now == a.to;
    var j :| 0 <= j < |rounds| && Fails(rounds[j], b.cause) && rounds[j].since == b.from;
    assert NearPair(rounds[i], rounds[j], c, t, from, to);
  }

  /** Of two gaps around a near pair, one holds the instant or both touch the window and join there. */
  lemma NearIsJoint(l: Ledger, x: Collected, y: Collected, from: int, to: int, keep: Gap -> bool, c: Cause, t: int)
    requires Holds(l, c, x.since, x.now) && Holds(l, c, y.since, y.now) && NearPair(x, y, c, t, from, to)
    requires x.since <= x.now && y.since <= y.now && from <= t <= to && forall g: Gap :: g.cause == c ==> keep(g)
    ensures Shown(Recorded(l), from, to, keep, c, t)
  {
    var a :| InLedger(l, a) && a.cause == c && a.from <= x.since && x.now <= a.to;
    var b :| InLedger(l, b) && b.cause == c && b.from <= y.since && y.now <= b.to;
    RecordedIn(l, a);
    RecordedIn(l, b);
    assert Listed(a, from, to, keep) && Listed(b, from, to, keep);
    if t <= a.to {
      assert Inside(a, c, t);
    } else if b.from <= t {
      assert Inside(b, c, t);
    } else {
      assert Joins(a, b, c, t);
    }
  }

  /** End to end: after any run of rounds, whatever writes failed, a reader of a window that wants a cause is shown,
      within the window, exactly the instants of the saved failing rounds, the bridges between consecutive ones,
      and the joints between any two at most a second apart. */
  lemma ShownAreFailures(attempts: seq<Attempt>, from: int, to: int, keep: Gap -> bool, c: Cause, t: int)
    requires InOrder(SavedRounds(attempts)) && from <= t <= to && forall g: Gap :: g.cause == c ==> keep(g)
    ensures var rounds := SavedRounds(attempts);
            Shown(Recorded(Tried(attempts)), from, to, keep, c, t) <==>
              FailedAt(rounds, c, t) || BridgedAt(rounds, c, t) || NearFailures(rounds, c, t, from, to)
  {
    hide FailedAt, BridgedAt, Holds, AllOfRounds, OfRounds, Covers, Tried, SavedRounds, NearPair, Fails, Recorded,
         Joins;
    var rounds, l := SavedRounds(attempts), Tried(attempts);
    TriedCoverage(attempts, c, t);
    CoversIn(l, c, t);
    LedgerOfRounds(attempts, 0, c);
    if Covers(l, c, t) {
      var g :| InLedger(l, g) && Inside(g, c, t);
      RecordedIn(l, g);
    } else if Shown(Recorded(l), from, to, keep, c, t) {
      ShownIsNear(rounds, l, from, to, keep, c, t);
    }
    if NearFailures(rounds, c, t, from, to) {
      var i, j :| 0 <= i < |rounds| && 0 <= j < |rounds| && NearPair(rounds[i], rounds[j], c, t, from, to);
      PairFails(rounds[i], rounds[j], c, t, from, to);
      LedgerOfRounds(attempts, i, c);
      LedgerOfRounds(attempts, j, c);
      NearIsJoint(l, rounds[i], rounds[j], from, to, keep, c, t);
    }
  }

  lemma PairFails(x: Collected, y: Collected, c: Cause, t: int, from: int, to: int)
    requires NearPair(x, y, c, t, from, to)
    ensures Fails(x, c) && Fails(y, c)
  {
  }

  lemma ShownIsNear(rounds: seq<Collected>, l: Ledger, from: int, to: int, keep: Gap -> bool, c: Cause, t: int)
    requires AllOfRounds(rounds, l.open) && AllOfRounds(rounds, l.archived)
    requires Shown(Recorded(l), from, to, keep, c, t) && !Covers(l, c, t)
    ensures NearFailures(rounds, c, t, from, to)
  {
    hide AllOfRounds, OfRounds, Covers, Recorded, Joins, NearFailures;
    CoversIn(l, c, t);
    assert forall g :: g in Recorded(l) ==> InLedger(l, g) by {
      forall g | g in Recorded(l) ensures InLedger(l, g) {
        RecordedIn(l, g);
      }
    }
    var a, b :| a in Recorded(l) && b in Recorded(l) && Listed(a, from, to, keep) && Listed(b, from, to, keep) &&
        Joins(a, b, c, t);
    RecordedOfRounds(rounds, l, a);
    RecordedOfRounds(rounds, l, b);
    JointIsNear(rounds, a, b, from, to, c, t);
  }

  /** The gaps a run records are proper, so the sweep's contract applies to them. */
  lemma RecordedProper(attempts: seq<Attempt>)
    requires InOrder(SavedRounds(attempts))
    ensures Proper(Recorded(Tried(attempts)))
  {
    hide Tried, SavedRounds, AllOfRounds, InOrder, Recorded, StartsRound, EndsRound;
    var l := Tried(attempts);
    LedgerOfRounds(attempts, 0, Cause("", "", ""));
    forall g | g in Recorded(l) ensures g.from <= g.to {
      RecordedIn(l, g);
      RecordedOfRounds(SavedRounds(attempts), l, g);
    }
  }
}
