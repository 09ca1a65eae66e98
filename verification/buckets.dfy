/** Averaging a metric series into equal time buckets. Values are real numbers, times are nanoseconds. */
module Buckets {
  import opened Common

  datatype Sample = Sample(time: int, value: real)

  const MAX_POINTS := 720

  /** Go's integer division truncates toward zero. */
  function Quo(a: int, b: int): int
    requires b > 0
  {
    if a >= 0 then a / b else -((-a) / b)
  }

  function Bucket(from: int, span: int, t: int): int
    requires span > 0
  {
    from + Quo(t - from, span) * span
  }

  /** A bucket under construction: its start, and the sum and number of its samples. */
  datatype Group = Group(bucket: int, sum: real, count: nat)

  /** The last bucket takes a sample that belongs to it; any other sample opens a bucket. */
  function Push(gs: seq<Group>, b: int, v: real): seq<Group> {
    if gs != [] && gs[|gs| - 1].bucket == b then
      gs[..|gs| - 1] + [Group(b, gs[|gs| - 1].sum + v, gs[|gs| - 1].count + 1)]
    else gs + [Group(b, v, 1)]
  }

  function Groups(samples: seq<Sample>, from: int, span: int): (gs: seq<Group>)
    requires span > 0
    ensures Counted(gs) && (samples != [] ==> gs != [])
  {
    if samples == [] then []
    else
      var s := samples[|samples| - 1];
      Push(Groups(samples[..|samples| - 1], from, span), Bucket(from, span, s.time), s.value)
  }

  predicate Counted(gs: seq<Group>) { forall i :: 0 <= i < |gs| ==> gs[i].count > 0 }

  function Means(gs: seq<Group>): (r: seq<Sample>)
    requires Counted(gs)
    ensures |r| == |gs| && forall i :: 0 <= i < |gs| ==> r[i] == Sample(gs[i].bucket, gs[i].sum / gs[i].count as real)
  {
    if gs == [] then []
    else
      var g := gs[|gs| - 1];
      Means(gs[..|gs| - 1]) + [Sample(g.bucket, g.sum / g.count as real)]
  }

  function Span(from: int, to: int): int { Quo(to - from, MAX_POINTS) }

  function Downsampled(samples: seq<Sample>, from: int, to: int): seq<Sample> {
    if Span(from, to) <= 0 then samples else Means(Groups(samples, from, Span(from, to)))
  }

  /** downsampleWebMetric: one running bucket, flushed whenever a sample falls outside it. */
  method Downsample(samples: seq<Sample>, from: int, to: int) returns (out: seq<Sample>)
    ensures out == Downsampled(samples, from, to)
  {
    hide Quo, Means, Push;
    var span := Quo(to - from, MAX_POINTS);
    if span <= 0 {
      return samples;
    }
    out := [];
    var bucket, sum, count := 0, 0.0, 0;
    ghost var done: seq<Group> := [];
    for i := 0 to |samples|
      invariant count >= 0 && Counted(done) && out == Means(done)
      invariant i == 0 ==> count == 0 && sum == 0.0 && done == []
      invariant i > 0 ==> count > 0
      invariant Groups(samples[..i], from, span) == Pending(done, bucket, sum, count)
    {
      assert samples[..i + 1][..i] == samples[..i];
      var b := from + Quo(samples[i].time - from, span) * span;
      PendingPush(done, bucket, sum, count, b, samples[i].value);
      if count > 0 && b != bucket {
        out := out + [Sample(bucket, sum / count as real)];
        MeansSnoc(done, Group(bucket, sum, count));
        done := done + [Group(bucket, sum, count)];
        sum, count := 0.0, 0;
      }
      bucket := b;
      sum := sum + samples[i].value;
      count := count + 1;
    }
    assert samples[..|samples|] == samples;
    if count > 0 {
      out := out + [Sample(bucket, sum / count as real)];
      MeansSnoc(done, Group(bucket, sum, count));
    }
  }

  function Pending(done: seq<Group>, bucket: int, sum: real, count: nat): seq<Group> {
    if count > 0 then done + [Group(bucket, sum, count)] else done
  }

  lemma PendingPush(done: seq<Group>, bucket: int, sum: real, count: nat, b: int, v: real)
    requires count == 0 ==> done == []
    ensures Push(Pending(done, bucket, sum, count), b, v) ==
              if count > 0 && b != bucket then Pending(done + [Group(bucket, sum, count)], b, 0.0 + v, 1)
              else Pending(done, b, if count > 0 then sum + v else v, count + 1)
  {
    assert (done + [Group(bucket, sum, count)])[..|done|] == done;
  }

  lemma MeansSnoc(gs: seq<Group>, g: Group)
    requires Counted(gs) && g.count > 0
    ensures Counted(gs + [g]) && Means(gs + [g]) == Means(gs) + [Sample(g.bucket, g.sum / g.count as real)]
  {
    assert (gs + [g])[..|gs|] == gs;
  }

  // ---------- the points mean their buckets ----------

  predicate Ordered(samples: seq<Sample>) {
    forall i, j :: 0 <= i < j < |samples| ==> samples[i].time <= samples[j].time
  }

  predicate InWindow(samples: seq<Sample>, from: int, to: int) {
    forall i :: 0 <= i < |samples| ==> from <= samples[i].time <= to
  }

  function SumOf(samples: seq<Sample>): real {
    if samples == [] then 0.0 else SumOf(samples[..|samples| - 1]) + samples[|samples| - 1].value
  }

  /** The samples of one bucket. */
  function Of(samples: seq<Sample>, from: int, span: int, b: int): seq<Sample>
    requires span > 0
  {
    if samples == [] then []
    else
      var s := samples[|samples| - 1];
      var rest := Of(samples[..|samples| - 1], from, span, b);
      if Bucket(from, span, s.time) == b then rest + [s] else rest
  }

  predicate Increasing(gs: seq<Group>) { forall i, j :: 0 <= i < j < |gs| ==> gs[i].bucket < gs[j].bucket }

  lemma BucketMonotone(from: int, span: int, s: int, t: int)
    requires span > 0 && from <= s <= t
    ensures from <= Bucket(from, span, s) <= Bucket(from, span, t) <= t
  {
    var a, b := s - from, t - from;
    DivMonotone(a, b, span);
    assert a / span * span <= b / span * span;
    assert b / span * span <= b;
  }

  lemma DivMonotone(a: nat, b: nat, d: int)
    requires d > 0 && a <= b
    ensures 0 <= a / d <= b / d && b / d * d <= b
  {
    var p, q := a / d, b / d;
    assert p * d <= a && q * d <= b < q * d + d;
    if p > q {
      MulMonotone(q + 1, p, d);
    }
  }

  predicate GroupIs(samples: seq<Sample>, from: int, span: int, g: Group)
    requires span > 0
  {
    g.count == |Of(samples, from, span, g.bucket)| && g.sum == SumOf(Of(samples, from, span, g.bucket))
  }

  predicate Holds(gs: seq<Group>, b: int) { exists i :: 0 <= i < |gs| && gs[i].bucket == b }

  /** For samples in time order each bucket that has samples becomes exactly one point, in order of time, made
      of all its samples. */
  lemma {:induction false} GroupsMeaning(samples: seq<Sample>, from: int, span: int)
    requires span > 0 && Ordered(samples) && forall i :: 0 <= i < |samples| ==> from <= samples[i].time
    ensures var gs := Groups(samples, from, span);
            && Increasing(gs) && (forall i :: 0 <= i < |gs| ==> GroupIs(samples, from, span, gs[i]))
            && (forall b :: !Holds(gs, b) ==> Of(samples, from, span, b) == [])
            && (samples != [] ==> gs[|gs| - 1].bucket == Bucket(from, span, samples[|samples| - 1].time))
  {
    hide Bucket, GroupIs, SumOf, Of, Push;
    if samples == [] {
      OfNone(from, span);
    } else {
      var n := |samples| - 1;
      var rest, s := samples[..n], samples[n];
      GroupsMeaning(rest, from, span);
      var before, b := Groups(rest, from, span), Bucket(from, span, s.time);
      if rest != [] {
        BucketMonotone(from, span, rest[n - 1].time, s.time);
      }
      PushIncreases(before, b, s.value);
      var gs := Groups(samples, from, span);
      forall i | 0 <= i < |gs| ensures GroupIs(samples, from, span, gs[i]) {
        if i < |gs| - 1 {
          OtherGroup(samples, from, span, gs[i]);
        } else if before != [] && before[|before| - 1].bucket == b {
          GrownGroup(samples, from, span, before[|before| - 1]);
        } else {
          NewGroup(samples, from, span);
        }
      }
      forall c | !Holds(gs, c) ensures Of(samples, from, span, c) == [] {
        OtherGroup(samples, from, span, Group(c, 0.0, 0));
      }
    }
  }

  lemma PushIncreases(gs: seq<Group>, b: int, v: real)
    requires Increasing(gs) && (gs != [] ==> gs[|gs| - 1].bucket <= b)
    ensures var r := Push(gs, b, v);
            && Increasing(r) && |gs| <= |r| <= |gs| + 1 && r != [] && r[..|r| - 1] <= gs
            && (forall i :: 0 <= i < |r| - 1 ==> r[i] == gs[i] && r[i].bucket < b)
            && (if gs != [] &&
               gs[|gs| - 1].bucket == b then r[|r| - 1] == Group(b, gs[|gs| - 1].sum + v, gs[|gs| - 1].count + 1)
                else r[|r| - 1] == Group(b, v, 1) && !Holds(gs, b))
            && (forall c :: Holds(r, c) <==> Holds(gs, c) || c == b)
  {
    var r := Push(gs, b, v);
    assert r[|r| - 1].bucket == b;
    forall c ensures Holds(r, c) <==> Holds(gs, c) || c == b {
      assert forall i :: 0 <= i < |gs| ==> r[i].bucket == gs[i].bucket;
      assert forall i :: 0 <= i < |r| ==> r[i].bucket == b || (i < |gs| && gs[i].bucket == r[i].bucket);
    }
  }

  lemma OfNone(from: int, span: int)
    requires span > 0
    ensures forall b :: Of([], from, span, b) == []
  {
  }

  lemma OtherGroup(samples: seq<Sample>, from: int, span: int, g: Group)
    requires span > 0 && samples != [] && Bucket(from, span, samples[|samples| - 1].time) != g.bucket
    ensures Of(samples, from, span, g.bucket) == Of(samples[..|samples| - 1], from, span, g.bucket)
    ensures GroupIs(samples[..|samples| - 1], from, span, g) ==> GroupIs(samples, from, span, g)
  {
  }

  lemma GrownGroup(samples: seq<Sample>, from: int, span: int, g: Group)
    requires span > 0 && samples != [] && Bucket(from, span, samples[|samples| - 1].time) == g.bucket
    requires GroupIs(samples[..|samples| - 1], from, span, g)
    ensures GroupIs(samples, from, span, Group(g.bucket, g.sum + samples[|samples| - 1].value, g.count + 1))
  {
    var s := samples[|samples| - 1];
    var was := Of(samples[..|samples| - 1], from, span, g.bucket);
    assert (was + [s])[..|was|] == was;
  }

  lemma NewGroup(samples: seq<Sample>, from: int, span: int)
    requires span > 0 && samples != []
    requires Of(samples[..|samples| - 1], from, span, Bucket(from, span, samples[|samples| - 1].time)) == []
    ensures GroupIs(samples, from, span,
                    Group(Bucket(from, span, samples[|samples| - 1].time), samples[|samples| - 1].value, 1))
  {
    var s := samples[|samples| - 1];
    assert [s][..0] == [];
    assert Of(samples, from, span, Bucket(from, span, s.time)) == [s];
  }

  // ---------- conservation ----------

  function TotalSum(gs: seq<Group>): real { if gs == [] then 0.0 else TotalSum(gs[..|gs| - 1]) + gs[|gs| - 1].sum }

  function TotalCount(gs: seq<Group>): nat { if gs == [] then 0 else TotalCount(gs[..|gs| - 1]) + gs[|gs| - 1].count }

  /** The points weighted by how many samples each averages. */
  function Weighted(points: seq<Sample>, gs: seq<Group>): real
    requires |points| == |gs|
  {
    if gs == [] then 0.0
    else Weighted(points[..|gs| - 1], gs[..|gs| - 1]) + gs[|gs| - 1].count as real * points[|gs| - 1].value
  }

  lemma {:induction false} GroupsConserve(samples: seq<Sample>, from: int, span: int)
    requires span > 0
    ensures TotalSum(Groups(samples, from, span)) == SumOf(samples) &&
            TotalCount(Groups(samples, from, span)) == |samples|
  {
    if samples != [] {
      var rest, s := samples[..|samples| - 1], samples[|samples| - 1];
      GroupsConserve(rest, from, span);
      var before, gs := Groups(rest, from, span), Groups(samples, from, span);
      if |gs| == |before| {
        assert gs[..|gs| - 1] == before[..|before| - 1];
      } else {
        assert gs[..|gs| - 1] == before;
      }
    }
  }

  lemma {:induction false} MeansWeighted(gs: seq<Group>)
    requires Counted(gs)
    ensures Weighted(Means(gs), gs) == TotalSum(gs)
  {
    hide Means;
    if gs != [] {
      var n := |gs| - 1;
      MeansWeighted(gs[..n]);
      assert gs[..n] + [gs[n]] == gs;
      assert Means(gs)[..n] == Means(gs[..n]);
      MeanTimesCount(gs[n]);
    }
  }

  lemma MeanTimesCount(g: Group)
    requires g.count > 0
    ensures g.count as real * (g.sum / g.count as real) == g.sum
  {
  }

  /** The points of any series, weighted by their counts, add up to the samples, and every sample is counted once. */
  lemma DownsampleConserves(samples: seq<Sample>, from: int, to: int)
    requires Span(from, to) > 0
    ensures var gs := Groups(samples, from, Span(from, to));
            && |Downsampled(samples, from, to)| == |gs| && TotalCount(gs) == |samples|
            && Weighted(Downsampled(samples, from, to), gs) == SumOf(samples)
  {
    GroupsConserve(samples, from, Span(from, to));
    MeansWeighted(Groups(samples, from, Span(from, to)));
  }

  /** The samples at and after lo and before hi, in their order. */
  function Between(samples: seq<Sample>, lo: int, hi: int): seq<Sample> {
    if samples == [] then []
    else
      var s := samples[|samples| - 1];
      Between(samples[..|samples| - 1], lo, hi) + if lo <= s.time < hi then [s] else []
  }

  /** A time at or after the start is in the one bucket, of those that stand at whole spans from the start, that it
      lies within a span of. */
  lemma BucketMeaning(from: int, span: int, t: int, q: nat)
    requires span > 0 && from <= t
    ensures Bucket(from, span, t) == from + q * span <==> from + q * span <= t < from + q * span + span
  {
    DivExactly(t - from, span, q);
  }

  lemma DivExactly(a: nat, d: int, q: nat)
    requires d > 0
    ensures a / d == q <==> q * d <= a < q * d + d
    ensures a / d * d == q * d <==> a / d == q
  {
    var k := a / d;
    assert k * d <= a < k * d + d;
    if k < q {
      MulMonotone(k + 1, q, d);
      assert (k + 1) * d == k * d + d;
    } else if q < k {
      MulMonotone(q + 1, k, d);
      assert (q + 1) * d == q * d + d;
    }
  }

  lemma {:induction false} OfMeaning(samples: seq<Sample>, from: int, span: int, q: nat)
    requires span > 0 && forall i :: 0 <= i < |samples| ==> from <= samples[i].time
    ensures Of(samples, from, span, from + q * span) == Between(samples, from + q * span, from + q * span + span)
  {
    hide Bucket;
    if samples != [] {
      OfMeaning(samples[..|samples| - 1], from, span, q);
      BucketMeaning(from, span, samples[|samples| - 1].time, q);
    }
  }

  ghost predicate OnSpan(from: int, span: int, b: int) { exists q: nat :: Grid(from, span, q) == b }

  /** Each point of an ordered series stands a whole number of spans after the start, strictly after the point before,
      and its value is the mean of exactly the samples within a span from it. */
  lemma PointsAreBucketMeans(samples: seq<Sample>, from: int, to: int, i: nat)
    requires Span(from, to) > 0 && Ordered(samples) && InWindow(samples, from, to) &&
             i < |Downsampled(samples, from, to)|
    ensures var p := Downsampled(samples, from, to);
            var own := Between(samples, p[i].time, p[i].time + Span(from, to));
            && own != [] && p[i].value == SumOf(own) / |own| as real
            && (i > 0 ==> p[i - 1].time < p[i].time)
            && OnSpan(from, Span(from, to), p[i].time)
  {
    hide Groups, Of, SumOf, Bucket, Between, Ordered, Grid;
    var span := Span(from, to);
    var gs := Groups(samples, from, span);
    GroupsMeaning(samples, from, span);
    assert GroupIs(samples, from, span, gs[i]);
    assert i > 0 ==> gs[i - 1].bucket < gs[i].bucket;
    WindowRuns(samples, from, to);
    GroupsOnGrid(samples, from, span, to);
    GridTold(samples, from, span, (to - from) / span, gs[i].bucket);
  }

  lemma WindowRuns(samples: seq<Sample>, from: int, to: int)
    requires Span(from, to) > 0
    ensures from <= to
  {
  }

  lemma GridTold(samples: seq<Sample>, from: int, span: int, top: nat, b: int)
    requires span > 0 && OnGrid(from, span, top, b) && forall i :: 0 <= i < |samples| ==> from <= samples[i].time
    ensures OnSpan(from, span, b) && Of(samples, from, span, b) == Between(samples, b, b + span)
  {
    hide Of, Between;
    var q: nat :| q <= top && Grid(from, span, q) == b;
    OfMeaning(samples, from, span, q);
  }

  // ---------- how many points ----------

  function Grid(from: int, span: int, q: nat): int { from + q * span }

  predicate OnGrid(from: int, span: int, top: nat, b: int) { exists q: nat :: q <= top && Grid(from, span, q) == b }

  lemma GridMonotone(from: int, span: int, p: nat, q: nat)
    requires span > 0 && p <= q
    ensures Grid(from, span, p) <= Grid(from, span, q) && (p < q ==> Grid(from, span, p) + span <= Grid(from, span, q))
  {
    MulMonotone(p, q, span);
    if p < q {
      MulMonotone(p + 1, q, span);
    }
  }

  lemma MulMonotone(p: nat, q: nat, d: int)
    requires d > 0 && p <= q
    ensures p * d <= q * d
  {
    assert (q - p) * d >= 0;
  }

  lemma {:induction false} GridSteps(gs: seq<Group>, from: int, span: int, top: nat, k: nat)
    requires span > 0 && k < |gs| && Increasing(gs) &&
             forall i :: 0 <= i < |gs| ==> OnGrid(from, span, top, gs[i].bucket)
    ensures gs[k].bucket >= Grid(from, span, k) && k <= top
  {
    hide Grid;
    assert OnGrid(from, span, top, gs[k].bucket);
    var q: nat :| q <= top && Grid(from, span, q) == gs[k].bucket;
    if k > 0 {
      GridSteps(gs, from, span, top, k - 1);
      if q <= k - 1 {
        GridMonotone(from, span, q, k - 1);
      }
      GridMonotone(from, span, k, q);
    } else {
      GridMonotone(from, span, 0, q);
    }
  }

  lemma BucketOnGrid(from: int, span: int, t: int, to: int)
    requires span > 0 && from <= t <= to
    ensures OnGrid(from, span, (to - from) / span, Bucket(from, span, t))
  {
    DivMonotone(t - from, to - from, span);
    assert Grid(from, span, (t - from) / span) == Bucket(from, span, t);
  }

  lemma {:induction false} GroupsOnGrid(samples: seq<Sample>, from: int, span: int, to: int)
    requires span > 0 && InWindow(samples, from, to) && from <= to
    ensures forall i :: 0 <= i < |Groups(samples, from, span)| ==>
              OnGrid(from, span, (to - from) / span, Groups(samples, from, span)[i].bucket)
  {
    hide OnGrid, Bucket;
    if samples != [] {
      GroupsOnGrid(samples[..|samples| - 1], from, span, to);
      BucketOnGrid(from, span, samples[|samples| - 1].time, to);
    }
  }

  /** One more point than whole buckets fit the window. */
  lemma PointsBounded(samples: seq<Sample>, from: int, to: int)
    requires Span(from, to) > 0 && Ordered(samples) && InWindow(samples, from, to)
    ensures |Downsampled(samples, from, to)| <= (to - from) / Span(from, to) + 1
  {
    hide Groups, Of, GroupIs, OnGrid;
    var span := Span(from, to);
    var gs := Groups(samples, from, span);
    GroupsMeaning(samples, from, span);
    GroupsOnGrid(samples, from, span, to);
    if gs != [] {
      GridSteps(gs, from, span, (to - from) / span, |gs| - 1);
    }
  }

  // ---------- when 721 points are enough ----------

  /** A series with one sample at the start of every bucket of the window. */
  function Comb(from: int, span: int, n: nat): (s: seq<Sample>)
    ensures |s| == n && forall i :: 0 <= i < n ==> s[i] == Sample(Grid(from, span, i), 0.0)
  {
    if n == 0 then [] else Comb(from, span, n - 1) + [Sample(Grid(from, span, n - 1), 0.0)]
  }

  lemma BucketOfGrid(from: int, span: int, q: nat)
    requires span > 0
    ensures Bucket(from, span, Grid(from, span, q)) == Grid(from, span, q) && Grid(from, span, q) >= from
  {
    MulMonotone(0, q, span);
    DivOfMultiple(q, span);
  }

  lemma DivOfMultiple(q: nat, d: int)
    requires d > 0
    ensures q * d / d == q
  {
    QuotientIs(q * d, d, q);
  }

  lemma {:induction false} CombPoints(from: int, span: int, n: nat)
    requires span > 0
    ensures |Groups(Comb(from, span, n), from, span)| == n
    ensures n > 0 ==> Groups(Comb(from, span, n), from, span)[n - 1].bucket == Grid(from, span, n - 1)
  {
    hide Grid, Bucket;
    if n > 0 {
      CombPoints(from, span, n - 1);
      var c := Comb(from, span, n);
      assert c[..n - 1] == Comb(from, span, n - 1);
      BucketOfGrid(from, span, n - 1);
      if n > 1 {
        GridMonotone(from, span, n - 2, n - 1);
      }
    }
  }

  lemma CombInWindow(from: int, to: int, span: int)
    requires span > 0 && from <= to
    ensures var c := Comb(from, span, (to - from) / span + 1); Ordered(c) && InWindow(c, from, to)
  {
    hide Grid;
    var top := (to - from) / span;
    var c := Comb(from, span, top + 1);
    forall i, j | 0 <= i <= j <= top ensures from <= c[i].time <= c[j].time <= to {
      GridMonotone(from, span, 0, i);
      GridMonotone(from, span, i, j);
      GridMonotone(from, span, j, top);
      GridEnds(from, to, span);
    }
  }

  lemma GridEnds(from: int, to: int, span: int)
    requires span > 0 && from <= to
    ensures Grid(from, span, 0) == from && Grid(from, span, (to - from) / span) <= to
  {
  }

  /** At most 721 points come back for every ordered series of a window exactly when what 720 buckets leave over is
      less than one bucket; so for every window of at least 720 * 720 nanoseconds. */
  lemma PointBoundExactly(from: int, to: int)
    requires Span(from, to) > 0
    ensures (forall samples :: Ordered(samples) && InWindow(samples, from, to) ==>
              |Downsampled(samples, from, to)| <= 721) <==>
              (to - from) % 720 < (to - from) / 720
    ensures to - from >= 720 * 720 ==> (to - from) % 720 < (to - from) / 720
  {
    hide Groups, Comb;
    var span := Span(from, to);
    var w := to - from;
    if w % 720 < w / 720 {
      forall samples | Ordered(samples) && InWindow(samples, from, to) ensures |Downsampled(samples, from, to)| <= 721 {
        PointsBounded(samples, from, to);
        FitsOnce(w);
      }
    } else {
      var c := Comb(from, span, w / span + 1);
      CombInWindow(from, to, span);
      CombPoints(from, span, w / span + 1);
      OverflowsOnce(w);
      assert |Downsampled(c, from, to)| > 721;
    }
  }

  lemma FitsOnce(w: nat)
    requires w / 720 > 0 && w % 720 < w / 720
    ensures w / (w / 720) == 720
  {
    var d := w / 720;
    assert w == 720 * d + w % 720;
    QuotientIs(w, d, 720);
  }

  lemma OverflowsOnce(w: nat)
    requires w / 720 > 0 && w % 720 >= w / 720
    ensures w / (w / 720) >= 721
  {
    var d := w / 720;
    assert w >= 721 * d;
    DivMonotone(721 * d, w, d);
    DivOfMultiple(721, d);
  }

  lemma QuotientIs(w: nat, d: int, q: nat)
    requires d > 0 && q * d <= w < q * d + d
    ensures w / d == q
  {
    var k := w / d;
    assert k * d <= w < k * d + d;
    if k < q {
      MulMonotone(k + 1, q, d);
    }
    if k > q {
      MulMonotone(q + 1, k, d);
    }
  }
}
