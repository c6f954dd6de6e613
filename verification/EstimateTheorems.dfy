/** What the estimator promises: bounded scores, a stable ranking, ordered results, and prices that carry through. */
module EstimateTheorems {
  import opened Numbers
  import opened Text
  import opened Estimate

  // Scores.

  lemma {:induction false} CountAtMost(tokens: seq<string>, known: set<string>)
    ensures CountIn(tokens, known) <= |tokens|
  {
    if tokens != [] {
      CountAtMost(tokens[..|tokens| - 1], known);
    }
  }

  lemma OverlapShare(a: seq<string>, b: seq<string>)
    ensures 0.0 <= Overlap(a, b) <= 1.0
  {
    var left := TokenSet(a);
    CountAtMost(b, left);
    if left != {} && b != [] {
      var n, d := CountIn(b, left), if |left| >= |b| then |left| else |b|;
      Share(n, d);
    }
  }

  lemma Share(n: nat, d: nat)
    requires n <= d && d > 0
    ensures 0.0 <= n as real / d as real <= 1.0
  {
  }

  lemma Points(x: real, k: int)
    requires 0.0 <= x <= 1.0 && k >= 0
    ensures 0 <= Round(x * k as real) <= k
  {
    assert 0.0 <= x * k as real <= k as real;
  }

  /** A score lies between 0 and 116, whatever the texts. */
  lemma ScoreRange(draft: Draft, sample: Sample)
    ensures 0 <= SampleScore(draft, sample) <= 116
  {
    hide Round, Overlap;
    OverlapShare(draft.placement, sample.placement);
    OverlapShare(draft.style, sample.style);
    Points(Overlap(draft.placement, sample.placement), 26);
    Points(Overlap(draft.style, sample.style), 22);
  }

  // Ranking.

  predicate InOrder(rows: seq<Ranked>) {
    forall i, j :: 0 <= i < j < |rows| ==> InFront(rows[i], rows[j])
  }

  lemma FrontTotal(a: Ranked, b: Ranked)
    ensures InFront(a, b) || InFront(b, a)
  {
  }

  lemma FrontTransitive(a: Ranked, b: Ranked, c: Ranked)
    requires InFront(a, b) && InFront(b, c)
    ensures InFront(a, c)
  {
  }

  lemma InOrderSnoc(front: seq<Ranked>, last: Ranked)
    requires InOrder(front) && forall r :: r in front ==> InFront(r, last)
    ensures InOrder(front + [last])
  {
    hide InFront;
  }

  lemma {:induction false} PlacedSame(sorted: seq<Ranked>, x: Ranked)
    ensures multiset(Placed(sorted, x)) == multiset(sorted) + multiset{x}
  {
    hide InFront;
    if sorted != [] && !InFront(sorted[|sorted| - 1], x) {
      var front, last := sorted[..|sorted| - 1], sorted[|sorted| - 1];
      PlacedSame(front, x);
      assert sorted == front + [last];
    }
  }

  lemma {:induction false} PlacedOrder(sorted: seq<Ranked>, x: Ranked)
    requires InOrder(sorted)
    ensures InOrder(Placed(sorted, x))
  {
    hide InFront;
    if sorted != [] {
      var k := |sorted| - 1;
      var last := sorted[k];
      if InFront(last, x) {
        forall r | r in sorted
          ensures InFront(r, x)
        {
          if r != last {
            FrontTransitive(r, last, x);
          }
        }
        InOrderSnoc(sorted, x);
      } else {
        var front := Placed(sorted[..k], x);
        FrontTotal(last, x);
        PlacedOrder(sorted[..k], x);
        PlacedSame(sorted[..k], x);
        forall r | r in front
          ensures InFront(r, last)
        {
          assert r in multiset(front);
          assert r == x || r in sorted[..k];
        }
        InOrderSnoc(front, last);
      }
    }
  }

  /** The ranking holds every sample with its score, the better ones in front. */
  lemma {:induction false} RankOrder(draft: Draft, samples: seq<Sample>)
    ensures InOrder(Rank(draft, samples))
    ensures multiset(Rank(draft, samples)) == multiset(Scored(draft, samples))
  {
    hide SampleScore, InOrder, Placed;
    if samples == [] {
      assert InOrder([]) by {
        NothingInOrder();
      }
    } else {
      var k := |samples| - 1;
      var last := Ranked(samples[k], SampleScore(draft, samples[k]));
      RankOrder(draft, samples[..k]);
      PlacedOrder(Rank(draft, samples[..k]), last);
      PlacedSame(Rank(draft, samples[..k]), last);
      assert Scored(draft, samples) == Scored(draft, samples[..k]) + [last];
    }
  }

  lemma NothingInOrder()
    ensures InOrder([])
  {
  }

  function Scored(draft: Draft, samples: seq<Sample>): (rows: seq<Ranked>)
    ensures |rows| == |samples|
  {
    seq(|samples|, i requires 0 <= i < |samples| => Ranked(samples[i], SampleScore(draft, samples[i])))
  }

  /** The rows of one rank: same score, same anchor. */
  function Tied(rows: seq<Ranked>, score: int, anchor: bool): seq<Ranked> {
    if rows == [] then []
    else
      Tied(rows[..|rows| - 1], score, anchor)
      + (if rows[|rows| - 1].score == score && rows[|rows| - 1].sample.anchor == anchor then [rows[|rows| - 1]] else [])
  }

  lemma TiedSnoc(rows: seq<Ranked>, x: Ranked, score: int, anchor: bool)
    ensures Tied(rows + [x], score, anchor)
         == Tied(rows, score, anchor) + (if x.score == score && x.sample.anchor == anchor then [x] else [])
  {
    assert (rows + [x])[..|rows|] == rows;
  }

  lemma {:induction false} PlacedStable(sorted: seq<Ranked>, x: Ranked, score: int, anchor: bool)
    requires InOrder(sorted)
    ensures Tied(Placed(sorted, x), score, anchor)
         == Tied(sorted, score, anchor) + (if x.score == score && x.sample.anchor == anchor then [x] else [])
  {
    hide Tied;
    if sorted == [] || InFront(sorted[|sorted| - 1], x) {
      TiedSnoc(sorted, x, score, anchor);
    } else {
      var k := |sorted| - 1;
      PlacedStable(sorted[..k], x, score, anchor);
      assert sorted == sorted[..k] + [sorted[k]];
      TiedSnoc(sorted[..k], sorted[k], score, anchor);
      TiedSnoc(Placed(sorted[..k], x), sorted[k], score, anchor);
      assert sorted[k].score != x.score || sorted[k].sample.anchor != x.sample.anchor;
    }
  }

  /** The ranking is stable: samples of equal score and anchor keep their order. */
  lemma {:induction false} RankStable(draft: Draft, samples: seq<Sample>, score: int, anchor: bool)
    ensures Tied(Rank(draft, samples), score, anchor) == Tied(Scored(draft, samples), score, anchor)
  {
    hide SampleScore;
    if samples != [] {
      var k := |samples| - 1;
      RankStable(draft, samples[..k], score, anchor);
      RankOrder(draft, samples[..k]);
      PlacedStable(Rank(draft, samples[..k]), Ranked(samples[k], SampleScore(draft, samples[k])), score, anchor);
      assert Scored(draft, samples)[..k] == Scored(draft, samples[..k]);
    }
  }

  lemma {:induction false} SizedOrder(band: int, rows: seq<Ranked>)
    requires InOrder(rows)
    ensures InOrder(SizedRows(band, rows))
    ensures forall r :: r in SizedRows(band, rows) <==> r in rows && Gap(r.sample.band, band) <= 1
  {
    if rows != [] {
      var k := |rows| - 1;
      SizedOrder(band, rows[..k]);
      assert rows == rows[..k] + [rows[k]];
      var front := SizedRows(band, rows[..k]);
      forall i | 0 <= i < |front|
        ensures InFront(front[i], rows[k])
      {
        assert front[i] in front;
      }
    }
  }

  /** The picked samples are of the right size, and none that was left out ranks strictly better than one of them. */
  lemma PickedAreBest(draft: Draft, samples: seq<Sample>, p: Ranked, r: Ranked)
    requires p in Picked(draft, samples)
    requires r in Rank(draft, Priced(samples)) && -1 <= r.sample.band - draft.band <= 1 && r !in Picked(draft, samples)
    ensures -1 <= p.sample.band - draft.band <= 1 && |Picked(draft, samples)| == 5
    ensures p.score > r.score || (p.score == r.score && (p.sample.anchor || !r.sample.anchor))
  {
    hide Rank, Priced;
    RankOrder(draft, Priced(samples));
    var rows := Rank(draft, Priced(samples));
    SizedOrder(draft.band, rows);
    var sized := SizedRows(draft.band, rows);
    var j :| 0 <= j < |sized| && sized[j] == r;
    var i :| 0 <= i < |Picked(draft, samples)| && Picked(draft, samples)[i] == p;
    assert |sized| > 5 && i < 5 <= j;
  }

  lemma {:induction false} SizedParts(band: int, rows: seq<Ranked>)
    ensures multiset(SizedRows(band, rows)) <= multiset(rows)
  {
    hide Gap;
    if rows != [] {
      var front, last := rows[..|rows| - 1], rows[|rows| - 1];
      SizedParts(band, front);
      LastApart(rows);
      PartsSnoc(SizedRows(band, front), front, last);
    }
  }

  lemma LastApart<T>(a: seq<T>)
    requires a != []
    ensures a == a[..|a| - 1] + [a[|a| - 1]]
  {
  }

  lemma PartsSnoc<T>(a: seq<T>, b: seq<T>, x: T)
    requires multiset(a) <= multiset(b)
    ensures multiset(a + [x]) <= multiset(b + [x]) && multiset(a + []) <= multiset(b + [x])
  {
    assert a + [] == a;
  }

  /** At most five ranked samples are picked, none twice, and every one of the right size while there are fewer. */
  lemma FivePicked(draft: Draft, samples: seq<Sample>)
    ensures |Picked(draft, samples)| <= 5
    ensures multiset(Picked(draft, samples)) <= multiset(Rank(draft, Priced(samples)))
    ensures forall r :: r in Rank(draft, Priced(samples)) && -1 <= r.sample.band - draft.band <= 1 ==>
              r in Picked(draft, samples) || |Picked(draft, samples)| == 5
  {
    hide Rank, Priced, InFront, SizedRows;
    RankOrder(draft, Priced(samples));
    var rows := Rank(draft, Priced(samples));
    SizedOrder(draft.band, rows);
    SizedParts(draft.band, rows);
    var sized := SizedRows(draft.band, rows);
    if |sized| > 5 {
      assert sized == sized[..5] + sized[5..];
      assert multiset(sized) == multiset(sized[..5]) + multiset(sized[5..]);
    }
  }

  /** Ranked and counted are the samples with a positive price. */
  lemma {:induction false} PricedArePositive(samples: seq<Sample>)
    ensures forall x :: x in Priced(samples) <==> x in samples && x.price > 0
    ensures (forall x :: x in samples ==> x.price > 0) ==> Priced(samples) == samples
  {
    if samples != [] {
      var k := |samples| - 1;
      PricedArePositive(samples[..k]);
      assert samples == samples[..k] + [samples[k]];
      assert samples[k] in samples && forall x :: x in samples[..k] ==> x in samples;
    }
  }

  // What a score is made of.

  /** The points but for those of places and styles, which no other trait changes. */
  function OtherPoints(draft: Draft, x: Sample): int {
    SampleScore(draft, x) - Round(Overlap(draft.placement, x.placement) * 26.0)
    - Round(Overlap(draft.style, x.style) * 22.0)
  }

  /** An anchor counts sixteen points more. */
  lemma AnchorPoints(draft: Draft, x: Sample)
    ensures OtherPoints(draft, x.(anchor := true)) == OtherPoints(draft, x.(anchor := false)) + 16
  {
    hide Round, Overlap;
  }

  predicate IsRework(requestType: string) {
    requestType in {"coverup", "repair"}
  }

  /** The same request counts 24 points, another rework for a rework 12, and any other request none. */
  lemma RequestPoints(draft: Draft, x: Sample, other: string)
    ensures OtherPoints(draft, x.(requestType := other)) == OtherPoints(draft, x.(requestType := ""))
              + (if other != "" && other == draft.requestType then 24
                 else if IsRework(other) && IsRework(draft.requestType) then 12 else 0)
  {
    hide Round, Overlap;
  }

  /** The same colour counts eight points. */
  lemma ColorPoints(draft: Draft, x: Sample, other: string)
    ensures OtherPoints(draft, x.(colorMode := other)) == OtherPoints(draft, x.(colorMode := ""))
              + (if other != "" && other == draft.colorMode then 8 else 0)
  {
    hide Round, Overlap;
  }

  /** The same size counts twenty points, the next one eight, and any other none. */
  lemma BandPoints(draft: Draft, x: Sample, other: int)
    ensures OtherPoints(draft, x.(band := other)) == OtherPoints(draft, x.(band := draft.band + 2))
              + (if other == draft.band then 20 else if -1 <= other - draft.band <= 1 then 8 else 0)
  {
    hide Round, Overlap;
  }

  /** The places and the styles count by the share of tokens in common, and nothing else counts. */
  lemma SharedPoints(draft: Draft, x: Sample)
    ensures SampleScore(draft, x) == SampleScore(draft, x.(placement := []))
              + Round(Overlap(draft.placement, x.placement) * 26.0)
    ensures SampleScore(draft, x) == SampleScore(draft, x.(style := [])) + Round(Overlap(draft.style, x.style) * 22.0)
    ensures SampleScore(draft, Sample(x.id, x.price, "", [], [], draft.band + 2, "", false)) == 0
  {
    hide CountIn, TokenSet;
    NothingShared(draft.placement);
    NothingShared(draft.style);
  }

  lemma NothingShared(a: seq<string>)
    ensures Overlap(a, []) == 0.0 && Round(0.0 * 26.0) == 0 && Round(0.0 * 22.0) == 0
  {
  }

  function Common(tokens: seq<string>, known: set<string>): set<string> {
    set t | t in tokens && t in known
  }

  lemma CommonSnoc(front: seq<string>, last: string, known: set<string>)
    requires last !in front
    ensures |Common(front + [last], known)| == |Common(front, known)| + (if last in known then 1 else 0)
  {
    var less, all := Common(front, known), Common(front + [last], known);
    assert all == if last in known then less + {last} else less;
  }

  lemma {:induction false} CountIsCommon(tokens: seq<string>, known: set<string>)
    requires forall i, j :: 0 <= i < j < |tokens| ==> tokens[i] != tokens[j]
    ensures CountIn(tokens, known) == |Common(tokens, known)|
  {
    if tokens != [] {
      hide Common;
      var front, last := tokens[..|tokens| - 1], tokens[|tokens| - 1];
      CountIsCommon(front, known);
      LastApart(tokens);
      CommonSnoc(front, last, known);
    } else {
      assert Common(tokens, known) == {};
    }
  }

  /** For tokens without repetition the share is what both have over the longer of the two. */
  lemma OverlapIsShare(a: seq<string>, b: seq<string>)
    requires forall i, j :: 0 <= i < j < |b| ==> b[i] != b[j]
    requires a != [] && b != []
    ensures var longer := if |TokenSet(a)| >= |b| then |TokenSet(a)| else |b|;
            longer > 0 && Overlap(a, b) == |(set t | t in b && t in a)| as real / longer as real
  {
    assert a[0] in TokenSet(a);
    CountIsCommon(b, TokenSet(a));
    assert Common(b, TokenSet(a)) == set t | t in b && t in a;
  }

  // Medians.

  predicate Below(a: seq<real>, b: seq<real>) {
    |a| == |b| && forall i :: 0 <= i < |a| ==> a[i] <= b[i]
  }

  predicate Ascending(a: seq<real>) {
    forall i, j :: 0 <= i < j < |a| ==> a[i] <= a[j]
  }

  lemma AppendTop(front: seq<real>, old': seq<real>, x: real, top: real)
    requires Ascending(front) && multiset(front) == multiset(old') + multiset{x}
    requires x <= top && forall v :: v in old' ==> v <= top
    ensures Ascending(front + [top])
  {
    forall i | 0 <= i < |front|
      ensures front[i] <= top
    {
      assert front[i] in multiset(front);
      assert front[i] == x || front[i] in old';
    }
  }

  lemma {:induction false} InsertedShape(sorted: seq<real>, x: real)
    requires Ascending(sorted)
    ensures Ascending(Inserted(sorted, x)) && multiset(Inserted(sorted, x)) == multiset(sorted) + multiset{x}
  {
    if sorted == [] || sorted[|sorted| - 1] <= x {
      assert Inserted(sorted, x) == sorted + [x];
    } else {
      var k := |sorted| - 1;
      InsertedShape(sorted[..k], x);
      assert sorted == sorted[..k] + [sorted[k]];
      AppendTop(Inserted(sorted[..k], x), sorted[..k], x, sorted[k]);
    }
  }

  lemma SameMembers(a: seq<real>, b: seq<real>)
    requires multiset(a) == multiset(b)
    ensures forall v :: v in a ==> v in b
  {
    forall v | v in a
      ensures v in b
    {
      assert v in multiset(a);
    }
  }

  lemma {:induction false} SortedShape(values: seq<real>)
    ensures Ascending(Sorted(values)) && multiset(Sorted(values)) == multiset(values)
    ensures forall v :: v in Sorted(values) ==> v in values
  {
    if values != [] {
      hide Ascending, Inserted;
      var front, last := values[..|values| - 1], values[|values| - 1];
      SortedShape(front);
      InsertedShape(Sorted(front), last);
      LastApart(values);
    }
    SameMembers(Sorted(values), values);
  }

  /** What stands in the middle of a list in order; of an even one, the rounded mean of the middle two. */
  function Middle(t: seq<real>): real
    requires t != []
  {
    if |t| % 2 == 1 then t[|t| / 2] else Round((t[|t| / 2 - 1] + t[|t| / 2]) / 2.0) as real
  }

  lemma TopOf(a: seq<real>, v: real)
    requires Ascending(a) && v in multiset(a)
    ensures a != [] && v <= a[|a| - 1]
  {
    var i :| 0 <= i < |a| && a[i] == v;
  }

  lemma DropTop(a: seq<real>)
    requires a != []
    ensures multiset(a[..|a| - 1]) == multiset(a) - multiset{a[|a| - 1]} && a[|a| - 1] in multiset(a)
  {
    assert a == a[..|a| - 1] + [a[|a| - 1]];
  }

  lemma SameLength(a: seq<real>, b: seq<real>)
    requires multiset(a) == multiset(b)
    ensures |a| == |b|
  {
    assert |a| == |multiset(a)| && |b| == |multiset(b)|;
  }

  /** A list has one ascending arrangement. */
  lemma {:induction false} AscendingOnce(a: seq<real>, b: seq<real>)
    requires Ascending(a) && Ascending(b) && multiset(a) == multiset(b)
    ensures a == b
  {
    SameLength(a, b);
    if a != [] {
      SameTop(a, b);
      AscendingFront(a);
      AscendingFront(b);
      hide Ascending;
      DropTop(a);
      DropTop(b);
      AscendingOnce(a[..|a| - 1], b[..|b| - 1]);
      LastApart(a);
      LastApart(b);
    }
  }

  lemma SameTop(a: seq<real>, b: seq<real>)
    requires Ascending(a) && Ascending(b) && multiset(a) == multiset(b) && a != [] && b != []
    ensures a[|a| - 1] == b[|b| - 1]
  {
    hide Ascending;
    DropTop(a);
    DropTop(b);
    TopOf(a, b[|b| - 1]);
    TopOf(b, a[|a| - 1]);
  }

  lemma AscendingFront(a: seq<real>)
    requires Ascending(a) && a != []
    ensures Ascending(a[..|a| - 1])
  {
  }

  /** The median is the middle of the values in order, however they come. */
  lemma MedianIsMiddle(values: seq<real>, t: seq<real>)
    requires Ascending(t) && multiset(t) == multiset(values) && t != []
    ensures |t| == |values| && Median(values) == Middle(t)
  {
    hide Sorted, Round;
    assert |t| == |multiset(t)| == |values|;
    SortedShape(values);
    AscendingOnce(Sorted(values), t);
  }

  lemma MedianPermuted(a: seq<real>, b: seq<real>)
    requires multiset(a) == multiset(b)
    ensures Median(a) == Median(b)
  {
    hide Sorted, Median, Middle;
    assert |a| == |multiset(a)| == |b|;
    if a == [] {
      assert a == b;
    } else {
      SortedShape(a);
      assert |Sorted(a)| == |a|;
      MedianIsMiddle(a, Sorted(a));
      MedianIsMiddle(b, Sorted(a));
    }
  }

  function CountBelow(values: seq<real>, x: real): nat {
    if values == [] then 0
    else CountBelow(values[..|values| - 1], x) + (if values[|values| - 1] < x then 1 else 0)
  }

  function CountAbove(values: seq<real>, x: real): nat {
    if values == [] then 0
    else CountAbove(values[..|values| - 1], x) + (if values[|values| - 1] > x then 1 else 0)
  }

  lemma {:induction false} CountsAdd(a: seq<real>, b: seq<real>, x: real)
    ensures CountBelow(a + b, x) == CountBelow(a, x) + CountBelow(b, x)
    ensures CountAbove(a + b, x) == CountAbove(a, x) + CountAbove(b, x)
  {
    if b == [] {
      assert a + b == a;
    } else {
      var k := |b| - 1;
      CountsAdd(a, b[..k], x);
      assert (a + b)[..|a| + k] == a + b[..k];
      assert (a + b)[|a| + k] == b[k];
    }
  }

  lemma CountOne(v: real, x: real)
    ensures CountBelow([v], x) == (if v < x then 1 else 0) && CountAbove([v], x) == if v > x then 1 else 0
  {
    assert [v][..0] == [];
  }

  lemma CountWithout(values: seq<real>, x: real, i: nat)
    requires i < |values|
    ensures var rest := values[..i] + values[i + 1..];
            && CountBelow(values, x) == CountBelow(rest, x) + (if values[i] < x then 1 else 0)
            && CountAbove(values, x) == CountAbove(rest, x) + (if values[i] > x then 1 else 0)
  {
    hide CountBelow, CountAbove;
    var a, b := values[..i], values[i + 1..];
    assert values == a + [values[i]] + b;
    CountsAdd(a + [values[i]], b, x);
    CountsAdd(a, [values[i]], x);
    CountsAdd(a, b, x);
    CountOne(values[i], x);
  }

  lemma RemoveAt(b: seq<real>, v: real) returns (i: nat)
    requires v in multiset(b)
    ensures i < |b| && b[i] == v && multiset(b[..i] + b[i + 1..]) == multiset(b) - multiset{v}
  {
    i :| 0 <= i < |b| && b[i] == v;
    assert b == b[..i] + [b[i]] + b[i + 1..];
  }

  lemma {:induction false} CountPermuted(a: seq<real>, b: seq<real>, x: real)
    requires multiset(a) == multiset(b)
    ensures CountBelow(a, x) == CountBelow(b, x) && CountAbove(a, x) == CountAbove(b, x)
  {
    SameLength(a, b);
    if a != [] {
      hide CountBelow, CountAbove;
      var k := |a| - 1;
      DropTop(a);
      var i := RemoveAt(b, a[k]);
      CountPermuted(a[..k], b[..i] + b[i + 1..], x);
      CountWithout(b, x, i);
      CountWithout(a, x, k);
      assert a[..k] + a[k + 1..] == a[..k];
    }
  }

  /** In order, at most m values lie below the one at place m, and only later ones above it. */
  lemma {:induction false} CountsAt(t: seq<real>, m: nat, n: nat)
    requires Ascending(t) && m < |t| && n <= |t|
    ensures CountBelow(t[..n], t[m]) <= m
    ensures CountBelow(t[..n], t[m]) <= n
    ensures CountAbove(t[..n], t[m]) <= if n <= m then 0 else n - m - 1
    decreases n
  {
    if n > 0 {
      CountsAt(t, m, n - 1);
      assert t[..n][..n - 1] == t[..n - 1];
    }
  }

  /** Of an odd number of values, at most half lie below the median and at most half above it. */
  lemma MedianHalves(values: seq<real>)
    requires |values| % 2 == 1
    ensures CountBelow(values, Median(values)) <= |values| / 2
    ensures CountAbove(values, Median(values)) <= |values| / 2
  {
    hide Sorted, CountBelow, CountAbove;
    SortedShape(values);
    var t := Sorted(values);
    CountPermuted(values, t, Median(values));
    CountsAt(t, |values| / 2, |t|);
    assert t[..|t|] == t;
  }

  /** Inserting passes on the larger of the last value and the new one. */
  lemma InsertedSplit(s: seq<real>, x: real)
    requires Ascending(s) && s != []
    ensures var k := |s| - 1; Inserted(s, x) == Inserted(s[..k], RealMin(s[k], x)) + [RealMax(s[k], x)]
  {
    var k := |s| - 1;
    if s[k] <= x {
      assert s == s[..k] + [s[k]];
      assert Inserted(s[..k], s[k]) == s;
    }
  }

  /** Inserting larger values into larger lists gives larger lists. */
  lemma {:induction false} InsertedGrows(s: seq<real>, x: real, t: seq<real>, y: real)
    requires Ascending(s) && Ascending(t) && Below(s, t) && x <= y
    ensures Below(Inserted(s, x), Inserted(t, y))
    decreases |s|
  {
    if s != [] {
      hide Inserted;
      var k := |s| - 1;
      InsertedSplit(s, x);
      InsertedSplit(t, y);
      InsertedGrows(s[..k], RealMin(s[k], x), t[..k], RealMin(t[k], y));
    }
  }

  lemma {:induction false} SortedGrows(a: seq<real>, b: seq<real>)
    requires Below(a, b)
    ensures Below(Sorted(a), Sorted(b))
  {
    if a != [] {
      var k := |a| - 1;
      SortedGrows(a[..k], b[..k]);
      SortedShape(a[..k]);
      SortedShape(b[..k]);
      InsertedGrows(Sorted(a[..k]), a[k], Sorted(b[..k]), b[k]);
    }
  }

  /** Raising values never lowers their median, rounded or not. */
  lemma MedianGrows(a: seq<real>, b: seq<real>)
    requires Below(a, b)
    ensures Median(a) <= Median(b)
  {
    hide Sorted, Round;
    SortedGrows(a, b);
    if a != [] && |a| % 2 == 0 {
      var s, t, mid := Sorted(a), Sorted(b), |a| / 2;
      RoundMonotone((s[mid - 1] + s[mid]) / 2.0, (t[mid - 1] + t[mid]) / 2.0);
    }
  }

  /** The median of whole numbers lies between any bounds on them. */
  lemma MedianBetween(values: seq<real>, lo: int, hi: int)
    requires values != [] && forall v :: v in values ==> lo as real <= v <= hi as real
    ensures lo as real <= Median(values) <= hi as real
  {
    hide Sorted, Round;
    SortedShape(values);
    var s, mid := Sorted(values), |values| / 2;
    assert s[mid] in s;
    if |values| % 2 == 0 {
      assert s[mid - 1] in s;
      RoundBetween((s[mid - 1] + s[mid]) / 2.0, lo, hi);
    }
  }

  // Money.

  /** Rounding to money keeps order across the change of step at 5 000 000, and is a positive multiple of 100 000. */
  lemma RoundMoneyGrows(x: real, y: real)
    requires x <= y
    ensures 100000 <= RoundMoney(x) <= RoundMoney(y)
    ensures RoundMoney(x) % 100000 == 0 && (x >= 5000000.0 ==> RoundMoney(x) % 500000 == 0)
  {
    hide Round;
    SmallSteps(x);
    SmallSteps(y);
    LargeSteps(x);
    LargeSteps(y);
    RoundMonotone(x / 100000.0, y / 100000.0);
    RoundMonotone(x / 500000.0, y / 500000.0);
  }

  lemma SmallSteps(x: real)
    ensures x < 5000000.0 ==> Round(x / 100000.0) <= 50
  {
  }

  lemma LargeSteps(x: real)
    ensures x >= 5000000.0 ==> Round(x / 500000.0) >= 10
  {
  }

  // Raising prices.

  /** The same samples with no positive price lowered. */
  predicate Raised(a: seq<Sample>, b: seq<Sample>) {
    |a| == |b| && forall i :: 0 <= i < |a| ==> RaisedOne(a[i], b[i])
  }

  predicate RaisedOne(a: Sample, b: Sample) {
    b == a.(price := b.price) && (b.price == a.price || 0 < a.price <= b.price)
  }

  predicate RaisedRows(a: seq<Ranked>, b: seq<Ranked>) {
    |a| == |b| && forall i :: 0 <= i < |a| ==> RaisedOne(a[i].sample, b[i].sample) && a[i].score == b[i].score
  }

  lemma {:induction false} PricedRaised(a: seq<Sample>, b: seq<Sample>)
    requires Raised(a, b)
    ensures Raised(Priced(a), Priced(b))
    ensures forall s :: s in Priced(a) ==> s.price > 0
  {
    if a != [] {
      PricedRaised(a[..|a| - 1], b[..|b| - 1]);
    }
  }

  lemma {:induction false} PlacedRaised(a: seq<Ranked>, x: Ranked, b: seq<Ranked>, y: Ranked)
    requires RaisedRows(a, b) && RaisedOne(x.sample, y.sample) && x.score == y.score
    ensures RaisedRows(Placed(a, x), Placed(b, y))
  {
    if a != [] && !InFront(a[|a| - 1], x) {
      PlacedRaised(a[..|a| - 1], x, b[..|b| - 1], y);
    }
  }

  lemma SameScore(draft: Draft, a: Sample, b: Sample)
    requires RaisedOne(a, b)
    ensures SampleScore(draft, a) == SampleScore(draft, b)
  {
    hide Round, Overlap;
  }

  lemma {:induction false} RankRaised(draft: Draft, a: seq<Sample>, b: seq<Sample>)
    requires Raised(a, b)
    ensures RaisedRows(Rank(draft, a), Rank(draft, b))
  {
    hide SampleScore;
    if a != [] {
      var k := |a| - 1;
      RankRaised(draft, a[..k], b[..k]);
      SameScore(draft, a[k], b[k]);
      PlacedRaised(Rank(draft, a[..k]), Ranked(a[k], SampleScore(draft, a[k])),
                   Rank(draft, b[..k]), Ranked(b[k], SampleScore(draft, b[k])));
    }
  }

  lemma {:induction false} SizedRaised(band: int, a: seq<Ranked>, b: seq<Ranked>)
    requires RaisedRows(a, b)
    ensures RaisedRows(SizedRows(band, a), SizedRows(band, b))
  {
    if a != [] {
      SizedRaised(band, a[..|a| - 1], b[..|b| - 1]);
    }
  }

  lemma PickedRaised(draft: Draft, a: seq<Sample>, b: seq<Sample>)
    requires Raised(a, b)
    ensures RaisedRows(Picked(draft, a), Picked(draft, b))
  {
    hide Rank, Priced, SizedRows;
    PricedRaised(a, b);
    RankRaised(draft, Priced(a), Priced(b));
    SizedRaised(draft.band, Rank(draft, Priced(a)), Rank(draft, Priced(b)));
  }

  lemma {:induction false} PickedPositive(draft: Draft, samples: seq<Sample>)
    ensures forall r :: r in Picked(draft, samples) ==> r.sample.price > 0
  {
    hide SampleScore;
    PricedRaised(samples, samples);
    RankOrder(draft, Priced(samples));
    var rows := Rank(draft, Priced(samples));
    SizedOrder(draft.band, rows);
    forall r | r in Picked(draft, samples)
      ensures r.sample.price > 0
    {
      assert r in SizedRows(draft.band, rows);
      assert r in multiset(rows);
      assert r in Scored(draft, Priced(samples));
    }
  }

  lemma MultiplierPositive(draft: Draft, picked: seq<Ranked>, ratios: seq<real>)
    ensures Multiplier(draft, picked, ratios) > 0.0
  {
    hide Median, Usable;
    var f := CalibrationFactor(ratios);
    assert f >= 0.75;
    var sampleBand := if picked == [] then draft.band as real else Median(Bands(picked));
    var size := RealMin(1.8, RealMax(0.7, 1.0 + (draft.band as real - sampleBand) * 0.45));
    assert size >= 0.7;
    var color := if draft.colorMode == "full" then 1.12 else if draft.colorMode == "accent" then 1.05 else 1.0;
    assert size * color >= 0.7 by {
      assert size * color >= size;
    }
    ProductPositive(size * color, f);
  }

  lemma ProductPositive(a: real, b: real)
    requires a > 0.0 && b > 0.0
    ensures a * b > 0.0
  {
  }

  lemma ScaledGrows(a: real, b: real, k: real, more: real)
    requires 0.0 < a <= b && 0.0 < k <= more
    ensures 0.0 < Scaled(a, k) <= Scaled(b, k)
    ensures Scaled(a, k) <= Scaled(a, more)
  {
    ProductPositive(a, k);
    if a < b {
      ProductPositive(b - a, k);
      assert b * k == a * k + (b - a) * k;
    }
    if k < more {
      ProductPositive(a, more - k);
      assert a * more == a * k + a * (more - k);
    }
  }

  lemma SameMultiplier(draft: Draft, a: seq<Ranked>, b: seq<Ranked>, ratios: seq<real>)
    requires RaisedRows(a, b)
    ensures Multiplier(draft, a, ratios) == Multiplier(draft, b, ratios)
  {
    hide Median, CalibrationFactor, RealMin, RealMax;
    assert Bands(a) == Bands(b);
  }

  /** Prices are at least 1, so a median of positive whole prices is positive. */
  lemma MedianPositive(draft: Draft, samples: seq<Sample>)
    requires Picked(draft, samples) != []
    ensures Median(Prices(Picked(draft, samples))) >= 1.0
  {
    hide Median, Picked;
    var picked := Picked(draft, samples);
    PickedPositive(draft, samples);
    HighLow(picked);
    forall v | v in Prices(picked)
      ensures 1.0 <= v <= HighestPrice(picked) as real
    {
      var i :| 0 <= i < |picked| && Prices(picked)[i] == v;
      assert picked[i] in picked;
    }
    MedianBetween(Prices(picked), 1, HighestPrice(picked));
  }

  lemma {:induction false} HighLow(rows: seq<Ranked>)
    requires rows != []
    ensures forall r :: r in rows ==> LowestPrice(rows) <= r.sample.price <= HighestPrice(rows)
  {
    var k := |rows| - 1;
    if k > 0 {
      HighLow(rows[..k]);
    }
    assert rows == rows[..k] + [rows[k]];
  }

  /**
   * Raising sample prices never lowers an estimate: with everything else fixed, an estimate is given for
   * the one list exactly when it is given for the other, and neither bound falls.
   */
  lemma RaisingPricesRaisesEstimate(draft: Draft, a: seq<Sample>, b: seq<Sample>, ratios: seq<real>)
    requires Raised(a, b)
    ensures var e, f := EstimateTattooPrice(draft, a, ratios), EstimateTattooPrice(draft, b, ratios);
            && (e.minToman.Some? <==> f.minToman.Some?) && (e.maxToman.Some? <==> f.maxToman.Some?)
            && (e.minToman.Some? ==> e.minToman.value <= f.minToman.value)
            && (e.maxToman.Some? ==> e.maxToman.value <= f.maxToman.value)
  {
    hide Picked, Median, RoundMoney, Multiplier, LowestPrice, HighestPrice, Complexity, Scaled;
    PickedRaised(draft, a, b);
    var p, q := Picked(draft, a), Picked(draft, b);
    SameMultiplier(draft, p, q, ratios);
    MultiplierPositive(draft, p, ratios);
    var m := Multiplier(draft, p, ratios);
    if |p| >= 2 {
      MedianPositive(draft, a);
      MedianPositive(draft, b);
      MedianGrows(Prices(p), Prices(q));
      BoundsGrow(Median(Prices(p)), Median(Prices(q)), m, Spread(p));
    }
  }

  lemma BoundsGrow(low: real, high: real, m: real, spread: real)
    requires 0.0 < low <= high && m > 0.0 && 0.0 <= spread < 1.0
    ensures var x, y := Scaled(low, m), Scaled(high, m);
            && RoundMoney(Scaled(x, 1.0 - spread)) <= RoundMoney(Scaled(y, 1.0 - spread))
            && RoundMoney(Scaled(x, 1.0 + spread)) <= RoundMoney(Scaled(y, 1.0 + spread))
            && 100000 <= RoundMoney(Scaled(x, 1.0 - spread)) <= RoundMoney(Scaled(x, 1.0 + spread))
  {
    hide RoundMoney, Scaled;
    var x, y := Scaled(low, m), Scaled(high, m);
    ScaledGrows(low, high, m, m);
    ScaledBoundsGrow(x, y, spread);
    ScaledGrows(x, y, 1.0 - spread, 1.0 + spread);
    RoundMoneyGrows(Scaled(x, 1.0 - spread), Scaled(x, 1.0 + spread));
  }

  /** Money is rounded to the nearest step, half up, and up to one step at least. */
  lemma RoundMoneyNearest(x: real)
    ensures var step, r := if x >= 5000000.0 then 500000 else 100000, RoundMoney(x);
            && r % step == 0
            && (if x >= step as real / 2.0 then -(step as real) / 2.0 < r as real - x <= step as real / 2.0
                else r == step)
  {
    hide Round;
    var step := if x >= 5000000.0 then 500000 else 100000;
    var y := x / step as real;
    RoundBounds(y);
    assert y * step as real == x;
    if x >= step as real / 2.0 {
      RoundMonotone(0.5, y);
      HalfIsOne();
    } else {
      RoundMonotone(y, 0.5);
      HalfIsOne();
    }
  }

  lemma HalfIsOne()
    ensures Round(0.5) == 1
  {
  }

  function Clamped(low: real, x: real, high: real): real {
    if x < low then low else if x > high then high else x
  }

  function SizeFactor(band: real, mid: real): real {
    Clamped(0.7, 1.0 + (band - mid) * 0.45, 1.8)
  }

  function ColorFactor(mode: string): real {
    if mode == "full" then 1.12 else if mode == "accent" then 1.05 else 1.0
  }

  /** Three usable ratios are enough: their middle, within bounds. */
  function UsualFactor(w: seq<real>): real {
    if |w| < 3 then 1.0 else Clamped(0.75, Middle(w), 1.6)
  }

  lemma OneMore(front: seq<real>, x: real, v: real)
    ensures multiset(front + [x])[v] == multiset(front)[v] + (if x == v then 1 else 0)
  {
  }

  lemma UsableSnoc(front: seq<real>, x: real)
    ensures Usable(front + [x]) == if x > 0.0 then Usable(front) + [x] else Usable(front)
  {
    assert (front + [x])[..|front|] == front;
  }

  lemma {:induction false} UsableCounts(ratios: seq<real>, v: real)
    ensures multiset(Usable(ratios))[v] == if v > 0.0 then multiset(ratios)[v] else 0
  {
    if ratios != [] {
      hide Usable;
      var front, x := ratios[..|ratios| - 1], ratios[|ratios| - 1];
      LastApart(ratios);
      UsableCounts(front, v);
      UsableSnoc(front, x);
      OneMore(front, x, v);
      OneMore(Usable(front), x, v);
    }
  }

  lemma FactorIs(ratios: seq<real>, w: seq<real>)
    requires Ascending(w) && forall v :: multiset(w)[v] == if v > 0.0 then multiset(ratios)[v] else 0
    ensures CalibrationFactor(ratios) == UsualFactor(w)
  {
    hide Median, Middle, Usable;
    forall v
      ensures multiset(w)[v] == multiset(Usable(ratios))[v]
    {
      UsableCounts(ratios, v);
    }
    assert multiset(w) == multiset(Usable(ratios));
    SameLength(w, Usable(ratios));
    if w != [] {
      MedianIsMiddle(Usable(ratios), w);
    }
  }

  lemma MultiplierIs(draft: Draft, picked: seq<Ranked>, ratios: seq<real>, mid: real, factor: real)
    requires picked != [] && mid == Median(Bands(picked)) && factor == CalibrationFactor(ratios)
    ensures Multiplier(draft, picked, ratios) ==
              SizeFactor(draft.band as real, mid) * ColorFactor(draft.colorMode) * factor
  {
    hide Median, CalibrationFactor;
    var x := 1.0 + (draft.band as real - mid) * 0.45;
    assert RealMin(1.8, RealMax(0.7, x)) == Clamped(0.7, x, 1.8);
  }

  lemma ScaledIs(price: real, factor: real)
    ensures Scaled(price, factor) == price * factor
  {
  }

  /** The middle price times a factor, and a range around it that is narrower from four samples on. */
  predicate RangeAround(e: TattooEstimate, picked: seq<Ranked>, mid: real, factor: real) {
    var price := Scaled(mid, factor);
    var spread := if |picked| >= 4 then 0.16 else 0.28;
    && e.median == Some(mid) && e.similar == picked && e.similarCount == |picked|
    && e.minToman == Some(RoundMoney(Scaled(price, 1.0 - spread)))
    && e.maxToman == Some(RoundMoney(Scaled(price, 1.0 + spread)))
  }

  lemma EstimateParts(draft: Draft, samples: seq<Sample>, ratios: seq<real>)
    requires |Picked(draft, samples)| >= 2
    ensures var picked, e := Picked(draft, samples), EstimateTattooPrice(draft, samples, ratios);
            && RangeAround(e, picked, Median(Prices(picked)), Multiplier(draft, picked, ratios))
            && e.confidence == if |picked| >= 4 && picked[0].score >= 50 then High else Mid
  {
    hide Picked, Median, RoundMoney, LowestPrice, HighestPrice, Complexity, Multiplier, Sessions, Scaled;
    MedianPositive(draft, samples);
  }

  /**
   * The estimate in full, from the picked samples' prices, their size bands and the usable ratios in
   * order: two samples give a range around the middle price, scaled by size, colour and calibration.
   */
  lemma EstimateIs(draft: Draft, samples: seq<Sample>, ratios: seq<real>, t: seq<real>, u: seq<real>, w: seq<real>)
    requires var picked := Picked(draft, samples);
             && |picked| >= 2 && t != [] && u != []
             && Ascending(t) && multiset(t) == multiset(seq(|picked|,
                 i requires 0 <= i < |picked| => picked[i].sample.price as real))
             && Ascending(u) && multiset(u) == multiset(seq(|picked|,
                 i requires 0 <= i < |picked| => picked[i].sample.band as real))
    requires Ascending(w) && forall v :: multiset(w)[v] == if v > 0.0 then multiset(ratios)[v] else 0
    ensures var picked, e := Picked(draft, samples), EstimateTattooPrice(draft, samples, ratios);
            var factor := SizeFactor(draft.band as real, Middle(u)) * ColorFactor(draft.colorMode) * UsualFactor(w);
            && RangeAround(e, picked, Middle(t), factor)
            && e.confidence == if |picked| >= 4 && picked[0].score >= 50 then High else Mid
  {
    hide Picked, Median, Middle, RoundMoney, Multiplier, SizeFactor, ColorFactor, UsualFactor, RangeAround,
        EstimateTattooPrice;
    var picked := Picked(draft, samples);
    assert Prices(picked) == seq(|picked|, i requires 0 <= i < |picked| => picked[i].sample.price as real);
    assert Bands(picked) == seq(|picked|, i requires 0 <= i < |picked| => picked[i].sample.band as real);
    MedianIsMiddle(Prices(picked), t);
    MedianIsMiddle(Bands(picked), u);
    FactorIs(ratios, w);
    MultiplierIs(draft, picked, ratios, Middle(u), UsualFactor(w));
    EstimateParts(draft, samples, ratios);
    var e := EstimateTattooPrice(draft, samples, ratios);
    assert RangeAround(e, picked, Middle(t), Multiplier(draft, picked, ratios));
    assert Multiplier(draft, picked, ratios) ==
        SizeFactor(draft.band as real, Middle(u)) * ColorFactor(draft.colorMode) * UsualFactor(w);
  }

  /** Fewer than two samples of the right size: no price, little confidence. */
  lemma NoEstimate(draft: Draft, samples: seq<Sample>, ratios: seq<real>)
    requires |Picked(draft, samples)| < 2
    ensures var e := EstimateTattooPrice(draft, samples, ratios);
            && e.minToman == None && e.maxToman == None && e.confidence == Low
            && e.similar == Picked(draft, samples) && e.similarCount == |e.similar|
  {
    hide Picked, Median, Complexity;
  }

  /** Work: fifty minutes a point of complexity, in as few sessions of three hours as hold it. */
  lemma WorkIs(draft: Draft, samples: seq<Sample>, ratios: seq<real>)
    ensures var e := EstimateTattooPrice(draft, samples, ratios);
            var rework := draft.requestType == "coverup" || draft.requestType == "repair";
            var points := draft.band + (if rework then 2 else 0) + (if draft.colorMode == "full" then 1 else 0)
                          + (if draft.imageCount > 3 then 1 else 0) + (if draft.ideaLength > 280 then 1 else 0);
            && (1 <= points <= 10 ==> e.complexity == points)
            && (points < 1 ==> e.complexity == 1) && (points > 10 ==> e.complexity == 10)
            && e.minutes == 50 * e.complexity
            && e.sessions >= 1 && (e.sessions - 1) * 180 < e.minutes <= e.sessions * 180
            && e.validSamples == |Priced(samples)|
  {
    hide Picked, Median, Multiplier, RoundMoney, Priced, LowestPrice, HighestPrice, Scaled;
  }

  /** The cheapest and the dearest picked price are prices of picked samples. */
  lemma {:induction false} HighLowTaken(rows: seq<Ranked>)
    requires rows != []
    ensures exists r :: r in rows && r.sample.price == LowestPrice(rows)
    ensures exists r :: r in rows && r.sample.price == HighestPrice(rows)
  {
    var k := |rows| - 1;
    assert rows == rows[..k] + [rows[k]];
    assert rows[k] in rows;
    if k > 0 {
      HighLowTaken(rows[..k]);
      var a :| a in rows[..k] && a.sample.price == LowestPrice(rows[..k]);
      var b :| b in rows[..k] && b.sample.price == HighestPrice(rows[..k]);
      assert a in rows && b in rows;
    }
  }

  /** The bounds are in order, and the median lies between the cheapest and the dearest picked price. */
  lemma EstimateOrdered(draft: Draft, samples: seq<Sample>, ratios: seq<real>)
    ensures var e := EstimateTattooPrice(draft, samples, ratios);
            && (e.minToman.Some? <==> e.similarCount >= 2) && (e.maxToman.Some? <==> e.similarCount >= 2)
            && (e.minToman.Some? ==> 100000 <= e.minToman.value <= e.maxToman.value)
            && (e.similarCount > 0 ==>
                  && e.similarMin.Some? && e.similarMax.Some? && e.median.Some?
                  && e.similarMin.value as real <= e.median.value <= e.similarMax.value as real)
  {
    hide Picked, Median, RoundMoney, Multiplier, LowestPrice, HighestPrice, Complexity, Scaled;
    var p := Picked(draft, samples);
    var m := Multiplier(draft, p, ratios);
    if p != [] {
      MedianPositive(draft, samples);
      HighLow(p);
      forall v | v in Prices(p)
        ensures LowestPrice(p) as real <= v <= HighestPrice(p) as real
      {
        var i :| 0 <= i < |p| && Prices(p)[i] == v;
        assert p[i] in p;
      }
      MedianBetween(Prices(p), LowestPrice(p), HighestPrice(p));
      MultiplierPositive(draft, p, ratios);
      BoundsGrow(Median(Prices(p)), Median(Prices(p)), m, Spread(p));
    }
  }

  // Calibration.

  /**
   * The factor stays within 0.75 and 1.6; with an even number of usable ratios rounding leaves only 0.75,
   * 1 and 1.6.
   */
  lemma CalibrationRange(ratios: seq<real>)
    ensures 0.75 <= CalibrationFactor(ratios) <= 1.6
    ensures |Usable(ratios)| % 2 == 0 ==> CalibrationFactor(ratios) in {0.75, 1.0, 1.6}
  {
    hide Sorted;
  }

  /** Some positive ratios raised; the others, usable or not, as they were. */
  predicate RatiosRaised(a: seq<real>, b: seq<real>) {
    |a| == |b| && forall i :: 0 <= i < |a| ==> a[i] == b[i] || 0.0 < a[i] <= b[i]
  }

  lemma {:induction false} UsableRaised(a: seq<real>, b: seq<real>)
    requires RatiosRaised(a, b)
    ensures Below(Usable(a), Usable(b))
  {
    if a != [] {
      UsableRaised(a[..|a| - 1], b[..|b| - 1]);
    }
  }

  /** Raising past ratios never lowers the factor. */
  lemma CalibrationGrows(a: seq<real>, b: seq<real>)
    requires RatiosRaised(a, b)
    ensures CalibrationFactor(a) <= CalibrationFactor(b)
  {
    hide Median, Usable;
    UsableRaised(a, b);
    MedianGrows(Usable(a), Usable(b));
  }

  lemma MultiplierGrows(draft: Draft, picked: seq<Ranked>, a: seq<real>, b: seq<real>)
    requires RatiosRaised(a, b)
    ensures 0.0 < Multiplier(draft, picked, a) <= Multiplier(draft, picked, b)
  {
    hide Multiplier, SizeAndColor, CalibrationFactor, RatiosRaised;
    CalibrationGrows(a, b);
    CalibrationRange(a);
    CalibrationRange(b);
    MultiplierPositive(draft, picked, a);
    var k := SizeAndColor(draft, picked);
    SizeAndColorPositive(draft, picked);
    ProductGrows(k, CalibrationFactor(a), CalibrationFactor(b));
    MultiplierSplit(draft, picked, a);
    MultiplierSplit(draft, picked, b);
  }

  /** The factors of the multiplier that do not come from past ratios. */
  function SizeAndColor(draft: Draft, picked: seq<Ranked>): real {
    var sampleBand := if picked == [] then draft.band as real else Median(Bands(picked));
    var size := RealMin(1.8, RealMax(0.7, 1.0 + (draft.band as real - sampleBand) * 0.45));
    size * (if draft.colorMode == "full" then 1.12 else if draft.colorMode == "accent" then 1.05 else 1.0)
  }

  lemma MultiplierSplit(draft: Draft, picked: seq<Ranked>, ratios: seq<real>)
    ensures Multiplier(draft, picked, ratios) == SizeAndColor(draft, picked) * CalibrationFactor(ratios)
  {
    hide Median, CalibrationFactor, RealMin, RealMax;
  }

  lemma SizeAndColorPositive(draft: Draft, picked: seq<Ranked>)
    ensures SizeAndColor(draft, picked) > 0.0
  {
    hide Median;
  }

  lemma ProductGrows(k: real, a: real, b: real)
    requires k > 0.0 && a <= b
    ensures k * a <= k * b
  {
  }

  /** Raising past ratios never lowers an estimate either, nor withdraws it. */
  lemma RaisingRatiosRaisesEstimate(draft: Draft, samples: seq<Sample>, a: seq<real>, b: seq<real>)
    requires RatiosRaised(a, b)
    ensures var e, f := EstimateTattooPrice(draft, samples, a), EstimateTattooPrice(draft, samples, b);
            && (e.minToman.Some? <==> f.minToman.Some?) && (e.maxToman.Some? <==> f.maxToman.Some?)
            && (e.minToman.Some? ==> e.minToman.value <= f.minToman.value)
            && (e.maxToman.Some? ==> e.maxToman.value <= f.maxToman.value)
  {
    hide Picked, Median, RoundMoney, Multiplier, LowestPrice, HighestPrice, Complexity, Scaled, RatiosRaised;
    var p := Picked(draft, samples);
    MultiplierGrows(draft, p, a, b);
    if |p| >= 2 {
      MedianPositive(draft, samples);
      var m, x, y := Median(Prices(p)), Multiplier(draft, p, a), Multiplier(draft, p, b);
      ScaledGrows(m, m, x, y);
      ScaledGrows(m, m, x, x);
      ScaledBoundsGrow(Scaled(m, x), Scaled(m, y), Spread(p));
    }
  }

  lemma ScaledBoundsGrow(x: real, y: real, spread: real)
    requires 0.0 < x <= y && 0.0 <= spread < 1.0
    ensures RoundMoney(Scaled(x, 1.0 - spread)) <= RoundMoney(Scaled(y, 1.0 - spread))
    ensures RoundMoney(Scaled(x, 1.0 + spread)) <= RoundMoney(Scaled(y, 1.0 + spread))
  {
    hide RoundMoney, Scaled;
    ScaledGrows(x, y, 1.0 - spread, 1.0 - spread);
    ScaledGrows(x, y, 1.0 + spread, 1.0 + spread);
    RoundMoneyGrows(Scaled(x, 1.0 - spread), Scaled(y, 1.0 - spread));
    RoundMoneyGrows(Scaled(x, 1.0 + spread), Scaled(y, 1.0 + spread));
  }
}
