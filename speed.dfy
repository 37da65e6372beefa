/**
 * The scroll-speed estimate of Main.kt: for every two consecutive non-empty frames of a key
 * the offset with the best cross-correlation (`getCrossOffset`), summed per key
 * (`estimateKeySpeed`) and averaged over all keys (`estimateSpeed`).
 */
module Speed {
  import opened Spans
  import opened Sequences
  import opened CrossCorrelation

  /** The scores of the offsets `1 .. n - 1`, score `i` at index `i - 1`. */
  function Scores(frame1: seq<Span>, frame2: seq<Span>, n: int): (r: seq<real>)
    requires PotentialOverlap(frame1, frame2) != 0.0
    ensures |r| == if n <= 1 then 0 else n - 1
    decreases n
  {
    if n <= 1 then [] else Scores(frame1, frame2, n - 1) + [Correlation(frame1, frame2, n - 1)]
  }

  lemma {:induction false} ScoresAt(frame1: seq<Span>, frame2: seq<Span>, n: int, i: int)
    requires PotentialOverlap(frame1, frame2) != 0.0
    requires 0 <= i < n - 1
    ensures Scores(frame1, frame2, n)[i] == Correlation(frame1, frame2, i + 1)
    decreases n
  {
    if i < n - 2 {
      ScoresAt(frame1, frame2, n - 1, i);
    }
  }

  /** The offsets (one-based positions) of the scores equal to `m`, in increasing order. */
  function Ties(s: seq<real>, m: real): seq<int>
  {
    if s == [] then [] else Ties(s[..|s| - 1], m) + (if s[|s| - 1] == m then [|s|] else [])
  }

  function IntSum(xs: seq<int>): int
  {
    if xs == [] then 0 else xs[0] + IntSum(xs[1..])
  }

  /** Kotlin's `List<Int>.average()` on a non-empty list. */
  function Mean(xs: seq<int>): real
    requires xs != []
  {
    IntSum(xs) as real / |xs| as real
  }

  /** The mean of the offsets in `1 .. imgHeight - 1` whose score is the highest. */
  function CrossOffset(frame1: seq<Span>, frame2: seq<Span>, imgHeight: int): real
    requires PotentialOverlap(frame1, frame2) != 0.0
    requires imgHeight >= 2
  {
    var s := Scores(frame1, frame2, imgHeight);
    TiesOfMax(s);
    Mean(Ties(s, Max(s)))
  }

  /** `Ties` holds exactly the offsets whose score is `m`. */
  lemma {:induction false} TiesSpec(s: seq<real>, m: real)
    ensures forall o :: o in Ties(s, m) <==> 1 <= o <= |s| && s[o - 1] == m
  {
    if s != [] {
      var init := s[..|s| - 1];
      TiesSpec(init, m);
      assert forall i :: 0 <= i < |init| ==> init[i] == s[i];
    }
  }

  lemma TiesOfMax(s: seq<real>)
    requires s != []
    ensures Ties(s, Max(s)) != []
  {
    TiesSpec(s, Max(s));
    var i :| 0 <= i < |s| && s[i] == Max(s);
    assert i + 1 in Ties(s, Max(s));
  }

  lemma TiesSnoc(s: seq<real>, c: real, m: real)
    ensures Ties(s + [c], m) == Ties(s, m) + (if c == m then [|s| + 1] else [])
  {
    assert (s + [c])[..|s|] == s;
  }

  lemma {:induction false} TiesNone(s: seq<real>, m: real)
    requires forall i :: 0 <= i < |s| ==> s[i] < m
    ensures Ties(s, m) == []
  {
    if s != [] {
      TiesNone(s[..|s| - 1], m);
    }
  }

  lemma MaxSnoc(s: seq<real>, c: real)
    requires s != []
    ensures Max(s + [c]) == if c > Max(s) then c else Max(s)
  {
    var m := Max(s + [c]);
    assert Max(s) in s + [c];
    assert c == (s + [c])[|s|];
    if c <= Max(s) {
      assert forall i :: 0 <= i < |s| ==> (s + [c])[i] == s[i];
    }
  }

  lemma {:induction false} MeanBounds(xs: seq<int>, lo: int, hi: int)
    requires forall i :: 0 <= i < |xs| ==> lo <= xs[i] <= hi
    ensures |xs| * lo <= IntSum(xs) <= |xs| * hi
  {
    if xs != [] {
      MeanBounds(xs[1..], lo, hi);
    }
  }

  lemma MeanIn(xs: seq<int>, lo: int, hi: int)
    requires xs != []
    requires forall i :: 0 <= i < |xs| ==> lo <= xs[i] <= hi
    ensures lo as real <= Mean(xs) <= hi as real
  {
    MeanBounds(xs, lo, hi);
    ProductBoundsAsReal(|xs|, IntSum(xs), lo, hi);
    DivBounds(IntSum(xs) as real, |xs| as real, lo as real, hi as real);
  }

  lemma ProductBoundsAsReal(n: int, x: int, lo: int, hi: int)
    requires n * lo <= x <= n * hi
    ensures n as real * lo as real <= x as real <= n as real * hi as real
  {
    assert (n * lo) as real == n as real * lo as real;
    assert (n * hi) as real == n as real * hi as real;
  }

  /** The mean of the offsets of the best scores lies between the first and the last offset. */
  lemma MeanTiesBounds(s: seq<real>)
    requires s != []
    ensures Ties(s, Max(s)) != []
    ensures 1.0 <= Mean(Ties(s, Max(s))) <= |s| as real
  {
    var t := Ties(s, Max(s));
    TiesOfMax(s);
    TiesSpec(s, Max(s));
    assert forall i :: 0 <= i < |t| ==> t[i] in t;
    MeanIn(t, 1, |s|);
  }

  /** The cross offset lies in `1 .. imgHeight - 1`. */
  lemma CrossOffsetBounds(frame1: seq<Span>, frame2: seq<Span>, imgHeight: int)
    requires PotentialOverlap(frame1, frame2) != 0.0
    requires imgHeight >= 2
    ensures 1.0 <= CrossOffset(frame1, frame2, imgHeight) <= (imgHeight - 1) as real
  {
    MeanTiesBounds(Scores(frame1, frame2, imgHeight));
  }

  lemma DivBounds(x: real, n: real, lo: real, hi: real)
    requires n > 0.0 && n * lo <= x <= n * hi
    ensures lo <= x / n <= hi
  {
    assert (x / n) * n == x;
  }

  /** When the second frame is the first moved by an offset that is tried, that offset is
      among the best ones. */
  lemma CrossOffsetFindsShift(frame: seq<Span>, offset: int, imgHeight: int)
    requires AllWellFormed(frame) && Disjoint(frame) && TotalLength(frame) > 0.0
    requires 1 <= offset < imgHeight
    ensures PotentialOverlap(frame, Shift(frame, offset as real)) != 0.0
    ensures var s := Scores(frame, Shift(frame, offset as real), imgHeight); offset in Ties(s, Max(s))
  {
    var frame2 := Shift(frame, offset as real);
    CorrelationAtExactShift(frame, offset);
    ShiftLength(frame, offset as real);
    var s := Scores(frame, frame2, imgHeight);
    assert AllWellFormed(frame2) by {
      ShiftWellFormed(frame, offset as real);
    }
    CorrelationBounds(frame, frame2, offset);
    forall i | 0 <= i < |s| ensures s[i] <= 1.0 {
      ScoresAt(frame, frame2, imgHeight, i);
      CorrelationBounds(frame, frame2, i + 1);
    }
    ScoresAt(frame, frame2, imgHeight, offset - 1);
    assert s[offset - 1] == 1.0;
    TiesSpec(s, Max(s));
  }

  /** A score reached at exactly one offset is tied at that offset alone. */
  lemma {:induction false} TiesSingle(s: seq<real>, m: real, k: int)
    requires 1 <= k <= |s| && s[k - 1] == m
    requires forall i :: 0 <= i < |s| && i != k - 1 ==> s[i] < m
    ensures Ties(s, m) == [k]
  {
    var init := s[..|s| - 1];
    assert forall i :: 0 <= i < |init| ==> init[i] == s[i];
    if |s| == k {
      TiesNone(init, m);
    } else {
      TiesSingle(init, m, k);
    }
  }

  /** A score reached at exactly one offset is the best one, and the mean of the best offsets
      is that offset. */
  lemma SingleBest(s: seq<real>, m: real, k: int)
    requires 1 <= k <= |s| && s[k - 1] == m
    requires forall i :: 0 <= i < |s| && i != k - 1 ==> s[i] < m
    ensures Max(s) == m && Ties(s, Max(s)) == [k] && Mean(Ties(s, Max(s))) == k as real
  {
    assert Max(s) == m;
    TiesSingle(s, m, k);
    assert IntSum([k]) == k;
  }

  /** Against its shifted copy a frame scores 1 at the shift and below 1 at every other offset. */
  lemma ScoresOfShift(frame: seq<Span>, offset: int, imgHeight: int)
    requires PositiveNotes(frame) && Disjoint(frame) && frame != []
    requires 1 <= offset < imgHeight
    ensures PotentialOverlap(frame, Shift(frame, offset as real)) != 0.0
    ensures var s := Scores(frame, Shift(frame, offset as real), imgHeight);
      s[offset - 1] == 1.0 && forall i :: 0 <= i < |s| && i != offset - 1 ==> s[i] < 1.0
  {
    var frame2 := Shift(frame, offset as real);
    PositiveTotal(frame);
    CorrelationAtExactShift(frame, offset);
    var s := Scores(frame, frame2, imgHeight);
    ScoresAt(frame, frame2, imgHeight, offset - 1);
    forall i | 0 <= i < |s| && i != offset - 1 ensures s[i] < 1.0 {
      ScoresAt(frame, frame2, imgHeight, i);
      CorrelationOffShift(frame, offset, i + 1);
    }
  }

  /** When the second frame is the first, of disjoint notes of positive length, moved by an
      offset that is tried, every other offset scores below 1, so the cross offset is exactly
      that offset. */
  lemma CrossOffsetIsShift(frame: seq<Span>, offset: int, imgHeight: int)
    requires PositiveNotes(frame) && Disjoint(frame) && frame != []
    requires 1 <= offset < imgHeight
    ensures PotentialOverlap(frame, Shift(frame, offset as real)) != 0.0
    ensures CrossOffset(frame, Shift(frame, offset as real), imgHeight) == offset as real
  {
    ScoresOfShift(frame, offset, imgHeight);
    SingleBest(Scores(frame, Shift(frame, offset as real), imgHeight), 1.0, offset);
  }

  /** The notes `(0,12),(30,35)` seen again as `(13,25),(43,48)` have moved by 13 pixels, and
      the cross offset is 13 for every image height that tries offset 13. */
  lemma CrossOffsetExample(imgHeight: int)
    requires imgHeight > 13
    ensures PotentialOverlap([Span(0.0, 12.0), Span(30.0, 35.0)], [Span(13.0, 25.0), Span(43.0, 48.0)]) != 0.0
    ensures CrossOffset([Span(0.0, 12.0), Span(30.0, 35.0)], [Span(13.0, 25.0), Span(43.0, 48.0)], imgHeight) == 13.0
  {
    var before := [Span(0.0, 12.0), Span(30.0, 35.0)];
    assert Shift(before, 13 as real) == [Span(13.0, 25.0), Span(43.0, 48.0)];
    CrossOffsetIsShift(before, 13, imgHeight);
  }

  /** What the loop of `getCrossOffset` keeps about the scores `seen` so far: the highest one
      and the offsets that reach it, or 0 and no offsets before the first score. */
  predicate Best(seen: seq<real>, biggest: real, best: seq<int>)
  {
    (seen == [] ==> biggest == 0.0 && best == [])
    && (seen != [] ==> biggest == Max(seen) && best == Ties(seen, biggest))
  }

  /** One step of `getCrossOffset` keeps the best score and its offsets. */
  lemma BestStep(seen: seq<real>, c: real, biggest: real, best: seq<int>)
    requires 0.0 <= c && Best(seen, biggest, best)
    ensures c > biggest ==> Best(seen + [c], c, [|seen| + 1])
    ensures c == biggest ==> Best(seen + [c], biggest, best + [|seen| + 1])
    ensures c < biggest ==> Best(seen + [c], biggest, best)
  {
    TiesSnoc(seen, c, c);
    TiesSnoc(seen, c, biggest);
    if seen == [] {
      assert [] + [c] == [c];
    } else {
      MaxSnoc(seen, c);
      if c > biggest {
        TiesNone(seen, c);
      }
    }
  }

  /** The body of the loop of `getCrossOffset`: the score of one more offset. */
  method ScoreOffset(frame1: seq<Span>, frame2: seq<Span>, offset: int, ghost seen: seq<real>,
                     biggest0: real, best0: seq<int>)
    returns (biggestCorrelation: real, bestScores: seq<int>)
    requires AllWellFormed(frame1) && AllWellFormed(frame2)
    requires PotentialOverlap(frame1, frame2) != 0.0
    requires |seen| + 1 == offset && Best(seen, biggest0, best0)
    ensures Best(seen + [Correlation(frame1, frame2, offset)], biggestCorrelation, bestScores)
  {
    biggestCorrelation, bestScores := biggest0, best0;
    var correlation := CalculateCrossCorrelation(frame1, frame2, offset);
    CorrelationBounds(frame1, frame2, offset);
    BestStep(seen, correlation, biggestCorrelation, bestScores);
    if correlation > biggestCorrelation {
      biggestCorrelation := correlation;
      bestScores := [];
      bestScores := bestScores + [offset];
    } else if correlation == biggestCorrelation {
      bestScores := bestScores + [offset];
    }
  }

  /** `getCrossOffset`. */
  method GetCrossOffset(frame1: seq<Span>, frame2: seq<Span>, imgHeight: int) returns (r: real)
    requires AllWellFormed(frame1) && AllWellFormed(frame2)
    requires PotentialOverlap(frame1, frame2) != 0.0
    requires imgHeight >= 2
    ensures r == CrossOffset(frame1, frame2, imgHeight)
  {
    var biggestCorrelation := 0.0;
    var bestScores: seq<int> := [];
    var offset := 1;
    while offset < imgHeight
      invariant 1 <= offset <= imgHeight
      invariant Best(Scores(frame1, frame2, offset), biggestCorrelation, bestScores)
    {
      biggestCorrelation, bestScores := ScoreOffset(frame1, frame2, offset, Scores(frame1, frame2, offset), biggestCorrelation, bestScores);
      offset := offset + 1;
    }
    TiesOfMax(Scores(frame1, frame2, imgHeight));
    r := Mean(bestScores);
  }

  // ---------------------------------------------------------------------------------------
  // estimateKeySpeed and estimateSpeed

  /** Every frame of a key holds notes of positive length. */
  predicate ValidKey(key: seq<seq<Span>>)
  {
    forall f :: 0 <= f < |key| ==> PositiveNotes(key[f])
  }

  predicate ValidNotes(notes: seq<seq<seq<Span>>>)
  {
    forall k :: 0 <= k < |notes| ==> ValidKey(notes[k])
  }

  /** The offset `getCrossOffset` finds between two non-empty frames of valid notes. */
  function PairOffset(frame1: seq<Span>, frame2: seq<Span>, imgHeight: int): real
    requires PositiveNotes(frame1) && PositiveNotes(frame2) && frame1 != [] && frame2 != []
    requires imgHeight >= 2
  {
    PositiveTotal(frame1);
    PositiveTotal(frame2);
    CrossOffset(frame1, frame2, imgHeight)
  }

  /** The offsets found in the first `n` frames of a key: one for each two consecutive frames
      that are both non-empty. */
  function PairOffsetsUpTo(key: seq<seq<Span>>, n: int, imgHeight: int): seq<real>
    requires ValidKey(key) && imgHeight >= 2 && 0 <= n <= |key|
    decreases n
  {
    if n < 2 then []
    else
      var prev, last := key[n - 2], key[n - 1];
      PairOffsetsUpTo(key, n - 1, imgHeight)
      + (if prev != [] && last != [] then [PairOffset(prev, last, imgHeight)] else [])
  }

  /** The offsets found in a whole key. */
  function PairOffsets(key: seq<seq<Span>>, imgHeight: int): seq<real>
    requires ValidKey(key) && imgHeight >= 2
  {
    PairOffsetsUpTo(key, |key|, imgHeight)
  }

  lemma {:induction false} PairOffsetsUpToBounds(key: seq<seq<Span>>, n: int, imgHeight: int)
    requires ValidKey(key) && imgHeight >= 2 && 0 <= n <= |key|
    ensures forall i :: 0 <= i < |PairOffsetsUpTo(key, n, imgHeight)| ==>
      1.0 <= PairOffsetsUpTo(key, n, imgHeight)[i] <= (imgHeight - 1) as real
    decreases n
  {
    if n >= 2 {
      var prev, last := key[n - 2], key[n - 1];
      var before := PairOffsetsUpTo(key, n - 1, imgHeight);
      PairOffsetsUpToBounds(key, n - 1, imgHeight);
      if prev != [] && last != [] {
        PositiveTotal(prev);
        PositiveTotal(last);
        CrossOffsetBounds(prev, last, imgHeight);
        var x := PairOffset(prev, last, imgHeight);
        assert PairOffsetsUpTo(key, n, imgHeight) == before + [x];
      } else {
        assert PairOffsetsUpTo(key, n, imgHeight) == before + [];
      }
    }
  }

  /** Each found offset lies in `1 .. imgHeight - 1`. */
  lemma PairOffsetsBounds(key: seq<seq<Span>>, imgHeight: int)
    requires ValidKey(key) && imgHeight >= 2
    ensures forall i :: 0 <= i < |PairOffsets(key, imgHeight)| ==>
      1.0 <= PairOffsets(key, imgHeight)[i] <= (imgHeight - 1) as real
  {
    PairOffsetsUpToBounds(key, |key|, imgHeight);
  }

  lemma SumSnoc(s: seq<real>, x: real)
    ensures Sum(s + [x]) == Sum(s) + x
  {
    SumAppend(s, [x]);
    assert Sum([x]) == x + Sum([]);
  }

  /** `estimateKeySpeed`: the sum of the offsets found in `key` and how many there are. */
  method EstimateKeySpeed(key: seq<seq<Span>>, imgHeight: int) returns (offsetSum: real, divisor: int)
    requires ValidKey(key) && imgHeight >= 2
    ensures offsetSum == Sum(PairOffsets(key, imgHeight))
    ensures divisor == |PairOffsets(key, imgHeight)|
  {
    if |key| < 2 {
      return 0.0, 0;
    }
    offsetSum := 0.0;
    var lastFrame: seq<Span> := [];
    divisor := 0;
    for i := 0 to |key|
      invariant lastFrame == if i == 0 then [] else key[i - 1]
      invariant offsetSum == Sum(PairOffsetsUpTo(key, i, imgHeight))
      invariant divisor == |PairOffsetsUpTo(key, i, imgHeight)|
    {
      var frame := key[i];
      ghost var before := PairOffsetsUpTo(key, i, imgHeight);
      if frame != [] && lastFrame != [] {
        var offset := GetCrossOffset(lastFrame, frame, imgHeight) by {
          PositiveTotal(lastFrame);
          PositiveTotal(frame);
        }
        assert offset == PairOffset(lastFrame, frame, imgHeight);
        SumSnoc(before, offset);
        offsetSum := offsetSum + offset;
        divisor := divisor + 1;
      } else {
        assert before + [] == before;
      }
      lastFrame := frame;
    }
  }

  /** The offsets found over all keys, key by key. */
  function AllOffsets(notes: seq<seq<seq<Span>>>, imgHeight: int): seq<real>
    requires ValidNotes(notes) && imgHeight >= 2
  {
    if notes == [] then []
    else AllOffsets(notes[..|notes| - 1], imgHeight) + PairOffsets(notes[|notes| - 1], imgHeight)
  }

  /** The estimated speed in pixels per frame: the mean of all offsets found, or -1 when no
      two consecutive frames of any key are both non-empty. */
  function EstimatedSpeed(notes: seq<seq<seq<Span>>>, imgHeight: int): real
    requires ValidNotes(notes) && imgHeight >= 2
  {
    var found := AllOffsets(notes, imgHeight);
    if found == [] then -1.0 else RealMean(found)
  }

  /** `estimateSpeed`. */
  method EstimateSpeed(notes: seq<seq<seq<Span>>>, imgHeight: int) returns (speed: real)
    requires ValidNotes(notes) && imgHeight >= 2
    ensures speed == EstimatedSpeed(notes, imgHeight)
  {
    var speedSum := 0.0;
    var weights := 0;
    for k := 0 to |notes|
      invariant speedSum == Sum(AllOffsets(notes[..k], imgHeight))
      invariant weights == |AllOffsets(notes[..k], imgHeight)|
    {
      var offset, weight := EstimateKeySpeed(notes[k], imgHeight);
      assert notes[..k + 1][..k] == notes[..k];
      SumAppend(AllOffsets(notes[..k], imgHeight), PairOffsets(notes[k], imgHeight));
      speedSum := speedSum + offset;
      weights := weights + weight;
    }
    assert notes[..|notes|] == notes;
    if weights == 0 {
      return -1.0;
    } else {
      return speedSum / weights as real;
    }
  }

  lemma {:induction false} AllOffsetsBounds(notes: seq<seq<seq<Span>>>, imgHeight: int)
    requires ValidNotes(notes) && imgHeight >= 2
    ensures forall i :: 0 <= i < |AllOffsets(notes, imgHeight)| ==>
      1.0 <= AllOffsets(notes, imgHeight)[i] <= (imgHeight - 1) as real
  {
    if notes != [] {
      var init, last := AllOffsets(notes[..|notes| - 1], imgHeight), PairOffsets(notes[|notes| - 1], imgHeight);
      AllOffsetsBounds(notes[..|notes| - 1], imgHeight);
      PairOffsetsBounds(notes[|notes| - 1], imgHeight);
      assert forall i :: |init| <= i < |init| + |last| ==> (init + last)[i] == last[i - |init|];
    }
  }

  lemma RealMeanBounds(s: seq<real>, lo: real, hi: real)
    requires s != []
    requires forall i :: 0 <= i < |s| ==> lo <= s[i] <= hi
    ensures lo <= RealMean(s) <= hi
  {
    SumBounds(s, lo, hi);
    DivBounds(Sum(s), |s| as real, lo, hi);
  }

  /** The estimate is -1 exactly when no offset was found, and otherwise a speed that some
      offset tried could have produced: between 1 and `imgHeight - 1` pixels per frame. */
  lemma EstimatedSpeedSpec(notes: seq<seq<seq<Span>>>, imgHeight: int)
    requires ValidNotes(notes) && imgHeight >= 2
    ensures EstimatedSpeed(notes, imgHeight) == -1.0 <==> AllOffsets(notes, imgHeight) == []
    ensures AllOffsets(notes, imgHeight) != [] ==> 1.0 <= EstimatedSpeed(notes, imgHeight) <= (imgHeight - 1) as real
  {
    var found := AllOffsets(notes, imgHeight);
    if found != [] {
      AllOffsetsBounds(notes, imgHeight);
      RealMeanBounds(found, 1.0, (imgHeight - 1) as real);
    }
  }
}
