/**
 * The per-frame scroll offsets of VidToMid.kt once template matching has measured them: their
 * `median`, the correction of outliers to the median (`getVideoOffsets`), and the stitching of
 * one long piano-roll image from the first frame and one sliver per offset (`recMergeImages`).
 */
module Offsets {
  import opened Results
  import opened Sequences
  import opened Sorting
  import opened Numbers

  // median

  /** `it[it.size / 2]` on an empty list throws. */
  datatype MedianError = EmptyList

  /** The middle element of a sorted list of odd length, the mean of the two middle elements
      of one of even length. */
  function MiddleOf(s: seq<real>): real
    requires s != []
  {
    if |s| % 2 == 0 then (s[|s| / 2] + s[(|s| - 1) / 2]) / 2.0 else s[|s| / 2]
  }

  /** `median`: the middle of the sorted list; it throws exactly when the list is empty. */
  function Median(list: seq<real>): Result<real, MedianError>
  {
    if list == [] then Err(EmptyList) else Ok(MiddleOf(SortBy(list, Id)))
  }

  function NotAbove(m: real): real -> bool
  {
    x => x <= m
  }

  function NotBelow(m: real): real -> bool
  {
    x => x >= m
  }

  /** The median of a non-empty list lies between its least and greatest element, and at
      least half of the elements lie at or below it and at least half at or above it. */
  lemma MedianSpec(list: seq<real>)
    requires list != []
    ensures var m := Median(list).value;
      Min(list) <= m <= Max(list)
      && 2 * Count(list, NotAbove(m)) >= |list|
      && 2 * Count(list, NotBelow(m)) >= |list|
  {
    var s := SortBy(list, Id);
    var m := MiddleOf(s);
    SortBySpec(list, Id);
    ElementsBetween(list, s);
    CountSortBy(list, Id, NotAbove(m));
    CountSortBy(list, Id, NotBelow(m));
    SortedMiddle(s);
  }

  lemma SortedMiddle(s: seq<real>)
    requires s != [] && SortedBy(s, Id)
    ensures s[(|s| - 1) / 2] <= MiddleOf(s) <= s[|s| / 2]
    ensures 2 * Count(s, NotAbove(MiddleOf(s))) >= |s| && 2 * Count(s, NotBelow(MiddleOf(s))) >= |s|
  {
    var n, m := |s|, MiddleOf(s);
    var lo, hi := (n - 1) / 2, n / 2;
    assert Id(s[lo]) <= Id(s[hi]);
    assert s[lo] <= m <= s[hi];
    forall i | 0 <= i <= lo ensures NotAbove(m)(s[i]) {
      if i < lo { assert Id(s[i]) <= Id(s[lo]); }
    }
    forall i | hi <= i < n ensures NotBelow(m)(s[i]) {
      if i > hi { assert Id(s[hi]) <= Id(s[i]); }
    }
    CountRun(s, NotAbove(m), 0, lo + 1);
    CountRun(s, NotBelow(m), hi, n);
  }

  /** Every element of a permutation of `list` lies between the extremes of `list`. */
  lemma ElementsBetween(list: seq<real>, s: seq<real>)
    requires list != [] && multiset(s) == multiset(list)
    ensures forall i :: 0 <= i < |s| ==> Min(list) <= s[i] <= Max(list)
  {
    forall i | 0 <= i < |s| ensures Min(list) <= s[i] <= Max(list) {
      assert s[i] in multiset(list);
      var j :| 0 <= j < |list| && list[j] == s[i];
    }
  }

  // outlier correction

  /** A value further than `median * maxDiff` from the median is replaced by the median. */
  function CorrectOffset(value: real, median: real, maxDiff: real): real
  {
    if Abs(value - median) > median * maxDiff then median else value
  }

  function Corrector(m: real, maxDiff: real): real -> real
  {
    (v: real) => CorrectOffset(v, m, maxDiff)
  }

  /** The correction at the end of `getVideoOffsets`; the median of no offsets throws. */
  function CorrectOffsets(offsets: seq<real>, maxDiff: real): Result<seq<real>, MedianError>
  {
    match Median(offsets)
    case Err(e) => Err(e)
    case Ok(m) => Ok(Map(offsets, Corrector(m, maxDiff)))
  }

  /** `r` is `offsets` with every offset kept exactly when it lies within `m * maxDiff` of
      `m` and replaced by `m` otherwise. */
  predicate CorrectedAround(offsets: seq<real>, r: seq<real>, m: real, maxDiff: real)
  {
    |r| == |offsets|
    && (forall i :: 0 <= i < |r| && Abs(offsets[i] - m) <= m * maxDiff ==> r[i] == offsets[i])
    && (forall i :: 0 <= i < |r| && Abs(offsets[i] - m) > m * maxDiff ==> r[i] == m)
  }

  /** The correction keeps the number of offsets and the position of each; an offset is kept
      exactly when it lies within `median * maxDiff` of the median and is otherwise replaced
      by the median, so that every corrected offset lies within that distance. It throws only
      on an empty list. */
  lemma CorrectOffsetsSpec(offsets: seq<real>, maxDiff: real)
    ensures CorrectOffsets(offsets, maxDiff).Err? <==> offsets == []
    ensures offsets != [] ==>
      var m := Median(offsets).value;
      var r := CorrectOffsets(offsets, maxDiff).value;
      CorrectedAround(offsets, r, m, maxDiff)
      && (m * maxDiff >= 0.0 ==> forall i :: 0 <= i < |r| ==> Abs(r[i] - m) <= m * maxDiff)
  {
    if offsets != [] {
      var m := Median(offsets).value;
      CorrectOffsetsOk(offsets, maxDiff);
      CorrectAll(offsets, m, maxDiff);
    }
  }

  lemma CorrectOffsetsOk(offsets: seq<real>, maxDiff: real)
    requires offsets != []
    ensures Median(offsets).Ok?
    ensures CorrectOffsets(offsets, maxDiff) == Ok(Map(offsets, Corrector(Median(offsets).value, maxDiff)))
  {
  }

  lemma CorrectAll(offsets: seq<real>, m: real, maxDiff: real)
    ensures var r := Map(offsets, Corrector(m, maxDiff));
      CorrectedAround(offsets, r, m, maxDiff)
      && (m * maxDiff >= 0.0 ==> forall i :: 0 <= i < |r| ==> Abs(r[i] - m) <= m * maxDiff)
  {
    var r := Map(offsets, Corrector(m, maxDiff));
    forall i | 0 <= i < |r| ensures r[i] == CorrectOffset(offsets[i], m, maxDiff) {
    }
  }

  lemma SortExample()
    ensures SortBy([5.0, 5.0, 5.0, 50.0, 5.0], Id) == [5.0, 5.0, 5.0, 5.0, 50.0]
  {
    var s := [5.0, 5.0, 5.0, 50.0, 5.0];
    assert s[..1] == [5.0] && s[..2] == s[..1] + [5.0];
    assert s[..3] == s[..2] + [5.0] && s[..4] == s[..3] + [50.0] && s == s[..4] + [5.0];
    SortBySingle(5.0, Id);
    SortByAppendOne(s[..1], 5.0, Id);
    assert InsBy([5.0], 5.0, Id) == [5.0] + InsBy([], 5.0, Id) == [5.0, 5.0];
    SortByAppendOne(s[..2], 5.0, Id);
    assert InsBy([5.0, 5.0], 5.0, Id) == [5.0] + InsBy([5.0], 5.0, Id) == [5.0, 5.0, 5.0];
    SortByAppendOne(s[..3], 50.0, Id);
    assert InsBy([5.0], 50.0, Id) == [5.0, 50.0];
    assert InsBy([5.0, 5.0], 50.0, Id) == [5.0] + InsBy([5.0], 50.0, Id) == [5.0, 5.0, 50.0];
    assert InsBy([5.0, 5.0, 5.0], 50.0, Id) == [5.0] + InsBy([5.0, 5.0], 50.0, Id) == [5.0, 5.0, 5.0, 50.0];
    SortByAppendOne(s[..4], 5.0, Id);
    assert InsBy([50.0], 5.0, Id) == [5.0, 50.0];
    assert InsBy([5.0, 50.0], 5.0, Id) == [5.0] + InsBy([50.0], 5.0, Id);
    assert InsBy([5.0, 5.0, 50.0], 5.0, Id) == [5.0] + InsBy([5.0, 50.0], 5.0, Id);
    assert InsBy([5.0, 5.0, 5.0, 50.0], 5.0, Id) == [5.0] + InsBy([5.0, 5.0, 50.0], 5.0, Id);
  }

  /** One jump of ten times the usual offset is corrected to the median when a quarter of the
      median is allowed. */
  lemma CorrectOffsetsExample()
    ensures CorrectOffsets([5.0, 5.0, 5.0, 50.0, 5.0], 0.25) == Ok([5.0, 5.0, 5.0, 5.0, 5.0])
  {
    var list := [5.0, 5.0, 5.0, 50.0, 5.0];
    SortExample();
    assert MiddleOf([5.0, 5.0, 5.0, 5.0, 50.0]) == 5.0;
    assert Median(list) == Ok(5.0);
    var r := Map(list, Corrector(5.0, 0.25));
    assert r == [5.0, 5.0, 5.0, 5.0, 5.0];
  }

  // stitching

  /** `small.submat(0, rows, ...)` throws when `rows` is outside the frame. */
  datatype StitchError = CutOutOfRange

  /** The number of rows cut from the top of a frame for one offset. */
  function CutRows(offset: real): int
  {
    Round(offset + 1.0)
  }

  /** Every cut fits into its frame. */
  predicate CutsFit<Row>(frames: seq<seq<Row>>, offsets: seq<real>)
    requires |frames| == |offsets|
  {
    forall i :: 0 <= i < |frames| ==> 0 <= CutRows(offsets[i]) <= |frames[i]|
  }

  /** The top `CutRows(offsets[i])` rows of each frame, in frame order. */
  function Slivers<Row>(frames: seq<seq<Row>>, offsets: seq<real>): (r: seq<seq<Row>>)
    requires |frames| == |offsets| && CutsFit(frames, offsets)
    ensures |r| == |frames|
  {
    if frames == [] then []
    else
      var n := |frames| - 1;
      Slivers(frames[..n], offsets[..n]) + [frames[n][..CutRows(offsets[n])]]
  }

  /** The composite: the frames list reversed and concatenated top to bottom. */
  function Stitched<Row>(startFrame: seq<Row>, frames: seq<seq<Row>>, offsets: seq<real>): seq<Row>
    requires |frames| == |offsets| && CutsFit(frames, offsets)
  {
    Concat(Reverse([startFrame] + Slivers(frames, offsets)))
  }

  /**
   * The list building and concatenation of `recMergeImages`. `frames[i]` is the frame read
   * for `offsets[i]`, after the frames skipped before it; the video reading and thresholding
   * that produce them are not part of this model.
   */
  method MergeFrames<Row>(startFrame: seq<Row>, frames: seq<seq<Row>>, offsets: seq<real>)
    returns (r: Result<seq<Row>, StitchError>)
    requires |frames| == |offsets|
    ensures r.Err? <==> !CutsFit(frames, offsets)
    ensures r.Ok? ==> r.value == Stitched(startFrame, frames, offsets)
  {
    var parts: seq<seq<Row>> := [startFrame];
    for counter := 0 to |offsets|
      invariant CutsFit(frames[..counter], offsets[..counter])
      invariant parts == [startFrame] + Slivers(frames[..counter], offsets[..counter])
    {
      var rows := CutRows(offsets[counter]);
      if !(0 <= rows <= |frames[counter]|) {
        return Err(CutOutOfRange);
      }
      var cut := frames[counter][..rows];
      assert frames[..counter + 1][..counter] == frames[..counter];
      assert offsets[..counter + 1][..counter] == offsets[..counter];
      parts := parts + [cut];
    }
    assert frames[..|offsets|] == frames && offsets[..|offsets|] == offsets;
    parts := Reverse(parts);
    return Ok(Concat(parts));
  }

  /** The total number of rows cut. */
  function TotalCut(offsets: seq<real>): int
  {
    if offsets == [] then 0 else TotalCut(offsets[..|offsets| - 1]) + CutRows(offsets[|offsets| - 1])
  }

  lemma ReverseSnoc<T>(s: seq<T>, x: T)
    ensures Reverse(s + [x]) == [x] + Reverse(s)
  {
  }

  /** Each new sliver goes on top of the composite so far. */
  lemma StitchedSnoc<Row>(startFrame: seq<Row>, frames: seq<seq<Row>>, offsets: seq<real>)
    requires |frames| == |offsets| && frames != [] && CutsFit(frames, offsets)
    ensures var n := |frames| - 1;
      Stitched(startFrame, frames, offsets)
      == frames[n][..CutRows(offsets[n])] + Stitched(startFrame, frames[..n], offsets[..n])
  {
    var n := |frames| - 1;
    var older := [startFrame] + Slivers(frames[..n], offsets[..n]);
    var sliver := frames[n][..CutRows(offsets[n])];
    assert [startFrame] + Slivers(frames, offsets) == older + [sliver];
    ReverseSnoc(older, sliver);
    ConcatAppend([sliver], Reverse(older));
    assert Concat([sliver]) == sliver + Concat([]);
  }

  /** The composite is as high as the first frame plus every cut, the first frame at the
      bottom and the sliver of the last offset on top. */
  lemma {:induction false} StitchedSpec<Row>(startFrame: seq<Row>, frames: seq<seq<Row>>, offsets: seq<real>)
    requires |frames| == |offsets| && CutsFit(frames, offsets)
    ensures var r := Stitched(startFrame, frames, offsets);
      TotalCut(offsets) >= 0
      && |r| == |startFrame| + TotalCut(offsets)
      && r[|r| - |startFrame|..] == startFrame
      && (frames != [] ==> r[..CutRows(offsets[|offsets| - 1])] == frames[|frames| - 1][..CutRows(offsets[|offsets| - 1])])
  {
    var r := Stitched(startFrame, frames, offsets);
    if frames == [] {
      assert Reverse([startFrame]) == [startFrame];
      assert Concat([startFrame]) == startFrame + Concat([]);
    } else {
      var n := |frames| - 1;
      StitchedSnoc(startFrame, frames, offsets);
      StitchedSpec(startFrame, frames[..n], offsets[..n]);
      assert offsets[..n] + [offsets[n]] == offsets;
      var sliver := frames[n][..CutRows(offsets[n])];
      var rest := Stitched(startFrame, frames[..n], offsets[..n]);
      assert r == sliver + rest;
      assert r[|r| - |startFrame|..] == rest[|rest| - |startFrame|..];
    }
  }
}
