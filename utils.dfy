/**
 * The two helpers of Utils.kt: a binary search for the first value at least a bound, and the
 * choice of the hand whose finger tip lies closest to a note.
 */
module Utils {
  import opened Results
  import opened Numbers
  import opened Hands

  // binaryGreaterThanSearch

  predicate SortedRange(list: seq<real>, fromIndex: int, toIndex: int)
    requires 0 <= fromIndex <= toIndex <= |list|
  {
    forall i, j :: fromIndex <= i <= j < toIndex ==> list[i] <= list[j]
  }

  /** The first index of `list[fromIndex..toIndex]` whose value is at least `minValue`, or -1:
      the linear search the binary search stands for. */
  function FirstAtLeast(list: seq<real>, fromIndex: int, toIndex: int, minValue: real): (r: int)
    requires 0 <= fromIndex <= toIndex <= |list|
    decreases toIndex - fromIndex
  {
    if fromIndex == toIndex then -1
    else if list[fromIndex] >= minValue then fromIndex
    else FirstAtLeast(list, fromIndex + 1, toIndex, minValue)
  }

  lemma {:induction false} FirstAtLeastSpec(list: seq<real>, fromIndex: int, toIndex: int, minValue: real)
    requires 0 <= fromIndex <= toIndex <= |list|
    decreases toIndex - fromIndex
    ensures var r := FirstAtLeast(list, fromIndex, toIndex, minValue);
      (r == -1 <==> forall i :: fromIndex <= i < toIndex ==> list[i] < minValue)
      && (r != -1 ==> fromIndex <= r < toIndex && list[r] >= minValue
                      && forall i :: fromIndex <= i < r ==> list[i] < minValue)
  {
    if fromIndex < toIndex && list[fromIndex] < minValue {
      FirstAtLeastSpec(list, fromIndex + 1, toIndex, minValue);
    }
  }

  /** `binaryGreaterThanSearch`. On a non-empty range the index it returns always holds a value
      of at least `minValue`. On a sorted range it returns -1 exactly when every value is below
      `minValue`; otherwise every value before the returned index is at most `minValue`, and
      below it unless the search stopped on a value equal to `minValue`; when no value equals
      `minValue` it returns the first index at least `minValue`. The bounds go unchecked: on an
      empty or reversed range the loop is skipped and the value at `fromIndex`, outside the range,
      decides between `fromIndex` and -1. */
  method BinaryGreaterThanSearch(list: seq<real>, fromIndex: int, toIndex: int, minValue: real)
    returns (r: int)
    requires 0 <= fromIndex < |list| && toIndex <= |list|
    ensures fromIndex < toIndex ==> r == -1 || fromIndex <= r < toIndex
    ensures r != -1 ==> r == fromIndex || fromIndex < r < toIndex
    ensures r != -1 ==> list[r] >= minValue
    ensures toIndex <= fromIndex ==> (r == -1 <==> list[fromIndex] < minValue)
    ensures fromIndex < toIndex && SortedRange(list, fromIndex, toIndex) ==>
      (r == -1 <==> forall i :: fromIndex <= i < toIndex ==> list[i] < minValue)
    ensures fromIndex < toIndex && SortedRange(list, fromIndex, toIndex) && r != -1 ==>
      (forall i :: fromIndex <= i < r ==> list[i] <= minValue)
      && (list[r] > minValue ==> forall i :: fromIndex <= i < r ==> list[i] < minValue)
    ensures fromIndex < toIndex && SortedRange(list, fromIndex, toIndex)
            && (forall i :: fromIndex <= i < toIndex ==> list[i] != minValue) ==>
      r == FirstAtLeast(list, fromIndex, toIndex, minValue)
  {
    var low := fromIndex;
    var high := toIndex - 1;
    while low < high
      invariant fromIndex <= low < |list| && (fromIndex < toIndex ==> low <= high < toIndex)
      invariant toIndex <= fromIndex ==> low == fromIndex
      invariant fromIndex < toIndex && SortedRange(list, fromIndex, toIndex) ==>
        (low == high && list[low] == minValue) || forall i :: fromIndex <= i < low ==> list[i] < minValue
      invariant fromIndex < toIndex && SortedRange(list, fromIndex, toIndex) ==>
        (low == high && list[low] == minValue) || high == toIndex - 1 || list[high] > minValue
      decreases high - low
    {
      var mid := (low + high) / 2;
      var midVal := list[mid];
      if midVal > minValue {
        high := mid;
      } else if midVal < minValue {
        low := mid + 1;
      } else {
        low := mid;
        high := mid;
      }
    }
    r := if list[low] >= minValue then low else -1;
    if fromIndex < toIndex {
      FirstAtLeastSpec(list, fromIndex, toIndex, minValue);
    }
  }

  // likeliestHand

  datatype HandError = NoHands | NoteOutOfRange

  /** One finger tip of one hand, with its horizontal distance to the note. */
  datatype Candidate = Candidate(hand: Hand, distance: real)

  function TipCandidates(hand: Hand, tips: seq<HandKeypoint>, xPosNote: real): (r: seq<Candidate>)
    ensures |r| == |tips|
  {
    seq(|tips|, k requires 0 <= k < |tips| => Candidate(hand, Abs(tips[k].x - xPosNote)))
  }

  /** Every finger tip of every hand, in the order the loops visit them. */
  function AllCandidates(hands: seq<Hand>, fingerTips: Hand -> seq<HandKeypoint>, xPosNote: real): seq<Candidate>
  {
    if hands == [] then []
    else
      var n := |hands| - 1;
      AllCandidates(hands[..n], fingerTips, xPosNote) + TipCandidates(hands[n], fingerTips(hands[n]), xPosNote)
  }

  /** `k` is the first candidate of least distance. */
  predicate FirstMinAt(s: seq<Candidate>, k: int)
  {
    0 <= k < |s|
    && (forall t :: 0 <= t < |s| ==> s[k].distance <= s[t].distance)
    && (forall t :: 0 <= t < k ==> s[t].distance > s[k].distance)
  }

  /** Ties go to the first: at most one candidate is the first of least distance. */
  lemma FirstMinUnique(s: seq<Candidate>, k1: int, k2: int)
    requires FirstMinAt(s, k1) && FirstMinAt(s, k2)
    ensures k1 == k2
  {
    assert s[k1].distance == s[k2].distance;
  }

  /** One more candidate: it becomes the first closest exactly when it is strictly closer. */
  lemma FirstMinSnoc(s: seq<Candidate>, k: int, c: Candidate)
    requires s == [] || FirstMinAt(s, k)
    ensures s == [] ==> FirstMinAt(s + [c], 0)
    ensures s != [] && c.distance < s[k].distance ==> FirstMinAt(s + [c], |s|)
    ensures s != [] && c.distance >= s[k].distance ==> FirstMinAt(s + [c], k)
  {
    var t := s + [c];
    assert t[|s|] == c;
    assert forall i :: 0 <= i < |s| ==> t[i] == s[i];
  }

  lemma {:induction false} CandidatesFromHands(hands: seq<Hand>, fingerTips: Hand -> seq<HandKeypoint>, xPosNote: real)
    ensures forall i :: 0 <= i < |AllCandidates(hands, fingerTips, xPosNote)| ==>
      AllCandidates(hands, fingerTips, xPosNote)[i].hand in hands
  {
    if hands != [] {
      var n := |hands| - 1;
      CandidatesFromHands(hands[..n], fingerTips, xPosNote);
    }
  }

  /** What the two loops keep: the hand and distance of the first closest candidate seen so
      far (`k`), or the first hand and no distance while nothing has been seen. */
  predicate Tracks(seen: seq<Candidate>, k: int, likeliestHand: Hand, minDistance: Option<real>, first: Hand)
  {
    (seen == [] ==> likeliestHand == first && minDistance == None)
    && (seen != [] ==> FirstMinAt(seen, k) && likeliestHand == seen[k].hand && minDistance == Some(seen[k].distance))
  }

  /** The inner loop: the finger tips of one hand. */
  method VisitTips(hand: Hand, tips: seq<HandKeypoint>, xPosNote: real, first: Hand,
                   likeliest0: Hand, minDistance0: Option<real>, ghost seen0: seq<Candidate>, ghost k0: int)
    returns (likeliestHand: Hand, minDistance: Option<real>, ghost seen: seq<Candidate>, ghost k: int)
    requires Tracks(seen0, k0, likeliest0, minDistance0, first)
    ensures seen == seen0 + TipCandidates(hand, tips, xPosNote)
    ensures Tracks(seen, k, likeliestHand, minDistance, first)
  {
    likeliestHand, minDistance, seen, k := likeliest0, minDistance0, seen0, k0;
    for j := 0 to |tips|
      invariant seen == seen0 + TipCandidates(hand, tips[..j], xPosNote)
      invariant Tracks(seen, k, likeliestHand, minDistance, first)
    {
      var distance := Abs(tips[j].x - xPosNote);
      assert TipCandidates(hand, tips[..j + 1], xPosNote) == TipCandidates(hand, tips[..j], xPosNote) + [Candidate(hand, distance)];
      FirstMinSnoc(seen, k, Candidate(hand, distance));
      if minDistance == None || distance < minDistance.value {
        minDistance := Some(distance);
        likeliestHand := hand;
        k := |seen|;
      }
      seen := seen + [Candidate(hand, distance)];
    }
    assert tips[..|tips|] == tips;
  }

  /** `likeliestHand`, with the infinite starting distance as `None` and the finger tips of a
      hand (`getFingerTips`) as a parameter. It refuses an empty list and a note position
      outside [0, 1); otherwise it returns the hand of the first finger tip closest to the note,
      or the first hand when no hand has a finger tip. */
  method LikeliestHand(xPosNote: real, hands: seq<Hand>, fingerTips: Hand -> seq<HandKeypoint>)
    returns (r: Result<Hand, HandError>)
    ensures hands == [] ==> r == Err(NoHands)
    ensures hands != [] && (xPosNote < 0.0 || xPosNote >= 1.0) ==> r == Err(NoteOutOfRange)
    ensures r.Ok? <==> hands != [] && 0.0 <= xPosNote < 1.0
    ensures r.Ok? ==> r.value in hands
    ensures r.Ok? ==> var all := AllCandidates(hands, fingerTips, xPosNote);
      (all == [] ==> r.value == hands[0])
      && (all != [] ==> exists k :: FirstMinAt(all, k) && r.value == all[k].hand)
  {
    if hands == [] {
      return Err(NoHands);
    }
    if xPosNote < 0.0 || xPosNote >= 1.0 {
      return Err(NoteOutOfRange);
    }
    var likeliestHand := hands[0];
    var minDistance: Option<real> := None;
    ghost var seen: seq<Candidate> := [];
    ghost var k := 0;
    for i := 0 to |hands|
      invariant seen == AllCandidates(hands[..i], fingerTips, xPosNote)
      invariant Tracks(seen, k, likeliestHand, minDistance, hands[0])
    {
      assert hands[..i + 1][..i] == hands[..i];
      likeliestHand, minDistance, seen, k :=
        VisitTips(hands[i], fingerTips(hands[i]), xPosNote, hands[0], likeliestHand, minDistance, seen, k);
    }
    assert hands[..|hands|] == hands;
    CandidatesFromHands(hands, fingerTips, xPosNote);
    if seen != [] {
      assert likeliestHand in hands;
    }
    r := Ok(likeliestHand);
  }
}
