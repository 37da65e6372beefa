/**
 * Hand positions per video frame (HandPositions.kt): the recorded hands, whose index names one
 * of a fixed number of hand slots, and `fillHoles`, which gives every slot an estimated hand in
 * each frame of a gap that ends with the slot seen again. A gap after a sighting is bridged by
 * linear interpolation between the two sightings; a gap at the start of the video is filled
 * with copies of the first sighting; a gap at the end of the video stays open.
 */
module Hands {
  import opened Results

  datatype HandKeypoint = HandKeypoint(x: real, y: real)

  /** `estimated` tells a hand that was constructed by `fillHoles` from one that was recorded. */
  datatype Hand = Hand(index: int, right: bool, landmarks: seq<HandKeypoint>, estimated: bool)

  /** A hand to be appended to the frame at `frameIndex` (`Pair<Int, Hand>`). */
  datatype Addition = Addition(frameIndex: int, hand: Hand)

  /** The recorded frames, each a list of hands that is extended in place. */
  class HandPositions {
    var frames: seq<seq<Hand>>
    var pxOffset: seq<int>

    constructor(frames: seq<seq<Hand>>, pxOffset: seq<int>)
      ensures this.frames == frames && this.pxOffset == pxOffset
    {
      this.frames := frames;
      this.pxOffset := pxOffset;
    }
  }

  // the leading gap: copies of the first sighting

  /** The estimated hands for the first `missedFrames` frames of the video. */
  function LeadingHands(missedFrames: nat, handIndex: int, hand: Hand): (r: seq<Addition>)
  {
    seq(missedFrames, step => Addition(step, Hand(handIndex, hand.right, hand.landmarks, true)))
  }

  /** `createMissingHands(missedFrames, handIndex, hand, handsToAdd)`. */
  method CreateLeadingHands(missedFrames: nat, handIndex: int, hand: Hand, handsToAdd: seq<Addition>)
    returns (r: seq<Addition>)
    ensures r == handsToAdd + LeadingHands(missedFrames, handIndex, hand)
  {
    r := handsToAdd;
    for step := 0 to missedFrames
      invariant |r| == |handsToAdd| + step && r[..|handsToAdd|] == handsToAdd
      invariant forall i :: 0 <= i < step ==>
        r[|handsToAdd| + i] == Addition(i, Hand(handIndex, hand.right, hand.landmarks, true))
    {
      var landmarks: seq<HandKeypoint> := [];
      for k := 0 to |hand.landmarks|
        invariant landmarks == hand.landmarks[..k]
      {
        landmarks := landmarks + [hand.landmarks[k]];
      }
      assert landmarks == hand.landmarks;
      r := r + [Addition(step, Hand(handIndex, hand.right, landmarks, true))];
    }
    assert r == handsToAdd + LeadingHands(missedFrames, handIndex, hand);
  }

  // an interior gap: linear interpolation

  /** One coordinate of the hand `step + 1` frames after the start of a gap of `missedFrames`
      frames, on the line from `a` (the frame before the gap) to `b` (the frame after it). */
  function Lerp(a: real, b: real, missedFrames: nat, step: int): real
  {
    a + ((b - a) / (missedFrames + 1) as real) * (step + 1) as real
  }

  function InterpolatedKeypoint(start: HandKeypoint, end: HandKeypoint, missedFrames: nat, step: int): HandKeypoint
  {
    HandKeypoint(Lerp(start.x, end.x, missedFrames, step), Lerp(start.y, end.y, missedFrames, step))
  }

  /** Kotlin's `zip`: pairs up to the shorter length. */
  function Zip<T>(s: seq<T>, t: seq<T>): (r: seq<(T, T)>)
    ensures |r| == if |s| <= |t| then |s| else |t|
    ensures forall i :: 0 <= i < |r| ==> r[i] == (s[i], t[i])
  {
    if s == [] || t == [] then [] else [(s[0], t[0])] + Zip(s[1..], t[1..])
  }

  function InterpolatedLandmarks(pairs: seq<(HandKeypoint, HandKeypoint)>, missedFrames: nat, step: int): (r: seq<HandKeypoint>)
    ensures |r| == |pairs|
  {
    seq(|pairs|, i requires 0 <= i < |pairs| => InterpolatedKeypoint(pairs[i].0, pairs[i].1, missedFrames, step))
  }

  /** The estimated hands for the `missedFrames` frames before `frameIndex`. */
  function InterpolatedHands(startHand: Hand, endHand: Hand, missedFrames: nat, handIndex: int, frameIndex: int): (r: seq<Addition>)
  {
    var pairs := Zip(startHand.landmarks, endHand.landmarks);
    seq(missedFrames, step =>
      Addition(frameIndex - missedFrames + step,
               Hand(handIndex, endHand.right, InterpolatedLandmarks(pairs, missedFrames, step), true)))
  }

  /** `createMissingHands(startHand, endHand, missedFrames, handIndex, frameIndex, handsToAdd)`. */
  method CreateInterpolatedHands(startHand: Hand, endHand: Hand, missedFrames: nat, handIndex: int,
                                 frameIndex: int, handsToAdd: seq<Addition>)
    returns (r: seq<Addition>)
    ensures r == handsToAdd + InterpolatedHands(startHand, endHand, missedFrames, handIndex, frameIndex)
  {
    var combList := Zip(startHand.landmarks, endHand.landmarks);
    var startFrameIndex := frameIndex - missedFrames;
    r := handsToAdd;
    for step := 0 to missedFrames
      invariant |r| == |handsToAdd| + step && r[..|handsToAdd|] == handsToAdd
      invariant forall i :: 0 <= i < step ==>
        r[|handsToAdd| + i] == InterpolatedHands(startHand, endHand, missedFrames, handIndex, frameIndex)[i]
    {
      var landmarks: seq<HandKeypoint> := [];
      for k := 0 to |combList|
        invariant |landmarks| == k
        invariant forall j :: 0 <= j < k ==>
          landmarks[j] == InterpolatedKeypoint(combList[j].0, combList[j].1, missedFrames, step)
      {
        var (start, end) := combList[k];
        var differenceX := end.x - start.x;
        var differenceY := end.y - start.y;
        landmarks := landmarks + [HandKeypoint(
          start.x + (differenceX / (missedFrames + 1) as real) * (step + 1) as real,
          start.y + (differenceY / (missedFrames + 1) as real) * (step + 1) as real)];
      }
      assert landmarks == InterpolatedLandmarks(combList, missedFrames, step);
      r := r + [Addition(startFrameIndex + step, Hand(handIndex, endHand.right, landmarks, true))];
    }
    assert r == handsToAdd + InterpolatedHands(startHand, endHand, missedFrames, handIndex, frameIndex);
  }

  // findMissingHands as a scan over the frames

  /** What `findMissingHands` keeps while it walks the frames: per slot the last hand seen and
      the number of frames since, and the hands to add so far. */
  datatype Scan = Scan(lastHands: seq<Option<Hand>>, missingFrames: seq<int>, handsToAdd: seq<Addition>)

  predicate Sized(s: Scan, hands: int)
  {
    |s.lastHands| == hands && |s.missingFrames| == hands
  }

  /** Every recorded hand index is non-negative, so `index % hands` is a slot. */
  predicate NonNegativeIndices(frames: seq<seq<Hand>>)
  {
    forall f, h :: 0 <= f < |frames| && 0 <= h < |frames[f]| ==> frames[f][h].index >= 0
  }

  /** The hands that close a gap of `missedFrames` frames of one slot at `frameIndex`. */
  function Gap(last: Option<Hand>, hand: Hand, missedFrames: nat, handIndex: int, frameIndex: int): seq<Addition>
  {
    match last
    case Some(start) => InterpolatedHands(start, hand, missedFrames, handIndex, frameIndex)
    case None => LeadingHands(missedFrames, handIndex, hand)
  }

  /** The body of the loop over the hands of one frame. */
  function SeeHand(s: Scan, hand: Hand, frameIndex: int, hands: int): (r: Scan)
    requires hands > 0 && hand.index >= 0 && Sized(s, hands)
    ensures Sized(r, hands)
  {
    var handIndex := hand.index % hands;
    var missed := s.missingFrames[handIndex];
    if missed > 0 then
      Scan(s.lastHands[handIndex := Some(hand)], s.missingFrames[handIndex := 0],
           s.handsToAdd + Gap(s.lastHands[handIndex], hand, missed, handIndex, frameIndex))
    else
      Scan(s.lastHands[handIndex := Some(hand)], s.missingFrames, s.handsToAdd)
  }

  function SeeHands(s: Scan, frame: seq<Hand>, frameIndex: int, hands: int): (r: Scan)
    requires hands > 0 && Sized(s, hands)
    requires forall h :: 0 <= h < |frame| ==> frame[h].index >= 0
    ensures Sized(r, hands)
    decreases |frame|
  {
    if frame == [] then s
    else
      var n := |frame| - 1;
      SeeHand(SeeHands(s, frame[..n], frameIndex, hands), frame[n], frameIndex, hands)
  }

  /** The slots with a hand in `frame` (`seenIndices`). */
  function SeenSlots(frame: seq<Hand>, hands: int): set<int>
    requires hands > 0
  {
    set h | h in frame :: h.index % hands
  }

  /** Every slot not seen in a frame has missed one more frame. */
  function CountMissing(missing: seq<int>, seen: set<int>): (r: seq<int>)
    ensures |r| == |missing|
  {
    seq(|missing|, i requires 0 <= i < |missing| => if i in seen then missing[i] else missing[i] + 1)
  }

  function FirstScan(hands: nat): (r: Scan)
    ensures Sized(r, hands)
  {
    Scan(seq(hands, _ => None), seq(hands, _ => 0), [])
  }

  function EndFrame(s: Scan, frame: seq<Hand>, hands: int): (r: Scan)
    requires hands > 0
  {
    Scan(s.lastHands, CountMissing(s.missingFrames, SeenSlots(frame, hands)), s.handsToAdd)
  }

  function ScanFrames(frames: seq<seq<Hand>>, hands: int): (r: Scan)
    requires hands > 0 && NonNegativeIndices(frames)
    ensures Sized(r, hands)
  {
    if frames == [] then FirstScan(hands)
    else
      var n := |frames| - 1;
      assert NonNegativeIndices(frames[..n]);
      EndFrame(SeeHands(ScanFrames(frames[..n], hands), frames[n], n, hands), frames[n], hands)
  }

  /** The hands `findMissingHands` returns. */
  function MissingHands(frames: seq<seq<Hand>>, hands: int): seq<Addition>
    requires hands > 0 && NonNegativeIndices(frames)
  {
    ScanFrames(frames, hands).handsToAdd
  }

  predicate Matches(lastHands: array<Option<Hand>>, missingFrames: array<int>, handsToAdd: seq<Addition>, s: Scan)
    reads lastHands, missingFrames
  {
    lastHands[..] == s.lastHands && missingFrames[..] == s.missingFrames && handsToAdd == s.handsToAdd
  }

  /** One hand of a frame: close its slot's gap, if any, and remember it. */
  method VisitHand(hand: Hand, frameIndex: int, hands: int, lastHands: array<Option<Hand>>,
                   missingFrames: array<int>, handsToAdd: seq<Addition>)
    returns (r: seq<Addition>)
    requires hands > 0 && hand.index >= 0 && lastHands.Length == hands && missingFrames.Length == hands
    modifies lastHands, missingFrames
    ensures Matches(lastHands, missingFrames, r,
      SeeHand(Scan(old(lastHands[..]), old(missingFrames[..]), handsToAdd), hand, frameIndex, hands))
  {
    r := handsToAdd;
    var handIndex := hand.index % hands;
    var missedFrames := missingFrames[handIndex];
    if missedFrames > 0 {
      if lastHands[handIndex].Some? {
        r := CreateInterpolatedHands(lastHands[handIndex].value, hand, missedFrames, handIndex, frameIndex, r);
      } else {
        r := CreateLeadingHands(missedFrames, handIndex, hand, r);
      }
      missingFrames[handIndex] := 0;
    }
    lastHands[handIndex] := Some(hand);
  }

  /** The loop over the slots at the end of a frame. */
  method CountMissingFrames(missingFrames: array<int>, seenIndices: set<int>)
    modifies missingFrames
    ensures missingFrames[..] == CountMissing(old(missingFrames[..]), seenIndices)
  {
    for index := 0 to missingFrames.Length
      invariant forall i :: 0 <= i < index ==>
        missingFrames[i] == if i in seenIndices then old(missingFrames[i]) else old(missingFrames[i]) + 1
      invariant forall i :: index <= i < missingFrames.Length ==> missingFrames[i] == old(missingFrames[i])
    {
      if index !in seenIndices {
        missingFrames[index] := missingFrames[index] + 1;
      }
    }
  }

  /** The loop over the hands of one frame: every hand visited in order, and the slots seen. */
  method VisitFrame(frame: seq<Hand>, frameIndex: int, hands: int, lastHands: array<Option<Hand>>,
                    missingFrames: array<int>, handsToAdd: seq<Addition>)
    returns (r: seq<Addition>, seenIndices: set<int>)
    requires hands > 0 && lastHands.Length == hands && missingFrames.Length == hands
    requires forall h :: 0 <= h < |frame| ==> frame[h].index >= 0
    modifies lastHands, missingFrames
    ensures Matches(lastHands, missingFrames, r,
      SeeHands(Scan(old(lastHands[..]), old(missingFrames[..]), handsToAdd), frame, frameIndex, hands))
    ensures seenIndices == SeenSlots(frame, hands)
  {
    ghost var start := Scan(lastHands[..], missingFrames[..], handsToAdd);
    r := handsToAdd;
    seenIndices := {};
    for h := 0 to |frame|
      invariant Matches(lastHands, missingFrames, r, SeeHands(start, frame[..h], frameIndex, hands))
      invariant seenIndices == SeenSlots(frame[..h], hands)
    {
      var hand := frame[h];
      assert frame[..h + 1][..h] == frame[..h] && frame[..h + 1][h] == hand;
      seenIndices := seenIndices + {hand.index % hands};
      r := VisitHand(hand, frameIndex, hands, lastHands, missingFrames, r);
    }
    assert frame[..|frame|] == frame;
  }

  /** The scan of one more frame. */
  lemma ScanFramesSnoc(frames: seq<seq<Hand>>, hands: int, k: int)
    requires hands > 0 && NonNegativeIndices(frames) && 0 <= k < |frames|
    ensures NonNegativeIndices(frames[..k]) && NonNegativeIndices(frames[..k + 1])
    ensures forall h :: 0 <= h < |frames[k]| ==> frames[k][h].index >= 0
    ensures ScanFrames(frames[..k + 1], hands)
         == EndFrame(SeeHands(ScanFrames(frames[..k], hands), frames[k], k, hands), frames[k], hands)
  {
    assert frames[..k + 1][..k] == frames[..k];
    assert frames[..k + 1][k] == frames[k];
  }

  /** `findMissingHands`, with the last hands and the missing counts in arrays of one entry per
      slot. */
  method FindMissingHands(frames: seq<seq<Hand>>, hands: int) returns (handsToAdd: seq<Addition>)
    requires hands > 0 && NonNegativeIndices(frames)
    ensures handsToAdd == MissingHands(frames, hands)
  {
    handsToAdd := [];
    var lastHands := new Option<Hand>[hands](_ => None);
    var missingFrames := new int[hands](_ => 0);
    assert frames[..0] == [];
    for frameIndex := 0 to |frames|
      invariant NonNegativeIndices(frames[..frameIndex])
      invariant Matches(lastHands, missingFrames, handsToAdd, ScanFrames(frames[..frameIndex], hands))
    {
      ScanFramesSnoc(frames, hands, frameIndex);
      var seenIndices;
      handsToAdd, seenIndices := VisitFrame(frames[frameIndex], frameIndex, hands, lastHands, missingFrames, handsToAdd);
      CountMissingFrames(missingFrames, seenIndices);
    }
    assert frames[..|frames|] == frames;
  }

  // fillHoles

  predicate InFrames(adds: seq<Addition>, frameCount: int)
  {
    forall i :: 0 <= i < |adds| ==> 0 <= adds[i].frameIndex < frameCount
  }

  /** The frames after appending every addition, in order, to its frame. */
  function Distribute(frames: seq<seq<Hand>>, adds: seq<Addition>): (r: seq<seq<Hand>>)
    requires InFrames(adds, |frames|)
    ensures |r| == |frames|
  {
    if adds == [] then frames
    else
      var n := |adds| - 1;
      var d := Distribute(frames, adds[..n]);
      var a := adds[n];
      d[a.frameIndex := d[a.frameIndex] + [a.hand]]
  }

  /** The hands of `adds` that go to frame `f`, in order. */
  function HandsAt(adds: seq<Addition>, f: int): seq<Hand>
  {
    if adds == [] then []
    else
      var n := |adds| - 1;
      HandsAt(adds[..n], f) + if adds[n].frameIndex == f then [adds[n].hand] else []
  }

  /** Distributing keeps the number of frames and appends to each frame exactly the hands
      destined for it, in order, after the hands it had. */
  lemma {:induction false} DistributeSpec(frames: seq<seq<Hand>>, adds: seq<Addition>)
    requires InFrames(adds, |frames|)
    ensures forall f :: 0 <= f < |frames| ==> Distribute(frames, adds)[f] == frames[f] + HandsAt(adds, f)
  {
    if adds != [] {
      var n := |adds| - 1;
      DistributeSpec(frames, adds[..n]);
    }
  }

  /** `fillHoles`: every estimated hand appended to its frame. */
  method FillHoles(positions: HandPositions, hands: int)
    requires hands > 0 && NonNegativeIndices(positions.frames)
    modifies positions
    ensures InFrames(MissingHands(old(positions.frames), hands), |old(positions.frames)|)
    ensures positions.frames == Distribute(old(positions.frames), MissingHands(old(positions.frames), hands))
    ensures |positions.frames| == |old(positions.frames)|
    ensures forall f :: 0 <= f < |positions.frames| ==>
      positions.frames[f] == old(positions.frames[f]) + HandsAt(MissingHands(old(positions.frames), hands), f)
    ensures positions.pxOffset == old(positions.pxOffset)
  {
    ghost var frames := positions.frames;
    var handsToAdd := FindMissingHands(positions.frames, hands);
    MissingHandsPlaced(frames, hands);
    for i := 0 to |handsToAdd|
      invariant InFrames(handsToAdd[..i], |frames|)
      invariant positions.frames == Distribute(frames, handsToAdd[..i])
      invariant positions.pxOffset == old(positions.pxOffset)
    {
      var a := handsToAdd[i];
      assert handsToAdd[..i + 1][..i] == handsToAdd[..i] && handsToAdd[..i + 1][i] == a;
      positions.frames := positions.frames[a.frameIndex := positions.frames[a.frameIndex] + [a.hand]];
    }
    assert handsToAdd[..|handsToAdd|] == handsToAdd;
    DistributeSpec(frames, handsToAdd);
  }

  // what the scan computes

  /** The estimated positions lie on the line through the two sightings: at the frame before
      the gap and at the frame after it the line meets them exactly. */
  lemma LerpEnds(a: real, b: real, missedFrames: nat)
    ensures Lerp(a, b, missedFrames, -1) == a
    ensures Lerp(a, b, missedFrames, missedFrames) == b
  {
    var n := (missedFrames + 1) as real;
    assert ((b - a) / n) * n == b - a;
  }

  predicate Between(a: real, v: real, b: real)
  {
    (a < b ==> a < v < b) && (b < a ==> b < v < a) && (a == b ==> v == a)
  }

  /** Inside the gap every estimated coordinate lies strictly between the two sightings. */
  lemma LerpBetween(a: real, b: real, missedFrames: nat, step: int)
    requires 0 <= step < missedFrames
    ensures Between(a, Lerp(a, b, missedFrames, step), b)
  {
    var n := (missedFrames + 1) as real;
    var d := (b - a) / n;
    var t := (step + 1) as real;
    assert d * n == b - a;
    assert 0.0 < t < n;
    if a < b {
      assert d > 0.0;
      assert d * t < d * n;
    } else if b < a {
      assert d < 0.0;
      assert d * t > d * n;
    }
  }

  /** A gap of `missedFrames` frames before `frameIndex` gets one estimated hand per frame,
      in frame order, in the slot `handIndex`, on the side of the hand that ends the gap, with
      as many landmarks as both sightings have and each landmark between its two sightings. */
  lemma InterpolatedHandsSpec(startHand: Hand, endHand: Hand, missedFrames: nat, handIndex: int, frameIndex: int)
    ensures var r := InterpolatedHands(startHand, endHand, missedFrames, handIndex, frameIndex);
      |r| == missedFrames
      && (forall i :: 0 <= i < |r| ==>
            r[i].frameIndex == frameIndex - missedFrames + i
            && r[i].hand.index == handIndex && r[i].hand.right == endHand.right && r[i].hand.estimated
            && |r[i].hand.landmarks| == if |startHand.landmarks| <= |endHand.landmarks| then |startHand.landmarks| else |endHand.landmarks|)
      && (forall i, j :: 0 <= i < |r| && 0 <= j < |r[i].hand.landmarks| ==>
            Between(startHand.landmarks[j].x, r[i].hand.landmarks[j].x, endHand.landmarks[j].x)
            && Between(startHand.landmarks[j].y, r[i].hand.landmarks[j].y, endHand.landmarks[j].y))
  {
    var r := InterpolatedHands(startHand, endHand, missedFrames, handIndex, frameIndex);
    var pairs := Zip(startHand.landmarks, endHand.landmarks);
    forall i, j | 0 <= i < |r| && 0 <= j < |r[i].hand.landmarks|
      ensures Between(startHand.landmarks[j].x, r[i].hand.landmarks[j].x, endHand.landmarks[j].x)
      ensures Between(startHand.landmarks[j].y, r[i].hand.landmarks[j].y, endHand.landmarks[j].y)
    {
      assert r[i].hand.landmarks == InterpolatedLandmarks(pairs, missedFrames, i);
      assert pairs[j] == (startHand.landmarks[j], endHand.landmarks[j]);
      LerpBetween(startHand.landmarks[j].x, endHand.landmarks[j].x, missedFrames, i);
      LerpBetween(startHand.landmarks[j].y, endHand.landmarks[j].y, missedFrames, i);
    }
  }

  /** An addition whose slot is seen again in a frame after the addition's own, before `upto`. */
  predicate Sighted(a: Addition, frames: seq<seq<Hand>>, hands: int, upto: int)
    requires hands > 0
  {
    exists g :: a.frameIndex < g < upto && 0 <= g < |frames| && a.hand.index in SeenSlots(frames[g], hands)
  }

  predicate Placed(adds: seq<Addition>, frames: seq<seq<Hand>>, hands: int, upto: int)
    requires hands > 0
  {
    forall i :: 0 <= i < |adds| ==>
      0 <= adds[i].frameIndex && adds[i].hand.estimated && 0 <= adds[i].hand.index < hands
      && Sighted(adds[i], frames, hands, upto)
  }

  predicate MissingAtMost(s: Scan, hands: int, f: int)
    requires Sized(s, hands)
  {
    forall i :: 0 <= i < hands ==> 0 <= s.missingFrames[i] <= f
  }

  lemma GapPlaced(last: Option<Hand>, frames: seq<seq<Hand>>, f: int, h: int, missed: int, hands: int)
    requires hands > 0 && 0 <= f < |frames| && 0 <= h < |frames[f]| && frames[f][h].index >= 0
    requires 0 < missed <= f
    ensures Placed(Gap(last, frames[f][h], missed, frames[f][h].index % hands, f), frames, hands, f + 1)
  {
    var hand := frames[f][h];
    var slot := hand.index % hands;
    assert slot in SeenSlots(frames[f], hands);
    var g := Gap(last, hand, missed, slot, f);
    forall i | 0 <= i < |g|
      ensures 0 <= g[i].frameIndex && g[i].hand.estimated && 0 <= g[i].hand.index < hands
      ensures Sighted(g[i], frames, hands, f + 1)
    {
      assert g[i].frameIndex < f && g[i].hand.index == slot;
    }
  }

  lemma {:induction false} SeeHandsPlaced(s: Scan, frames: seq<seq<Hand>>, f: int, k: int, hands: int)
    requires hands > 0 && NonNegativeIndices(frames) && 0 <= f < |frames| && 0 <= k <= |frames[f]|
    requires Sized(s, hands) && MissingAtMost(s, hands, f) && Placed(s.handsToAdd, frames, hands, f + 1)
    ensures var r := SeeHands(s, frames[f][..k], f, hands);
      MissingAtMost(r, hands, f) && Placed(r.handsToAdd, frames, hands, f + 1)
  {
    if k > 0 {
      var frame := frames[f][..k];
      assert frame[..k - 1] == frames[f][..k - 1];
      SeeHandsPlaced(s, frames, f, k - 1, hands);
      var p := SeeHands(s, frames[f][..k - 1], f, hands);
      var hand := frames[f][k - 1];
      assert frame[k - 1] == hand;
      var slot := hand.index % hands;
      var missed := p.missingFrames[slot];
      if missed > 0 {
        var g := Gap(p.lastHands[slot], hand, missed, slot, f);
        GapPlaced(p.lastHands[slot], frames, f, k - 1, missed, hands);
        var r := p.handsToAdd + g;
        forall i | 0 <= i < |r|
          ensures 0 <= r[i].frameIndex && r[i].hand.estimated && 0 <= r[i].hand.index < hands
          ensures Sighted(r[i], frames, hands, f + 1)
        {
          if i >= |p.handsToAdd| {
            assert r[i] == g[i - |p.handsToAdd|];
          }
        }
      }
    }
  }

  lemma {:induction false} ScanPlaced(frames: seq<seq<Hand>>, hands: int, f: int)
    requires hands > 0 && NonNegativeIndices(frames) && 0 <= f <= |frames|
    ensures NonNegativeIndices(frames[..f])
    ensures MissingAtMost(ScanFrames(frames[..f], hands), hands, f)
    ensures Placed(ScanFrames(frames[..f], hands).handsToAdd, frames, hands, f)
  {
    assert NonNegativeIndices(frames[..f]);
    if f > 0 {
      ScanPlaced(frames, hands, f - 1);
      var p := ScanFrames(frames[..f - 1], hands);
      assert frames[..f][..f - 1] == frames[..f - 1];
      assert frames[..f][f - 1] == frames[f - 1];
      assert frames[f - 1][..|frames[f - 1]|] == frames[f - 1];
      forall i | 0 <= i < |p.handsToAdd|
        ensures Sighted(p.handsToAdd[i], frames, hands, f)
      {
        var g :| p.handsToAdd[i].frameIndex < g < f - 1 && 0 <= g < |frames|
          && p.handsToAdd[i].hand.index in SeenSlots(frames[g], hands);
      }
      SeeHandsPlaced(p, frames, f - 1, |frames[f - 1]|, hands);
    }
  }

  /** Every estimated hand goes to an existing frame, into a slot, and is followed by a later
      frame in which that slot is seen: a gap that runs to the end of the video is never
      filled. */
  lemma MissingHandsPlaced(frames: seq<seq<Hand>>, hands: int)
    requires hands > 0 && NonNegativeIndices(frames)
    ensures InFrames(MissingHands(frames, hands), |frames|)
    ensures forall a :: a in MissingHands(frames, hands) ==>
      0 <= a.frameIndex < |frames| && a.hand.estimated && 0 <= a.hand.index < hands
      && exists g :: a.frameIndex < g < |frames| && a.hand.index in SeenSlots(frames[g], hands)
  {
    ScanPlaced(frames, hands, |frames|);
    assert frames[..|frames|] == frames;
  }

  /** Frames without any hand at the end of the video add nothing. */
  lemma TrailingEmptyFrame(frames: seq<seq<Hand>>, hands: int)
    requires hands > 0 && NonNegativeIndices(frames)
    ensures NonNegativeIndices(frames + [[]])
    ensures MissingHands(frames + [[]], hands) == MissingHands(frames, hands)
  {
    assert (frames + [[]])[..|frames|] == frames;
  }

  // the meaning of the per-slot state

  /** The last hand of `frame` in `slot`, if any. */
  function LastOfSlot(frame: seq<Hand>, hands: int, slot: int): Option<Hand>
    requires hands > 0
  {
    if frame == [] then None
    else
      var n := |frame| - 1;
      if frame[n].index % hands == slot then Some(frame[n]) else LastOfSlot(frame[..n], hands, slot)
  }

  /** The last hand in `slot` over all frames, if any. */
  function LastSighting(frames: seq<seq<Hand>>, hands: int, slot: int): Option<Hand>
    requires hands > 0
  {
    if frames == [] then None
    else
      var n := |frames| - 1;
      if LastOfSlot(frames[n], hands, slot).Some? then LastOfSlot(frames[n], hands, slot)
      else LastSighting(frames[..n], hands, slot)
  }

  /** The number of frames at the end of `frames` without a hand in `slot`. */
  function AbsentRun(frames: seq<seq<Hand>>, hands: int, slot: int): nat
    requires hands > 0
  {
    if frames == [] then 0
    else
      var n := |frames| - 1;
      if slot in SeenSlots(frames[n], hands) then 0 else 1 + AbsentRun(frames[..n], hands, slot)
  }

  predicate NeverSeen(frames: seq<seq<Hand>>, hands: int, slot: int)
    requires hands > 0
  {
    forall g :: 0 <= g < |frames| ==> slot !in SeenSlots(frames[g], hands)
  }

  lemma {:induction false} LastOfSlotSeen(frame: seq<Hand>, hands: int, slot: int)
    requires hands > 0
    ensures LastOfSlot(frame, hands, slot).Some? <==> slot in SeenSlots(frame, hands)
    ensures LastOfSlot(frame, hands, slot).Some? ==>
      LastOfSlot(frame, hands, slot).value in frame && LastOfSlot(frame, hands, slot).value.index % hands == slot
  {
    if frame != [] {
      var n := |frame| - 1;
      LastOfSlotSeen(frame[..n], hands, slot);
      assert frame == frame[..n] + [frame[n]];
      assert SeenSlots(frame, hands) == SeenSlots(frame[..n], hands) + {frame[n].index % hands};
    }
  }

  /** Within one frame, a slot with a hand ends with no missed frames and its last hand of
      the frame remembered; any other slot is left alone. */
  lemma {:induction false} SeeHandsSlot(s: Scan, frame: seq<Hand>, frameIndex: int, hands: int, slot: int)
    requires hands > 0 && Sized(s, hands) && 0 <= slot < hands && s.missingFrames[slot] >= 0
    requires forall h :: 0 <= h < |frame| ==> frame[h].index >= 0
    ensures var r := SeeHands(s, frame, frameIndex, hands);
      (LastOfSlot(frame, hands, slot).Some? ==> r.missingFrames[slot] == 0 && r.lastHands[slot] == LastOfSlot(frame, hands, slot))
      && (LastOfSlot(frame, hands, slot).None? ==> r.missingFrames[slot] == s.missingFrames[slot] && r.lastHands[slot] == s.lastHands[slot])
  {
    if frame != [] {
      var n := |frame| - 1;
      SeeHandsSlot(s, frame[..n], frameIndex, hands, slot);
    }
  }

  /** One more frame: a slot seen in it has missed no frame and remembers its last hand there;
      any other slot has missed one frame more and keeps its hand. */
  lemma CountersStep(p: Scan, frame: seq<Hand>, frameIndex: int, hands: int, slot: int)
    requires hands > 0 && Sized(p, hands) && 0 <= slot < hands && p.missingFrames[slot] >= 0
    requires forall h :: 0 <= h < |frame| ==> frame[h].index >= 0
    ensures var s := EndFrame(SeeHands(p, frame, frameIndex, hands), frame, hands);
      s.missingFrames[slot] == (if slot in SeenSlots(frame, hands) then 0 else p.missingFrames[slot] + 1)
      && s.lastHands[slot] == (if LastOfSlot(frame, hands, slot).Some? then LastOfSlot(frame, hands, slot) else p.lastHands[slot])
  {
    SeeHandsSlot(p, frame, frameIndex, hands, slot);
    LastOfSlotSeen(frame, hands, slot);
  }

  /** A slot has no last sighting exactly when it was never seen, and then it has missed
      every frame. */
  lemma {:induction false} SightingMeaning(frames: seq<seq<Hand>>, hands: int, slot: int)
    requires hands > 0
    ensures LastSighting(frames, hands, slot).None? <==> NeverSeen(frames, hands, slot)
    ensures NeverSeen(frames, hands, slot) ==> AbsentRun(frames, hands, slot) == |frames|
  {
    if frames != [] {
      var n := |frames| - 1;
      SightingMeaning(frames[..n], hands, slot);
      LastOfSlotSeen(frames[n], hands, slot);
      assert forall g :: 0 <= g < n ==> frames[..n][g] == frames[g];
    }
  }

  /** After any prefix of the frames, a slot's missed-frame count is the number of frames since
      it was last seen, and its remembered hand is its last sighting; a slot never seen has
      missed every frame. */
  lemma {:induction false} CountersMeaning(frames: seq<seq<Hand>>, hands: int, slot: int)
    requires hands > 0 && NonNegativeIndices(frames) && 0 <= slot < hands
    ensures var s := ScanFrames(frames, hands);
      s.missingFrames[slot] == AbsentRun(frames, hands, slot)
      && s.lastHands[slot] == LastSighting(frames, hands, slot)
      && (LastSighting(frames, hands, slot).None? <==> NeverSeen(frames, hands, slot))
      && (NeverSeen(frames, hands, slot) ==> AbsentRun(frames, hands, slot) == |frames|)
  {
    SightingMeaning(frames, hands, slot);
    if frames != [] {
      var n := |frames| - 1;
      assert NonNegativeIndices(frames[..n]);
      CountersMeaning(frames[..n], hands, slot);
      CountersStep(ScanFrames(frames[..n], hands), frames[n], n, hands, slot);
    }
  }

  /** What one hand adds to `handsToAdd`: nothing when its slot already had a hand in this
      frame or has missed no frame; otherwise the gap since the slot's last sighting, bridged by
      interpolation from that sighting, or, when the slot was never seen, one copy for every
      frame from the start of the video. */
  lemma GapAtSighting(frames: seq<seq<Hand>>, hands: int, f: int, h: int)
    requires hands > 0 && NonNegativeIndices(frames) && 0 <= f < |frames| && 0 <= h < |frames[f]|
    ensures NonNegativeIndices(frames[..f])
    ensures var hand := frames[f][h];
      var slot := hand.index % hands;
      var start := ScanFrames(frames[..f], hands);
      var before := SeeHands(start, frames[f][..h], f, hands).handsToAdd;
      var after := SeeHands(start, frames[f][..h + 1], f, hands).handsToAdd;
      var m := AbsentRun(frames[..f], hands, slot);
      var last := LastSighting(frames[..f], hands, slot);
      (slot in SeenSlots(frames[f][..h], hands) ==> after == before)
      && (slot !in SeenSlots(frames[f][..h], hands) && m == 0 ==> after == before)
      && (slot !in SeenSlots(frames[f][..h], hands) && m > 0 ==> after == before + Gap(last, hand, m, slot, f))
      && (last.None? ==> m == f)
  {
    assert NonNegativeIndices(frames[..f]);
    var slot := frames[f][h].index % hands;
    var start := ScanFrames(frames[..f], hands);
    CountersMeaning(frames[..f], hands, slot);
    SightingStep(start, frames[f], f, hands, h, AbsentRun(frames[..f], hands, slot), LastSighting(frames[..f], hands, slot));
  }

  /** Hand `h` of a frame, from a scan whose counter for its slot is `m` and whose remembered
      hand there is `last`: nothing is added when an earlier hand of the frame had the slot or
      `m` is zero, and otherwise the gap of `m` frames. */
  lemma SightingStep(start: Scan, frame: seq<Hand>, f: int, hands: int, h: int, m: int, last: Option<Hand>)
    requires hands > 0 && Sized(start, hands) && 0 <= h < |frame|
    requires forall k :: 0 <= k < |frame| ==> frame[k].index >= 0
    requires start.missingFrames[frame[h].index % hands] == m >= 0
    requires start.lastHands[frame[h].index % hands] == last
    ensures var hand := frame[h];
      var slot := hand.index % hands;
      var before := SeeHands(start, frame[..h], f, hands).handsToAdd;
      var after := SeeHands(start, frame[..h + 1], f, hands).handsToAdd;
      (slot in SeenSlots(frame[..h], hands) ==> after == before)
      && (slot !in SeenSlots(frame[..h], hands) && m == 0 ==> after == before)
      && (slot !in SeenSlots(frame[..h], hands) && m > 0 ==> after == before + Gap(last, hand, m, slot, f))
  {
    var hand := frame[h];
    var slot := hand.index % hands;
    SeeHandsSlot(start, frame[..h], f, hands, slot);
    LastOfSlotSeen(frame[..h], hands, slot);
    assert frame[..h + 1][..h] == frame[..h] && frame[..h + 1][h] == hand;
  }
}
