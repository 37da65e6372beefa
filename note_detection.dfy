/**
 * The note detection of VidToMid.kt (`detectNotesInImagePP`) on what OpenCV reports: for each
 * key, the columns of its slice of the long image, the choice of note candidates among the
 * contours found there (holes of depth exactly one, wide enough), the removal of candidates
 * enclosed by another, and one key-down and one key-up event per remaining note.
 */
module NoteDetection {
  import opened Spans
  import opened Sequences
  import opened Numbers

  // rectangles

  /** OpenCV's `Rect`: the top-left corner and the size, in pixels. */
  datatype Rect = Rect(x: int, y: int, width: int, height: int)

  datatype Point = Point(x: int, y: int)

  /** `Rect.tl()`. */
  function Tl(r: Rect): Point
  {
    Point(r.x, r.y)
  }

  /** `Rect.br()`: one past the last column and row. */
  function Br(r: Rect): Point
  {
    Point(r.x + r.width, r.y + r.height)
  }

  /** `Rect.contains`: half-open on both axes. */
  predicate Contains(r: Rect, p: Point)
  {
    r.x <= p.x < r.x + r.width && r.y <= p.y < r.y + r.height
  }

  /** `one` holds both corners of `other`. */
  predicate Encloses(one: Rect, other: Rect)
  {
    Contains(one, Tl(other)) && Contains(one, Br(other))
  }

  /** Because the bottom-right corner lies outside a rectangle, no rectangle encloses itself,
      and an enclosed rectangle of non-negative size does not enclose its encloser. */
  lemma EnclosesStrict(a: Rect, b: Rect)
    ensures !Encloses(a, a)
    ensures Encloses(a, b) && b.width >= 0 ==> !Encloses(b, a) && b.width < a.width
  {
  }

  // the slice of one key

  /** The pixels added to both sides of a key's border. */
  const BonusPx := 3

  /** `coerceIn(lo, hi)`. */
  function Clamp(v: int, lo: int, hi: int): int
    requires lo <= hi
  {
    if v < lo then lo else if v > hi then hi else v
  }

  /** The first and one-past-last column of a key's slice: the border widened by `BonusPx` on
      both sides, rounded and clamped to the image. */
  function SliceColumns(border: Span, imgWidth: int): (int, int)
    requires imgWidth >= 0
  {
    (Clamp(Round(border.first - BonusPx as real), 0, imgWidth),
     Clamp(Round(border.second + BonusPx as real), 0, imgWidth))
  }

  /** The slice lies inside the image; a rounded edge inside the image is taken as it is; a
      well-formed border gives a slice whose start does not lie past its end. */
  lemma SliceColumnsSpec(border: Span, imgWidth: int)
    requires imgWidth >= 0
    ensures var (start, end) := SliceColumns(border, imgWidth);
      var left, right := Round(border.first - 3.0), Round(border.second + 3.0);
      0 <= start <= imgWidth && 0 <= end <= imgWidth
      && (0 <= left <= imgWidth ==> start == left)
      && (0 <= right <= imgWidth ==> end == right)
      && (border.first <= border.second ==> start <= end)
  {
    if border.first <= border.second {
      RoundMonotone(border.first - 3.0, border.second + 3.0);
    }
  }

  // the contour hierarchy

  /** Every parent entry (the fourth field of a hierarchy entry) is -1, for no parent, or the
      index of a contour. */
  predicate ValidParents(parents: seq<int>)
  {
    forall i :: 0 <= i < |parents| ==> -1 <= parents[i] < |parents|
  }

  /** What is reached after `n` steps up the parent chain from `p`; -1 stays -1. */
  function Up(parents: seq<int>, p: int, n: nat): (r: int)
    requires ValidParents(parents) && -1 <= p < |parents|
    ensures -1 <= r < |parents|
    decreases n
  {
    if n == 0 || p == -1 then p else Up(parents, parents[p], n - 1)
  }

  /** No parent chain runs in a circle: from every contour, as many steps as there are
      contours reach the top. */
  predicate Acyclic(parents: seq<int>)
    requires ValidParents(parents)
  {
    forall p :: 0 <= p < |parents| ==> Up(parents, p, |parents|) == -1
  }

  /** The number of steps from `p` up to the top, looking at most `n` steps ahead. */
  function ChainLength(parents: seq<int>, p: int, n: nat): nat
    requires ValidParents(parents) && -1 <= p < |parents|
    decreases n
  {
    if p == -1 || n == 0 then 0 else 1 + ChainLength(parents, parents[p], n - 1)
  }

  /** The depth of contour `x`: the number of its ancestors. */
  function Depth(parents: seq<int>, x: int): nat
    requires ValidParents(parents) && 0 <= x < |parents|
  {
    ChainLength(parents, parents[x], |parents|)
  }

  /** The walk up from contour `x`'s parent reaches the top within `|parents|` steps. */
  lemma ParentReachesTop(parents: seq<int>, x: int)
    requires ValidParents(parents) && Acyclic(parents) && 0 <= x < |parents|
    ensures Up(parents, parents[x], |parents|) == -1
  {
    assert Up(parents, x, |parents|) == -1;
    assert Up(parents, parents[x], |parents| - 1) == -1;
    UpStaysAtTop(parents, parents[x], |parents| - 1, |parents|);
  }

  lemma {:induction false} UpStaysAtTop(parents: seq<int>, p: int, n: nat, m: nat)
    requires ValidParents(parents) && -1 <= p < |parents|
    requires Up(parents, p, n) == -1 && n <= m
    ensures Up(parents, p, m) == -1
    decreases n
  {
    if n > 0 && p != -1 {
      UpStaysAtTop(parents, parents[p], n - 1, m - 1);
    }
  }

  /** The depth walk of `detectNotesInImagePP`: up the parent chain until there is none. */
  method ContourDepth(parents: seq<int>, x: int) returns (depth: nat)
    requires ValidParents(parents) && Acyclic(parents) && 0 <= x < |parents|
    ensures depth == Depth(parents, x)
  {
    var parentIndex := parents[x];
    depth := 0;
    ghost var fuel: nat := |parents|;
    ParentReachesTop(parents, x);
    while parentIndex != -1
      invariant -1 <= parentIndex < |parents|
      invariant Up(parents, parentIndex, fuel) == -1
      invariant depth + ChainLength(parents, parentIndex, fuel) == Depth(parents, x)
      decreases fuel
    {
      depth := depth + 1;
      parentIndex := parents[parentIndex];
      fuel := fuel - 1;
    }
  }

  /** When the walk reaches the top, `ChainLength` is the number of steps it takes: that many
      steps reach the top and no fewer do. */
  lemma {:induction false} ChainLengthSpec(parents: seq<int>, p: int, n: nat)
    requires ValidParents(parents) && -1 <= p < |parents| && Up(parents, p, n) == -1
    ensures Up(parents, p, ChainLength(parents, p, n)) == -1
    ensures forall k: nat :: k < ChainLength(parents, p, n) ==> Up(parents, p, k) != -1
    decreases n
  {
    if p != -1 && n > 0 {
      ChainLengthSpec(parents, parents[p], n - 1);
      forall k: nat | 0 < k < ChainLength(parents, p, n) ensures Up(parents, p, k) != -1 {
        assert Up(parents, p, k) == Up(parents, parents[p], k - 1);
      }
    }
  }

  /** A contour has depth exactly one when it has a parent and that parent has none: in the
      two-level hierarchy of `RETR_CCOMP`, it is a hole inside an outer contour. */
  lemma DepthOne(parents: seq<int>, x: int)
    requires ValidParents(parents) && Acyclic(parents) && 0 <= x < |parents|
    ensures Depth(parents, x) == 1 <==> parents[x] != -1 && parents[parents[x]] == -1
  {
    var p := parents[x];
    if p != -1 {
      assert Up(parents, p, |parents|) == -1 by {
        ParentReachesTop(parents, x);
      }
      assert Up(parents, parents[p], |parents| - 1) == -1;
      assert Depth(parents, x) == 1 + ChainLength(parents, parents[p], |parents| - 1);
      if parents[p] != -1 {
        assert |parents| - 1 > 0;
        assert ChainLength(parents, parents[p], |parents| - 1) >= 1;
      }
    }
  }

  // note candidates

  /** What `findContours` reports for one slice: the parent entry of each contour and its
      bounding rectangle, both relative to the slice. */
  datatype Contours = Contours(parents: seq<int>, boxes: seq<Rect>)

  /** One bounding rectangle per contour, and a hierarchy that is a forest. */
  predicate ValidContours(c: Contours)
  {
    |c.boxes| == |c.parents| && ValidParents(c.parents) && Acyclic(c.parents)
  }

  /** The least width of a note: 55 per cent of the key's width. */
  function WidthThreshold(border: Span): real
  {
    (border.second - border.first) * 0.55
  }

  /** Contour `x` is a note candidate: of depth exactly one and wide enough. */
  predicate Kept(c: Contours, border: Span, x: int)
    requires ValidContours(c) && 0 <= x < |c.parents|
  {
    Depth(c.parents, x) == 1 && c.boxes[x].width as real >= WidthThreshold(border)
  }

  /** A bounding rectangle moved from slice columns to image columns. */
  function ToImage(b: Rect, border: Span): Rect
  {
    Rect(Truncate(border.first) + b.x - BonusPx, b.y, b.width, b.height)
  }

  /** The candidates among the first `n` contours, in contour order. */
  function Candidates(c: Contours, border: Span, n: nat): seq<Rect>
    requires ValidContours(c) && n <= |c.parents|
  {
    if n == 0 then []
    else Candidates(c, border, n - 1) + (if Kept(c, border, n - 1) then [ToImage(c.boxes[n - 1], border)] else [])
  }

  /** The loop over the hierarchy that fills `potNotes`. */
  method SelectCandidates(c: Contours, border: Span) returns (potNotes: seq<Rect>)
    requires ValidContours(c)
    ensures potNotes == Candidates(c, border, |c.parents|)
  {
    var widthThreshold := (border.second - border.first) * 0.55;
    potNotes := [];
    for x := 0 to |c.parents|
      invariant potNotes == Candidates(c, border, x)
    {
      var depth := ContourDepth(c.parents, x);
      if depth != 1 {
        continue;
      }
      var bounding := c.boxes[x];
      if bounding.width as real >= widthThreshold {
        potNotes := potNotes + [Rect(Truncate(border.first) + bounding.x - BonusPx, bounding.y, bounding.width, bounding.height)];
      }
    }
  }

  /** A rectangle is a candidate exactly when it is the moved bounding rectangle of a kept
      contour. */
  lemma {:induction false} CandidatesSpec(c: Contours, border: Span, n: nat, r: Rect)
    requires ValidContours(c) && n <= |c.parents|
    ensures r in Candidates(c, border, n) <==>
      exists x :: 0 <= x < n && Kept(c, border, x) && r == ToImage(c.boxes[x], border)
  {
    if n > 0 {
      CandidatesSpec(c, border, n - 1, r);
    }
  }

  // removing enclosed candidates

  /** Some candidate encloses `r`. */
  predicate Inner(cands: seq<Rect>, r: Rect)
  {
    exists j :: 0 <= j < |cands| && Encloses(cands[j], r)
  }

  function NotInner(cands: seq<Rect>): Rect -> bool
  {
    r => !Inner(cands, r)
  }

  /** The candidates left once every enclosed one is removed, in their order. */
  function Survivors(cands: seq<Rect>): seq<Rect>
  {
    Filter(cands, NotInner(cands))
  }

  /** What the outer loop of the collection keeps after the first `i` candidates: only
      enclosed candidates are collected, and every one the first `i` enclose is. */
  predicate Collected(potNotes: seq<Rect>, innerNotes: seq<Rect>, i: int)
  {
    (forall r :: r in innerNotes ==> Inner(potNotes, r))
    && forall j, k :: 0 <= j < i && j < |potNotes| && 0 <= k < |potNotes| && Encloses(potNotes[j], potNotes[k]) ==> potNotes[k] in innerNotes
  }

  /** The candidates among the first `n` of `s` that `one` encloses, in their order. */
  function EnclosedAmong(one: Rect, s: seq<Rect>, n: nat): seq<Rect>
    requires n <= |s|
  {
    if n == 0 then []
    else EnclosedAmong(one, s, n - 1) + (if Encloses(one, s[n - 1]) then [s[n - 1]] else [])
  }

  lemma {:induction false} EnclosedAmongSpec(one: Rect, s: seq<Rect>, n: nat)
    requires n <= |s|
    ensures forall r :: r in EnclosedAmong(one, s, n) ==> Encloses(one, r)
    ensures forall k :: 0 <= k < n && Encloses(one, s[k]) ==> s[k] in EnclosedAmong(one, s, n)
  {
    if n > 0 {
      EnclosedAmongSpec(one, s, n - 1);
    }
  }

  /** The inner loop: the candidates that candidate `i` encloses are appended. */
  method CollectEnclosedBy(potNotes: seq<Rect>, i: int, innerNotes0: seq<Rect>) returns (innerNotes: seq<Rect>)
    requires 0 <= i < |potNotes|
    ensures innerNotes == innerNotes0 + EnclosedAmong(potNotes[i], potNotes, |potNotes|)
  {
    innerNotes := innerNotes0;
    var one := potNotes[i];
    for k := 0 to |potNotes|
      invariant innerNotes == innerNotes0 + EnclosedAmong(one, potNotes, k)
    {
      var other := potNotes[k];
      if Contains(one, Tl(other)) && Contains(one, Br(other)) {
        innerNotes := innerNotes + [other];
      }
    }
  }

  /** One more pass of the outer loop keeps `Collected`. */
  lemma CollectedStep(potNotes: seq<Rect>, innerNotes0: seq<Rect>, i: int)
    requires 0 <= i < |potNotes| && Collected(potNotes, innerNotes0, i)
    ensures Collected(potNotes, innerNotes0 + EnclosedAmong(potNotes[i], potNotes, |potNotes|), i + 1)
  {
    var added := EnclosedAmong(potNotes[i], potNotes, |potNotes|);
    EnclosedAmongSpec(potNotes[i], potNotes, |potNotes|);
    forall r | r in innerNotes0 + added ensures Inner(potNotes, r) {
      if r !in innerNotes0 {
        assert Encloses(potNotes[i], r);
      }
    }
  }

  /** The nested loop that collects `innerNotes`: every candidate some candidate encloses,
      and nothing else. */
  method CollectInner(potNotes: seq<Rect>) returns (innerNotes: seq<Rect>)
    ensures forall r :: r in innerNotes ==> Inner(potNotes, r)
    ensures forall r :: r in potNotes && Inner(potNotes, r) ==> r in innerNotes
  {
    innerNotes := [];
    for i := 0 to |potNotes|
      invariant Collected(potNotes, innerNotes, i)
    {
      CollectedStep(potNotes, innerNotes, i);
      innerNotes := CollectEnclosedBy(potNotes, i, innerNotes);
    }
    forall r | r in potNotes && Inner(potNotes, r) ensures r in innerNotes {
      var j :| 0 <= j < |potNotes| && Encloses(potNotes[j], r);
      var k :| 0 <= k < |potNotes| && potNotes[k] == r;
    }
  }

  /** `innerNotes` collected over all pairs, then `potNotes.removeAll(innerNotes)`. */
  method RemoveInner(potNotes: seq<Rect>) returns (survivors: seq<Rect>)
    ensures survivors == Survivors(potNotes)
  {
    var innerNotes := CollectInner(potNotes);
    survivors := [];
    for i := 0 to |potNotes|
      invariant survivors == Filter(potNotes[..i], NotInner(potNotes))
    {
      var note := potNotes[i];
      assert potNotes[..i + 1] == potNotes[..i] + [note];
      FilterAppend(potNotes[..i], [note], NotInner(potNotes));
      assert note in innerNotes <==> Inner(potNotes, note);
      if note !in innerNotes {
        survivors := survivors + [note];
      }
    }
    assert potNotes[..|potNotes|] == potNotes;
  }

  /** A candidate survives exactly when no candidate encloses it, so no two survivors
      enclose each other, and a candidate enclosed by nothing but itself would survive. */
  lemma SurvivorsSpec(cands: seq<Rect>)
    ensures forall r :: r in Survivors(cands) <==> r in cands && !Inner(cands, r)
    ensures forall a, b :: a in Survivors(cands) && b in Survivors(cands) ==> !Encloses(a, b)
  {
    FilterSpec(cands, NotInner(cands));
    forall r | r in cands && !Inner(cands, r) ensures r in Survivors(cands) {
      FilterKeeps(cands, NotInner(cands), r);
    }
  }

  lemma {:induction false} FilterKeeps<T>(s: seq<T>, p: T -> bool, x: T)
    requires x in s && p(x)
    ensures x in Filter(s, p)
  {
    if s[0] != x {
      FilterKeeps(s[1..], p, x);
    }
  }

  // events

  /** VidToMid.kt's `KeyEvent`: a position in pixels from the bottom of the long image, the
      key, whether the key goes down, and the hand (always 0 here). */
  datatype KeyEvent = KeyEvent(pos: real, key: int, pressed: bool, hand: int)

  /** The two events of one note, counted from the bottom of the image: the key goes down one
      row below the rectangle and comes up one row above it. */
  function NoteEvents(note: Rect, keyIndex: int, imgHeight: int): seq<KeyEvent>
  {
    [KeyEvent((imgHeight - (note.y + note.height + 1)) as real, keyIndex, true, 0),
     KeyEvent((imgHeight - (note.y - 1)) as real, keyIndex, false, 0)]
  }

  /** The events of a key's notes, in note order. */
  function KeyNoteEvents(notes: seq<Rect>, keyIndex: int, imgHeight: int): seq<KeyEvent>
  {
    if notes == [] then []
    else KeyNoteEvents(notes[..|notes| - 1], keyIndex, imgHeight) + NoteEvents(notes[|notes| - 1], keyIndex, imgHeight)
  }

  /** The loop over the remaining notes that appends to `notes`. */
  method EmitEvents(survivors: seq<Rect>, keyIndex: int, imgHeight: int, notes: seq<KeyEvent>)
    returns (r: seq<KeyEvent>)
    ensures r == notes + KeyNoteEvents(survivors, keyIndex, imgHeight)
  {
    r := notes;
    for i := 0 to |survivors|
      invariant r == notes + KeyNoteEvents(survivors[..i], keyIndex, imgHeight)
    {
      var note := survivors[i];
      var down := imgHeight - (note.y + note.height + 1);
      var up := imgHeight - (note.y - 1);
      assert survivors[..i + 1][..i] == survivors[..i];
      r := r + [KeyEvent(down as real, keyIndex, true, 0)];
      r := r + [KeyEvent(up as real, keyIndex, false, 0)];
    }
    assert survivors[..|survivors|] == survivors;
  }

  /** Each note gives exactly one key-down event followed by one key-up event for the same
      key, the key going up `height + 2` rows after it went down. */
  lemma {:induction false} KeyNoteEventsSpec(notes: seq<Rect>, keyIndex: int, imgHeight: int)
    ensures var r := KeyNoteEvents(notes, keyIndex, imgHeight);
      |r| == 2 * |notes|
      && forall i :: 0 <= i < |notes| ==>
        r[2 * i] == KeyEvent((imgHeight - (notes[i].y + notes[i].height + 1)) as real, keyIndex, true, 0)
        && r[2 * i + 1] == KeyEvent((imgHeight - (notes[i].y - 1)) as real, keyIndex, false, 0)
        && r[2 * i + 1].pos - r[2 * i].pos == (notes[i].height + 2) as real
  {
    if notes != [] {
      var n := |notes| - 1;
      KeyNoteEventsSpec(notes[..n], keyIndex, imgHeight);
    }
  }

  /** Every event of a key's notes carries that key. */
  lemma {:induction false} KeyNoteEventsKeys(notes: seq<Rect>, keyIndex: int, imgHeight: int)
    ensures forall e :: e in KeyNoteEvents(notes, keyIndex, imgHeight) ==> e.key == keyIndex
  {
    if notes != [] {
      var n := |notes| - 1;
      KeyNoteEventsKeys(notes[..n], keyIndex, imgHeight);
      var pair := NoteEvents(notes[n], keyIndex, imgHeight);
      assert forall e :: e in pair ==> e.key == keyIndex;
    }
  }

  /** A note of non-negative height is released after it is pressed. */
  lemma PressedBeforeReleased(notes: seq<Rect>, keyIndex: int, imgHeight: int, i: int)
    requires 0 <= i < |notes| && notes[i].height >= 0
    ensures var r := KeyNoteEvents(notes, keyIndex, imgHeight);
      2 * i + 1 < |r| && r[2 * i].pressed && !r[2 * i + 1].pressed && r[2 * i].pos < r[2 * i + 1].pos
  {
    KeyNoteEventsSpec(notes, keyIndex, imgHeight);
  }

  // the whole image

  /** The events of one key: the survivors among the candidates of the contours found in its
      slice. */
  function KeyNotes(c: Contours, border: Span, keyIndex: int, imgHeight: int): seq<KeyEvent>
    requires ValidContours(c)
  {
    KeyNoteEvents(Survivors(Candidates(c, border, |c.parents|)), keyIndex, imgHeight)
  }

  /** The contours OpenCV finds in the slice of the key with this border. */
  function KeySlice(border: Span, findContours: (int, int) -> Contours, imgWidth: int): (c: Contours)
    requires imgWidth >= 0
    requires forall s, e :: ValidContours(findContours(s, e))
    ensures ValidContours(c)
  {
    var columns := SliceColumns(border, imgWidth);
    findContours(columns.0, columns.1)
  }

  /** The events of each key's slice, key by key. `findContours(start, end)` stands for the
      contours OpenCV finds in columns `start` to `end` of the image. */
  function KeyBlocks(keyBorders: seq<Span>, findContours: (int, int) -> Contours, imgWidth: int, imgHeight: int): (r: seq<seq<KeyEvent>>)
    requires imgWidth >= 0
    requires forall s, e :: ValidContours(findContours(s, e))
    ensures |r| == |keyBorders|
  {
    seq(|keyBorders|, i requires 0 <= i < |keyBorders| =>
      KeyNotes(KeySlice(keyBorders[i], findContours, imgWidth), keyBorders[i], i, imgHeight))
  }

  /** The events of the first `n` keys, one key after the other. */
  function DetectedNotes(keyBorders: seq<Span>, findContours: (int, int) -> Contours, imgWidth: int, imgHeight: int, n: nat): seq<KeyEvent>
    requires imgWidth >= 0 && n <= |keyBorders|
    requires forall s, e :: ValidContours(findContours(s, e))
  {
    Concat(KeyBlocks(keyBorders, findContours, imgWidth, imgHeight)[..n])
  }

  /** One more key appends the events of its slice. */
  lemma DetectedNotesSnoc(keyBorders: seq<Span>, findContours: (int, int) -> Contours, imgWidth: int, imgHeight: int, n: nat)
    requires imgWidth >= 0 && n < |keyBorders|
    requires forall s, e :: ValidContours(findContours(s, e))
    ensures DetectedNotes(keyBorders, findContours, imgWidth, imgHeight, n + 1)
      == DetectedNotes(keyBorders, findContours, imgWidth, imgHeight, n)
       + KeyNotes(KeySlice(keyBorders[n], findContours, imgWidth), keyBorders[n], n, imgHeight)
  {
    var blocks := KeyBlocks(keyBorders, findContours, imgWidth, imgHeight);
    assert blocks[..n + 1] == blocks[..n] + [blocks[n]];
    ConcatAppend(blocks[..n], [blocks[n]]);
    assert Concat([blocks[n]]) == blocks[n] + Concat([]);
  }

  /** `detectNotesInImagePP` on the grey image's size and the contours of each slice. */
  method DetectNotesInImage(imgWidth: int, imgHeight: int, keyBorders: seq<Span>, findContours: (int, int) -> Contours)
    returns (notes: seq<KeyEvent>)
    requires imgWidth >= 0
    requires forall s, e :: ValidContours(findContours(s, e))
    ensures notes == DetectedNotes(keyBorders, findContours, imgWidth, imgHeight, |keyBorders|)
  {
    notes := [];
    for keyIndex := 0 to |keyBorders|
      invariant notes == DetectedNotes(keyBorders, findContours, imgWidth, imgHeight, keyIndex)
    {
      var border := keyBorders[keyIndex];
      var borderStart := Clamp(Round(border.first - BonusPx as real), 0, imgWidth);
      var borderEnd := Clamp(Round(border.second + BonusPx as real), 0, imgWidth);
      var contours := findContours(borderStart, borderEnd);
      assert contours == KeySlice(border, findContours, imgWidth);
      var potNotes := SelectCandidates(contours, border);
      potNotes := RemoveInner(potNotes);
      notes := EmitEvents(potNotes, keyIndex, imgHeight, notes);
      DetectedNotesSnoc(keyBorders, findContours, imgWidth, imgHeight, keyIndex);
    }
  }

  function OfKey(k: int): KeyEvent -> bool
  {
    (e: KeyEvent) => e.key == k
  }

  lemma {:induction false} FilterKeyNoteEvents(notes: seq<Rect>, keyIndex: int, imgHeight: int, k: int)
    ensures Filter(KeyNoteEvents(notes, keyIndex, imgHeight), OfKey(k)) == if keyIndex == k then KeyNoteEvents(notes, keyIndex, imgHeight) else []
  {
    if notes != [] {
      var n := |notes| - 1;
      var pair := NoteEvents(notes[n], keyIndex, imgHeight);
      FilterKeyNoteEvents(notes[..n], keyIndex, imgHeight, k);
      FilterAppend(KeyNoteEvents(notes[..n], keyIndex, imgHeight), pair, OfKey(k));
      assert pair[1..][1..] == [];
    }
  }

  /** The events of key `k` among all events are exactly the events of key `k`'s own slice:
      each key's notes end up under that key, and nowhere else. */
  lemma DetectedNotesOfKey(keyBorders: seq<Span>, findContours: (int, int) -> Contours, imgWidth: int, imgHeight: int, n: nat, k: int)
    requires imgWidth >= 0 && n <= |keyBorders|
    requires forall s, e :: ValidContours(findContours(s, e))
    ensures Filter(DetectedNotes(keyBorders, findContours, imgWidth, imgHeight, n), OfKey(k))
      == if 0 <= k < n then KeyNotes(KeySlice(keyBorders[k], findContours, imgWidth), keyBorders[k], k, imgHeight) else []
  {
    var all := KeyBlocks(keyBorders, findContours, imgWidth, imgHeight);
    forall i | 0 <= i < n
      ensures Filter(all[i], OfKey(k)) == if i == k then all[i] else []
    {
      KeyBlockOfKey(keyBorders, findContours, imgWidth, imgHeight, i, k);
    }
    FilterPrefixOfKey(all, n, k);
  }

  /** The events of one key's slice all belong to that key. */
  lemma KeyBlockOfKey(keyBorders: seq<Span>, findContours: (int, int) -> Contours, imgWidth: int, imgHeight: int, i: int, k: int)
    requires imgWidth >= 0 && 0 <= i < |keyBorders|
    requires forall s, e :: ValidContours(findContours(s, e))
    ensures var b := KeyBlocks(keyBorders, findContours, imgWidth, imgHeight)[i];
      Filter(b, OfKey(k)) == if i == k then b else []
  {
    KeyNotesOfKey(KeySlice(keyBorders[i], findContours, imgWidth), keyBorders[i], i, imgHeight, k);
  }

  /** `FilterConcatOfKey` on the first `n` blocks. */
  lemma FilterPrefixOfKey(all: seq<seq<KeyEvent>>, n: int, k: int)
    requires 0 <= n <= |all|
    requires forall i :: 0 <= i < n ==> Filter(all[i], OfKey(k)) == if i == k then all[i] else []
    ensures Filter(Concat(all[..n]), OfKey(k)) == if 0 <= k < n then all[k] else []
  {
    var blocks := all[..n];
    forall i | 0 <= i < |blocks|
      ensures Filter(blocks[i], OfKey(k)) == if 0 + i == k then blocks[i] else []
    {
      assert blocks[i] == all[i];
    }
    FilterConcatOfKey(blocks, 0, k);
  }

  /** Blocks of events each of one key, the keys counting up from `base`: the events of key
      `k` are the block of that key, if there is one. */
  lemma {:induction false} FilterConcatOfKey(blocks: seq<seq<KeyEvent>>, base: int, k: int)
    requires forall i :: 0 <= i < |blocks| ==> Filter(blocks[i], OfKey(k)) == if base + i == k then blocks[i] else []
    ensures Filter(Concat(blocks), OfKey(k)) == if 0 <= k - base < |blocks| then blocks[k - base] else []
  {
    if blocks != [] {
      FilterConcatOfKey(blocks[1..], base + 1, k);
      FilterAppend(blocks[0], Concat(blocks[1..]), OfKey(k));
      assert Filter(blocks[0], OfKey(k)) == if base == k then blocks[0] else [];
    }
  }

  /** The events of one key's slice all belong to that key. */
  lemma KeyNotesOfKey(c: Contours, border: Span, keyIndex: int, imgHeight: int, k: int)
    requires ValidContours(c)
    ensures Filter(KeyNotes(c, border, keyIndex, imgHeight), OfKey(k))
         == if keyIndex == k then KeyNotes(c, border, keyIndex, imgHeight) else []
  {
    FilterKeyNoteEvents(Survivors(Candidates(c, border, |c.parents|)), keyIndex, imgHeight, k);
  }
}
