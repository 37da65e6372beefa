/**
 * From key borders in keyboard units to pixel columns (VidToMid.kt and Main.kt): the lens
 * correction of VidToMid.kt (`tuneKeyBorders` and `distort`), and the scaling of borders by
 * pixels per keyboard unit with right edges capped at the image width.
 */
module Calibration {
  import opened Results
  import opened Spans
  import opened Sequences
  import opened Keyboard

  // distort and tuneKeyBorders

  /** `x.pow(3)`. */
  function Cube(x: real): real
  {
    x * x * x
  }

  /** The share of the keyboard left after the correction at both ends. */
  function NewLength(origin: real, k: real): real
  {
    1.0 - (Cube(origin) * k + Cube(1.0 - origin) * k)
  }

  /** `distort`: a cubic correction around `origin` (a share of `width`), rescaled so that the
      keyboard keeps its width. */
  function Distort(pos: real, origin: real, width: real, k: real): real
    requires width != 0.0 && NewLength(origin, k) != 0.0
  {
    var x := pos / width;
    var left := Cube(origin) * k;
    var right := Cube(1.0 - origin) * k;
    var newLength := 1.0 - (left + right);
    var offset := Cube(x - origin) * k;
    (x - offset - left) / (newLength / width)
  }

  lemma CubeNegate(x: real)
    ensures Cube(-x) == -Cube(x)
  {
  }

  /** Without distortion every position stays where it is. */
  lemma DistortIdentity(pos: real, origin: real, width: real)
    requires width != 0.0
    ensures NewLength(origin, 0.0) == 1.0
    ensures Distort(pos, origin, width, 0.0) == pos
  {
    var x := pos / width;
    assert x * width == pos;
    assert x / (1.0 / width) == x * width;
  }

  /** Whatever the coefficient, the two ends of the keyboard stay fixed. */
  lemma DistortEnds(origin: real, width: real, k: real)
    requires width != 0.0 && NewLength(origin, k) != 0.0
    ensures Distort(0.0, origin, width, k) == 0.0
    ensures Distort(width, origin, width, k) == width
  {
    var n := NewLength(origin, k);
    CubeNegate(origin);
    assert 0.0 / width == 0.0;
    assert Cube(0.0 - origin) == -Cube(origin);
    assert width / width == 1.0;
    assert 1.0 - Cube(1.0 - origin) * k - Cube(origin) * k == n;
    assert n / (n / width) == width by {
      assert (n / width) * width == n;
    }
  }

  /** `borders.maxOf { it.second }` throws on an empty list. */
  datatype TuneError = NoBorders

  function Right(s: Span): real
  {
    s.second
  }

  /** The widest right edge, the width `tuneKeyBorders` corrects against. */
  function MaxRight(borders: seq<Span>): real
    requires borders != []
  {
    Max(Map(borders, Right))
  }

  /** Both edges of one border, corrected against `width`. */
  function TuneBorder(b: Span, origin: real, width: real, k: real): Span
    requires width != 0.0 && NewLength(origin, k) != 0.0
  {
    Span(Distort(b.first, origin, width, k), Distort(b.second, origin, width, k))
  }

  /** `tuneKeyBorders`: every border corrected against the widest right edge. */
  function TuneKeyBorders(borders: seq<Span>, origin: real, k: real): Result<seq<Span>, TuneError>
    requires borders != [] ==> MaxRight(borders) != 0.0
    requires NewLength(origin, k) != 0.0
  {
    if borders == [] then Err(NoBorders)
    else
      var width := MaxRight(borders);
      Ok(Map(borders, (b: Span) => TuneBorder(b, origin, width, k)))
  }

  /** The correction keeps the number and order of the borders; a border at the left end or
      at the widest right edge keeps that edge; without distortion nothing changes. It throws
      only on an empty list. */
  lemma TuneKeyBordersSpec(borders: seq<Span>, origin: real, k: real)
    requires borders != [] ==> MaxRight(borders) != 0.0
    requires NewLength(origin, k) != 0.0
    ensures TuneKeyBorders(borders, origin, k).Err? <==> borders == []
    ensures borders != [] ==>
      var r := TuneKeyBorders(borders, origin, k).value;
      var width := MaxRight(borders);
      |r| == |borders|
      && (forall i :: 0 <= i < |borders| && borders[i].first == 0.0 ==> r[i].first == 0.0)
      && (forall i :: 0 <= i < |borders| && borders[i].second == width ==> r[i].second == width)
      && (exists i :: 0 <= i < |borders| && r[i].second == width)
      && (k == 0.0 ==> r == borders)
  {
    if borders != [] {
      var width := MaxRight(borders);
      var r := TuneKeyBorders(borders, origin, k).value;
      DistortEnds(origin, width, k);
      var i :| 0 <= i < |borders| && Map(borders, Right)[i] == width;
      assert r[i].second == width;
      if k == 0.0 {
        forall j | 0 <= j < |borders| ensures r[j] == borders[j] {
          DistortIdentity(borders[j].first, origin, width);
          DistortIdentity(borders[j].second, origin, width);
        }
      }
    }
  }

  // scaling to pixels

  /** `coerceAtMost`. */
  function AtMost(x: real, limit: real): (r: real)
  {
    if x > limit then limit else x
  }

  /** A border in keyboard units as pixel columns, the right edge capped at `imgWidth`. */
  function ScaleBorder(b: Span, pixelsPerUnit: real, imgWidth: real): Span
  {
    Span(b.first * pixelsPerUnit, AtMost(b.second * pixelsPerUnit, imgWidth))
  }

  /** Every border scaled (Main.kt `detectNotesInVideo`, VidToMid.kt `longImageToMidi`). */
  function ScaleToPixels(borders: seq<Span>, pixelsPerUnit: real, imgWidth: real): seq<Span>
  {
    Map(borders, (b: Span) => ScaleBorder(b, pixelsPerUnit, imgWidth))
  }

  /** No scaled right edge lies past the image; an edge inside the image is the exact
      product; with `imgWidth / keyboardWidth` pixels per unit a border ending at the keyboard
      width ends exactly at the image width. */
  lemma ScaleToPixelsSpec(borders: seq<Span>, keyboardWidth: real, imgWidth: real)
    requires keyboardWidth != 0.0
    ensures var ppu := imgWidth / keyboardWidth;
      var r := ScaleToPixels(borders, ppu, imgWidth);
      |r| == |borders|
      && (forall i :: 0 <= i < |r| ==> r[i].first == borders[i].first * ppu && r[i].second <= imgWidth)
      && (forall i :: 0 <= i < |r| && borders[i].second * ppu <= imgWidth ==> r[i].second == borders[i].second * ppu)
      && (forall i :: 0 <= i < |r| && borders[i].second == keyboardWidth ==> r[i].second == imgWidth)
  {
    var ppu := imgWidth / keyboardWidth;
    assert keyboardWidth * ppu == imgWidth;
  }

  /** With a standard table whose white keys have positive widths, a valid key range gives a
      keyboard of positive width, so pixels per unit are defined. */
  lemma KeyboardWidthPositive(table: seq<KeyShape>, keyLow: char, lowNum: int, keyHigh: char, highNum: int)
    requires StandardPattern(table) && PositiveWhiteWidths(table) && lowNum < highNum
    ensures Walk(table, KeyIndices(KeyCode(keyLow), lowNum, KeyCode(keyHigh), highNum)).width > 0.0
  {
    var idx := KeyIndices(KeyCode(keyLow), lowNum, KeyCode(keyHigh), highNum);
    LastKeyIndex(KeyCode(keyLow), lowNum, KeyCode(keyHigh), highNum);
    assert table[KeyCode(keyHigh)].isWhite;
    WidthFromLastKey(table, idx);
  }

  /** A walk that ends on a white key of positive width has a positive width. */
  lemma WidthFromLastKey(table: seq<KeyShape>, idx: seq<int>)
    requires PositiveWhiteWidths(table) && idx != []
    requires 0 <= idx[|idx| - 1] < |table| && table[idx[|idx| - 1]].isWhite
    ensures Walk(table, idx).width > 0.0
  {
    var adv := Map(idx, AdvanceAt(table));
    WalkFromTotals(table, Layout([], 0, 0.0), idx);
    AdvancesNonNegative(table, idx);
    PositiveLastSum(adv);
  }

  lemma LastKeyIndex(lowCode: int, lowNum: int, highCode: int, highNum: int)
    requires 0 <= lowCode < 12 && 0 <= highCode < 12 && lowNum < highNum
    ensures var idx := KeyIndices(lowCode, lowNum, highCode, highNum);
      idx[|idx| - 1] == highCode
  {
  }

  lemma AdvancesNonNegative(table: seq<KeyShape>, idx: seq<int>)
    requires PositiveWhiteWidths(table)
    ensures forall i :: 0 <= i < |idx| ==> Map(idx, AdvanceAt(table))[i] >= 0.0
  {
  }

  /** A sum of non-negative reals whose last one is positive is positive. */
  lemma PositiveLastSum(s: seq<real>)
    requires s != [] && s[|s| - 1] > 0.0
    requires forall i :: 0 <= i < |s| ==> s[i] >= 0.0
    ensures Sum(s) > 0.0
  {
    var n := |s| - 1;
    assert s == s[..n] + [s[n]];
    SumAppend(s[..n], [s[n]]);
    assert Sum([s[n]]) == s[n] + Sum([]);
    NonNegativeSum(s[..n]);
  }

  lemma {:induction false} NonNegativeSum(s: seq<real>)
    requires forall i :: 0 <= i < |s| ==> 0.0 <= s[i]
    ensures Sum(s) >= 0.0
  {
    if s != [] {
      NonNegativeSum(s[1..]);
    }
  }
}
