/**
 * Keyboard geometry: the validation of a key range and the walk over the twelve-entry key
 * table that gives every key in the range its horizontal border (`checkBorderKeys` and
 * `initKeys`, which Main.kt and VidToMid.kt each carry in identical form), the two key tables,
 * and the scaling of borders to pixel columns.
 */
module Keyboard {
  import opened Results
  import opened Spans
  import opened Sequences

  /** One table entry. A white key uses only `second`, its width; a black key is drawn at
      `(x + first, x + second)` from the current offset `x`. */
  datatype KeyShape = KeyShape(first: real, second: real, isWhite: bool)

  /** What `initKeys` returns besides the borders: the number of white keys and the width. */
  datatype KeyCount = KeyCount(whiteKeys: int, width: real)

  /** The reasons `checkBorderKeys` throws, in the order it tests them. */
  datatype KeyRangeError =
    | LowOctaveOutOfRange
    | HighOctaveOutOfRange
    | LowNotBelowHigh
    | BadLowLetter
    | BadHighLetter

  /** The key table with realistic proportions (Main.kt, and `realKeyDimensions` in VidToMid.kt). */
  function RealKeyDimensions(): seq<KeyShape>
  {
    [ KeyShape(0.0, 0.9, true),      // c
      KeyShape(-0.35, 0.15, false),  // cis
      KeyShape(0.9, 0.9, true),      // d
      KeyShape(-0.15, 0.35, false),  // dis
      KeyShape(1.8, 0.9, true),      // e
      KeyShape(2.7, 0.95, true),     // f
      KeyShape(-0.4, 0.1, false),    // fis
      KeyShape(3.65, 0.95, true),    // g
      KeyShape(-0.25, 0.25, false),  // gis
      KeyShape(4.6, 0.95, true),     // a
      KeyShape(-0.1, 0.4, false),    // ais
      KeyShape(5.55, 0.95, true) ]   // h
  }

  /** The key table with seven white keys of equal width per octave, scaled by 6.5
      (`simpleKeyDimensions` in VidToMid.kt). */
  function SimpleKeyDimensions(): seq<KeyShape>
  {
    [ KeyShape(0.0 / 7.0 * 6.5, 1.0 / 7.0 * 6.5, true),
      KeyShape(-0.35 / 6.5 * 6.5, 0.15 / 6.5 * 6.5, false),
      KeyShape(1.0 / 7.0 * 6.5, 1.0 / 7.0 * 6.5, true),
      KeyShape(-0.15 / 6.5 * 6.5, 0.35 / 6.5 * 6.5, false),
      KeyShape(2.0 / 7.0 * 6.5, 1.0 / 7.0 * 6.5, true),
      KeyShape(3.0 / 7.0 * 6.5, 1.0 / 7.0 * 6.5, true),
      KeyShape(-0.4 / 6.5 * 6.5, 0.1 / 6.5 * 6.5, false),
      KeyShape(4.0 / 7.0 * 6.5, 1.0 / 7.0 * 6.5, true),
      KeyShape(-0.25 / 6.5 * 6.5, 0.25 / 6.5 * 6.5, false),
      KeyShape(5.0 / 7.0 * 6.5, 1.0 / 7.0 * 6.5, true),
      KeyShape(-0.1 / 6.5 * 6.5, 0.4 / 6.5 * 6.5, false),
      KeyShape(6.0 / 7.0 * 6.5, 1.0 / 7.0 * 6.5, true) ]
  }

  /** The semitone index of a note letter in German naming (`h` is B); any other character,
      upper-case letters included, falls back to 0 as `keyCodes[c] ?: 0` does. */
  function KeyCode(c: char): (k: nat)
    ensures k in {0, 2, 4, 5, 7, 9, 11}
  {
    match c
    case 'a' => 9
    case 'h' => 11
    case 'c' => 0
    case 'd' => 2
    case 'e' => 4
    case 'f' => 5
    case 'g' => 7
    case _ => 0
  }

  /** `lowercaseChar` on the ASCII letters. */
  function Lower(c: char): char
  {
    if 'A' <= c <= 'Z' then (c as int + 32) as char else c
  }

  predicate IsNoteLetter(c: char)
  {
    Lower(c) in {'a', 'h', 'c', 'd', 'e', 'f', 'g'}
  }

  /** `checkBorderKeys`: the first failing test, or `None` when the range is valid. */
  function CheckBorderKeys(lowNum: int, highNum: int, keyLow: char, keyHigh: char): (e: Option<KeyRangeError>)
    ensures e.None? <==>
      -3 <= lowNum <= 5 && -3 <= highNum <= 5 && lowNum < highNum && IsNoteLetter(keyLow) && IsNoteLetter(keyHigh)
  {
    if !(-3 <= lowNum <= 5) then Some(LowOctaveOutOfRange)
    else if !(-3 <= highNum <= 5) then Some(HighOctaveOutOfRange)
    else if lowNum >= highNum then Some(LowNotBelowHigh)
    else if !IsNoteLetter(keyLow) then Some(BadLowLetter)
    else if !IsNoteLetter(keyHigh) then Some(BadHighLetter)
    else None
  }

  /** `[a, a + 1, ..., b - 1]`. */
  function Range(a: int, b: int): (r: seq<int>)
    ensures |r| == if a <= b then b - a else 0
  {
    seq(if a <= b then b - a else 0, i => a + i)
  }

  /** `Range(a, b)` ends with `b - 1`. */
  lemma RangeSnoc(a: int, b: int)
    requires a < b
    ensures Range(a, b) == Range(a, b - 1) + [b - 1]
  {
    assert forall i :: 0 <= i < b - a ==> Range(a, b)[i] == (Range(a, b - 1) + [b - 1])[i];
  }

  /** `n` whole octaves of semitone indices. */
  function Octaves(n: nat): (r: seq<int>)
    ensures |r| == 12 * n
  {
    if n == 0 then [] else Octaves(n - 1) + Range(0, 12)
  }

  /** The table indices `initKeys` visits: the partial octave from the low letter, the whole
      octaves strictly between the two octave numbers, and the partial octave up to the high letter. */
  function KeyIndices(lowCode: int, lowNum: int, highCode: int, highNum: int): (r: seq<int>)
    requires 0 <= lowCode <= 12 && 0 <= highCode && lowNum < highNum
    ensures |r| == (12 - lowCode) + 12 * (highNum - lowNum - 1) + (highCode + 1)
  {
    Range(lowCode, 12) + Octaves(highNum - lowNum - 1) + Range(0, highCode + 1)
  }

  /** The table entry `k`; the walk only ever visits indices inside the table. */
  function ShapeAt(table: seq<KeyShape>, k: int): KeyShape
  {
    if 0 <= k < |table| then table[k] else KeyShape(0.0, 0.0, false)
  }

  /** The border of one key drawn at offset `x`. */
  function KeyBorder(shape: KeyShape, x: real): Span
  {
    if shape.isWhite then Span(x, x + shape.second) else Span(x + shape.first, x + shape.second)
  }

  /** How far one key moves the offset: its width if white, nothing if black. */
  function Advance(shape: KeyShape): real
  {
    if shape.isWhite then shape.second else 0.0
  }

  /** The walk's state: the borders appended so far, the white-key count, and the offset
      (which is also the keyboard width so far). */
  datatype Layout = Layout(borders: seq<Span>, whiteKeys: int, width: real)

  /** One step of the walk: the border of key `k` at the current offset, then the advance. */
  function Step(table: seq<KeyShape>, l: Layout, k: int): Layout
  {
    var shape := ShapeAt(table, k);
    Layout(l.borders + [KeyBorder(shape, l.width)],
           l.whiteKeys + (if shape.isWhite then 1 else 0),
           l.width + Advance(shape))
  }

  /** The walk over the keys `idx` from the state `l`. */
  function WalkFrom(table: seq<KeyShape>, l: Layout, idx: seq<int>): (r: Layout)
    ensures |r.borders| == |l.borders| + |idx|
  {
    if idx == [] then l else Step(table, WalkFrom(table, l, idx[..|idx| - 1]), idx[|idx| - 1])
  }

  /** The walk over `idx` from an empty keyboard. */
  function Walk(table: seq<KeyShape>, idx: seq<int>): Layout
  {
    WalkFrom(table, Layout([], 0, 0.0), idx)
  }

  lemma WalkFromSnoc(table: seq<KeyShape>, l: Layout, idx: seq<int>, k: int)
    ensures WalkFrom(table, l, idx + [k]) == Step(table, WalkFrom(table, l, idx), k)
  {
    assert (idx + [k])[..|idx + [k]| - 1] == idx;
  }

  /** Walking `a` and then `b` is walking `a + b`. */
  lemma {:induction false} WalkFromAppend(table: seq<KeyShape>, l: Layout, a: seq<int>, b: seq<int>)
    ensures WalkFrom(table, WalkFrom(table, l, a), b) == WalkFrom(table, l, a + b)
    decreases |b|
  {
    if b == [] {
      assert a + b == a;
    } else {
      var init := b[..|b| - 1];
      WalkFromAppend(table, l, a, init);
      assert (a + b)[..|a + b| - 1] == a + init;
    }
  }

  /** The borders already in the list do not influence the walk: it only appends. */
  lemma {:induction false} WalkFromPrefix(table: seq<KeyShape>, prefix: seq<Span>, l: Layout, idx: seq<int>)
    ensures WalkFrom(table, Layout(prefix + l.borders, l.whiteKeys, l.width), idx)
         == Layout(prefix + WalkFrom(table, l, idx).borders, WalkFrom(table, l, idx).whiteKeys, WalkFrom(table, l, idx).width)
    decreases |idx|
  {
    if idx != [] {
      WalkFromPrefix(table, prefix, l, idx[..|idx| - 1]);
      var w := WalkFrom(table, l, idx[..|idx| - 1]);
      assert prefix + w.borders + [KeyBorder(ShapeAt(table, idx[|idx| - 1]), w.width)]
          == prefix + (w.borders + [KeyBorder(ShapeAt(table, idx[|idx| - 1]), w.width)]);
    }
  }

  /** The loop body of `initKeys`: appends the border of one key and advances the offset,
      the white-key counter and the width. */
  method AddKey(dim: KeyShape, keys: seq<Span>, xOffset: real, whiteKeys: int, width: real)
    returns (keys': seq<Span>, xOffset': real, whiteKeys': int, width': real)
    ensures keys' == keys + [KeyBorder(dim, xOffset)]
    ensures xOffset' == xOffset + Advance(dim) && width' == width + Advance(dim)
    ensures whiteKeys' == whiteKeys + (if dim.isWhite then 1 else 0)
  {
    keys', xOffset', whiteKeys', width' := keys, xOffset, whiteKeys, width;
    if dim.isWhite {
      keys' := keys' + [Span(xOffset', xOffset' + dim.second)];
      xOffset' := xOffset' + dim.second;
      whiteKeys' := whiteKeys' + 1;
      width' := width' + dim.second;
    } else {
      keys' := keys' + [Span(xOffset' + dim.first, xOffset' + dim.second)];
    }
  }

  /** One `for (key in from..to)` loop of `initKeys`: walks the table entries `from` to `to`.
      The offset and the width are separate variables in the source and stay equal. */
  method AddKeyRun(table: seq<KeyShape>, from: int, to: int,
                   keys: seq<Span>, xOffset: real, whiteKeys: int, width: real)
    returns (keys': seq<Span>, xOffset': real, whiteKeys': int, width': real)
    requires 0 <= from <= to + 1 && to < |table|
    requires xOffset == width
    ensures xOffset' == width'
    ensures Layout(keys', whiteKeys', width') == WalkFrom(table, Layout(keys, whiteKeys, width), Range(from, to + 1))
  {
    keys', xOffset', whiteKeys', width' := keys, xOffset, whiteKeys, width;
    var key := from;
    while key <= to
      invariant from <= key <= to + 1
      invariant xOffset' == width'
      invariant Layout(keys', whiteKeys', width') == WalkFrom(table, Layout(keys, whiteKeys, width), Range(from, key))
    {
      WalkFromSnoc(table, Layout(keys, whiteKeys, width), Range(from, key), key);
      RangeSnoc(from, key + 1);
      keys', xOffset', whiteKeys', width' := AddKey(ShapeAt(table, key), keys', xOffset', whiteKeys', width');
      key := key + 1;
    }
  }

  /** The `for (scale in from until until)` loop of `initKeys`: one whole octave per step. */
  method AddOctaves(table: seq<KeyShape>, from: int, until: int,
                    keys: seq<Span>, xOffset: real, whiteKeys: int, width: real)
    returns (keys': seq<Span>, xOffset': real, whiteKeys': int, width': real)
    requires |table| == 12 && from <= until
    requires xOffset == width
    ensures xOffset' == width'
    ensures Layout(keys', whiteKeys', width') == WalkFrom(table, Layout(keys, whiteKeys, width), Octaves(until - from))
  {
    keys', xOffset', whiteKeys', width' := keys, xOffset, whiteKeys, width;
    var scale := from;
    while scale < until
      invariant from <= scale <= until
      invariant xOffset' == width'
      invariant Layout(keys', whiteKeys', width') == WalkFrom(table, Layout(keys, whiteKeys, width), Octaves(scale - from))
    {
      keys', xOffset', whiteKeys', width' := AddOctave(table, keys', xOffset', whiteKeys', width', Layout(keys, whiteKeys, width), scale - from);
      scale := scale + 1;
    }
  }

  /** One step of that loop: the keys 0 to 11 of one octave. */
  method AddOctave(table: seq<KeyShape>, keys: seq<Span>, xOffset: real, whiteKeys: int, width: real,
                   ghost start: Layout, ghost n: nat)
    returns (keys': seq<Span>, xOffset': real, whiteKeys': int, width': real)
    requires |table| == 12 && xOffset == width
    requires Layout(keys, whiteKeys, width) == WalkFrom(table, start, Octaves(n))
    ensures xOffset' == width'
    ensures Layout(keys', whiteKeys', width') == WalkFrom(table, start, Octaves(n + 1))
  {
    keys', xOffset', whiteKeys', width' := AddKeyRun(table, 0, 11, keys, xOffset, whiteKeys, width);
    WalkFromAppend(table, start, Octaves(n), Range(0, 12));
  }

  /** The three loops of `initKeys` once the range is known to be valid. */
  method WalkKeys(table: seq<KeyShape>, lowCode: int, lowNum: int, highCode: int, highNum: int, outKeys: seq<Span>)
    returns (whiteKeys: int, width: real, keys: seq<Span>)
    requires |table| == 12 && 0 <= lowCode < 12 && 0 <= highCode < 12 && lowNum < highNum
    ensures Layout(keys, whiteKeys, width) == WalkFrom(table, Layout(outKeys, 0, 0.0), KeyIndices(lowCode, lowNum, highCode, highNum))
  {
    var xOffset := 0.0;
    ghost var start := Layout(outKeys, 0, 0.0);
    ghost var lower, octaves, upper := Range(lowCode, 12), Octaves(highNum - (lowNum + 1)), Range(0, highCode + 1);
    // lower single keys
    keys, xOffset, whiteKeys, width := AddKeyRun(table, lowCode, 11, outKeys, 0.0, 0, 0.0);
    ghost var l1 := Layout(keys, whiteKeys, width);
    // octave keys
    keys, xOffset, whiteKeys, width := AddOctaves(table, lowNum + 1, highNum, keys, xOffset, whiteKeys, width);
    ghost var l2 := Layout(keys, whiteKeys, width);
    WalkFromAppend(table, start, lower, octaves);
    assert l2 == WalkFrom(table, start, lower + octaves);
    // upper single keys
    keys, xOffset, whiteKeys, width := AddKeyRun(table, 0, highCode, keys, xOffset, whiteKeys, width);
    WalkFromAppend(table, start, lower + octaves, upper);
    assert KeyIndices(lowCode, lowNum, highCode, highNum) == lower + octaves + upper;
  }

  /**
   * `initKeys`: validates the range first and appends nothing when it is invalid; otherwise
   * appends one border per visited key to `outKeys` and returns the white-key count and the
   * width (the final offset).
   */
  method InitKeys(table: seq<KeyShape>, keyLow: char, lowNum: int, keyHigh: char, highNum: int, outKeys: seq<Span>)
    returns (res: Result<KeyCount, KeyRangeError>, keys: seq<Span>)
    requires |table| == 12
    ensures res.Err? <==> CheckBorderKeys(lowNum, highNum, keyLow, keyHigh).Some?
    ensures res.Err? ==> res.error == CheckBorderKeys(lowNum, highNum, keyLow, keyHigh).value && keys == outKeys
    ensures res.Ok? ==>
      var l := Walk(table, KeyIndices(KeyCode(keyLow), lowNum, KeyCode(keyHigh), highNum));
      keys == outKeys + l.borders && res.value == KeyCount(l.whiteKeys, l.width)
  {
    var check := CheckBorderKeys(lowNum, highNum, keyLow, keyHigh);
    if check.Some? {
      return Err(check.value), outKeys;
    }
    var whiteKeys, width;
    whiteKeys, width, keys := WalkKeys(table, KeyCode(keyLow), lowNum, KeyCode(keyHigh), highNum, outKeys);
    WalkFromPrefix(table, outKeys, Layout([], 0, 0.0), KeyIndices(KeyCode(keyLow), lowNum, KeyCode(keyHigh), highNum));
    assert outKeys + [] == outKeys;
    res := Ok(KeyCount(whiteKeys, width));
  }

  /** Whether table entry `k` is a white key. */
  function WhiteAt(table: seq<KeyShape>): int -> bool
  {
    k => ShapeAt(table, k).isWhite
  }

  /** How far table entry `k` moves the offset. */
  function AdvanceAt(table: seq<KeyShape>): int -> real
  {
    k => Advance(ShapeAt(table, k))
  }

  /** The walk's counter grows by the number of white keys walked and its offset by the
      sum of their widths. */
  lemma {:induction false} WalkFromTotals(table: seq<KeyShape>, l: Layout, idx: seq<int>)
    ensures WalkFrom(table, l, idx).whiteKeys == l.whiteKeys + Count(idx, WhiteAt(table))
    ensures WalkFrom(table, l, idx).width == l.width + Sum(Map(idx, AdvanceAt(table)))
    decreases |idx|
  {
    if idx != [] {
      var init, k := idx[..|idx| - 1], idx[|idx| - 1];
      assert idx == init + [k];
      WalkFromTotals(table, l, init);
      FilterAppend(init, [k], WhiteAt(table));
      MapAppend(init, [k], AdvanceAt(table));
      var a := Advance(ShapeAt(table, k));
      assert Map([k], AdvanceAt(table)) == [a];
      SumAppend(Map(init, AdvanceAt(table)), [a]);
      assert Sum([a]) == a + Sum([]);
      assert WalkFrom(table, l, idx).width == WalkFrom(table, l, init).width + a;
    }
  }

  /** The walk only appends to the borders it started with. */
  lemma {:induction false} WalkFromKeeps(table: seq<KeyShape>, l: Layout, idx: seq<int>)
    ensures WalkFrom(table, l, idx).borders[..|l.borders|] == l.borders
    decreases |idx|
  {
    if idx != [] {
      WalkFromKeeps(table, l, idx[..|idx| - 1]);
    }
  }

  /** The border of the `i`-th walked key is that key's shape placed at the start offset plus
      the advances of the keys before it. */
  lemma WalkFromBorderAt(table: seq<KeyShape>, l: Layout, idx: seq<int>, i: int)
    requires 0 <= i < |idx|
    ensures WalkFrom(table, l, idx).borders[|l.borders| + i]
         == KeyBorder(ShapeAt(table, idx[i]), l.width + Sum(Map(idx[..i], AdvanceAt(table))))
  {
    WalkFromPrefixBorder(table, l, idx, i + 1, |l.borders| + i);
    WalkFromLastBorder(table, l, idx, i);
  }

  /** Walking more keys leaves the borders of the keys walked so far alone. */
  lemma WalkFromPrefixBorder(table: seq<KeyShape>, l: Layout, idx: seq<int>, n: int, j: int)
    requires 0 <= n <= |idx| && 0 <= j < |l.borders| + n
    ensures WalkFrom(table, l, idx).borders[j] == WalkFrom(table, l, idx[..n]).borders[j]
  {
    assert idx == idx[..n] + idx[n..];
    WalkFromAppend(table, l, idx[..n], idx[n..]);
    WalkFromKeeps(table, WalkFrom(table, l, idx[..n]), idx[n..]);
  }

  /** The border of the `i`-th walked key, the last of the first `i + 1`, lies at the start
      offset plus the advances before it. */
  lemma WalkFromLastBorder(table: seq<KeyShape>, l: Layout, idx: seq<int>, i: int)
    requires 0 <= i < |idx|
    ensures WalkFrom(table, l, idx[..i + 1]).borders[|l.borders| + i]
         == KeyBorder(ShapeAt(table, idx[i]), l.width + Sum(Map(idx[..i], AdvanceAt(table))))
  {
    assert idx[..i + 1] == idx[..i] + [idx[i]];
    WalkFromSnoc(table, l, idx[..i], idx[i]);
    WalkFromTotals(table, l, idx[..i]);
  }

  /** The table layout of a piano octave: white keys exactly at C, D, E, F, G, A and H. */
  predicate StandardPattern(table: seq<KeyShape>)
  {
    |table| == 12
    && forall k :: 0 <= k < 12 ==> (table[k].isWhite <==> k in {0, 2, 4, 5, 7, 9, 11})
  }

  /** Every white key of the table has a positive width. */
  predicate PositiveWhiteWidths(table: seq<KeyShape>)
  {
    forall k :: 0 <= k < |table| && table[k].isWhite ==> table[k].second > 0.0
  }

  lemma TablesAreStandard()
    ensures StandardPattern(RealKeyDimensions()) && PositiveWhiteWidths(RealKeyDimensions())
    ensures StandardPattern(SimpleKeyDimensions()) && PositiveWhiteWidths(SimpleKeyDimensions())
  {
  }

  /** `Range(a, b)` splits at any point in between. */
  lemma RangeSplit(a: int, m: int, b: int)
    requires a <= m <= b
    ensures Range(a, b) == Range(a, m) + Range(m, b)
  {
    assert forall i :: 0 <= i < b - a ==> Range(a, b)[i] == (Range(a, m) + Range(m, b))[i];
  }

  /** The number of white keys among the semitones below `b` in one octave. */
  function WhitesBelow(b: int): nat
    requires 0 <= b <= 12
  {
    [0, 1, 1, 2, 2, 3, 4, 4, 5, 5, 6, 6, 7][b]
  }

  lemma WhitesBelowStep(b: int)
    requires 0 < b <= 12
    ensures WhitesBelow(b) == WhitesBelow(b - 1) + if b - 1 in {0, 2, 4, 5, 7, 9, 11} then 1 else 0
  {
  }

  lemma {:induction false} CountWhiteBelow(table: seq<KeyShape>, b: int)
    requires StandardPattern(table) && 0 <= b <= 12
    ensures Count(Range(0, b), WhiteAt(table)) == WhitesBelow(b)
  {
    if b > 0 {
      var w := WhiteAt(table);
      CountWhiteBelow(table, b - 1);
      RangeSnoc(0, b);
      FilterAppend(Range(0, b - 1), [b - 1], w);
      assert [b - 1][1..] == [];
      assert w(b - 1) == table[b - 1].isWhite;
      WhitesBelowStep(b);
    }
  }

  /** Whole octaves hold seven white keys each. */
  lemma {:induction false} CountOctaves(w: int -> bool, n: nat)
    requires Count(Range(0, 12), w) == 7
    ensures Count(Octaves(n), w) == 7 * n
  {
    if n > 0 {
      CountOctaves(w, n - 1);
      FilterAppend(Octaves(n - 1), Range(0, 12), w);
    }
  }

  /** The white keys of a range: those of the low partial octave from the low letter, seven
      per whole octave in between, and those of the high partial octave up to the high letter. */
  lemma WhiteKeyCount(table: seq<KeyShape>, lowCode: int, lowNum: int, highCode: int, highNum: int)
    requires StandardPattern(table) && 0 <= lowCode < 12 && 0 <= highCode < 12 && lowNum < highNum
    ensures Walk(table, KeyIndices(lowCode, lowNum, highCode, highNum)).whiteKeys
         == (7 - WhitesBelow(lowCode)) + 7 * (highNum - lowNum - 1) + WhitesBelow(highCode + 1)
  {
    var w := WhiteAt(table);
    var low, mid, high := Range(lowCode, 12), Octaves(highNum - lowNum - 1), Range(0, highCode + 1);
    WalkFromTotals(table, Layout([], 0, 0.0), low + mid + high);
    FilterAppend(low + mid, high, w);
    FilterAppend(low, mid, w);
    CountWhiteBelow(table, 12);
    CountOctaves(w, highNum - lowNum - 1);
    RangeSplit(0, lowCode, 12);
    FilterAppend(Range(0, lowCode), low, w);
    CountWhiteBelow(table, lowCode);
    CountWhiteBelow(table, highCode + 1);
  }

  /** The 88-key piano from A in octave -3 to C in octave 5 (the range `initKeys` is given):
      88 borders, 52 of them white keys. */
  lemma PianoKeyboard(table: seq<KeyShape>)
    requires StandardPattern(table)
    ensures var l := Walk(table, KeyIndices(KeyCode('a'), -3, KeyCode('c'), 5));
      |l.borders| == 88 && l.whiteKeys == 52
  {
    WhiteKeyCount(table, 9, -3, 0, 5);
  }

  /**
   * In a valid range the keyboard starts and ends with a white key, so the first border
   * starts at offset 0 with the width of the low key, and the last border ends exactly at the
   * keyboard width `initKeys` returns.
   */
  lemma KeyboardEdges(table: seq<KeyShape>, keyLow: char, lowNum: int, keyHigh: char, highNum: int)
    requires StandardPattern(table) && lowNum < highNum
    ensures var idx := KeyIndices(KeyCode(keyLow), lowNum, KeyCode(keyHigh), highNum);
      var l := Walk(table, idx);
      l.borders[0] == Span(0.0, table[KeyCode(keyLow)].second)
      && l.borders[|l.borders| - 1].second == l.width
  {
    var lowCode, highCode := KeyCode(keyLow), KeyCode(keyHigh);
    var idx := KeyIndices(lowCode, lowNum, highCode, highNum);
    assert idx[0] == lowCode;
    assert idx[|idx| - 1] == highCode;
    WalkFromBorderAt(table, Layout([], 0, 0.0), idx, 0);
    assert idx[..0] == [];
    assert idx == idx[..|idx| - 1] + [highCode];
  }
}
