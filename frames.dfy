/**
 The low-resolution test frames that the recorder compares, and the count of
 changed pixels that decides whether a tick saw motion.

 A frame is indexed `frame[x][y]`, column by column, the way the recorder's
 nested loops read it. Only the green channel takes part in the comparison.
 */
module Frames {

  /** One 8-bit colour channel. */
  type Channel = c: int | 0 <= c < 256

  datatype Pixel = Pixel(red: Channel, green: Channel, blue: Channel)

  type Column = seq<Pixel>

  /** A test frame: `frame[x]` is column x, `frame[x][y]` the pixel at (x, y). */
  type Frame = seq<Column>

  /** `f` has exactly `width` columns of `height` pixels each. */
  predicate IsFrame(f: Frame, width: nat, height: nat)
  {
    |f| == width && forall x :: 0 <= x < width ==> |f[x]| == height
  }

  /** `f` has at least the rectangle [0, w) x [0, h). */
  predicate Covers(f: Frame, w: nat, h: nat)
  {
    w <= |f| && forall x :: 0 <= x < w ==> h <= |f[x]|
  }

  /** A freshly created all-black RGB image of the given size. */
  function Black(width: nat, height: nat): (f: Frame)
    ensures IsFrame(f, width, height)
    ensures forall x, y :: 0 <= x < width && 0 <= y < height ==> f[x][y] == Pixel(0, 0, 0)
  {
    seq(width, _ => seq(height, _ => Pixel(0, 0, 0)))
  }

  function Abs(n: int): (r: nat)
    ensures r == n || r == -n
  {
    if n < 0 then -n else n
  }

  /** A pixel counts as changed when its green value moved by strictly more than `threshold`. */
  predicate Changed(before: Pixel, after: Pixel, threshold: int)
  {
    Abs(before.green - after.green) > threshold
  }

  /** The number of changed pixels among rows [0, h) of one column. */
  function ColumnCount(before: Column, after: Column, h: nat, threshold: int): (n: nat)
    requires h <= |before| && h <= |after|
    ensures n <= h
  {
    if h == 0 then 0
    else ColumnCount(before, after, h - 1, threshold) + (if Changed(before[h - 1], after[h - 1], threshold) then 1 else 0)
  }

  /** The number of changed pixels in the rectangle [0, w) x [0, h), column by column. */
  function ChangedCount(before: Frame, after: Frame, w: nat, h: nat, threshold: int): (n: nat)
    requires Covers(before, w, h) && Covers(after, w, h)
    ensures n <= w * h
  {
    if w == 0 then 0
    else
      var n := ChangedCount(before, after, w - 1, h, threshold) + ColumnCount(before[w - 1], after[w - 1], h, threshold);
      assert (w - 1) * h + h == w * h;
      n
  }

  /** Reference definition: the set of changed coordinates in [0, w) x [0, h). */
  ghost function ChangedPixels(before: Frame, after: Frame, w: nat, h: nat, threshold: int): set<(int, int)>
    requires Covers(before, w, h) && Covers(after, w, h)
  {
    set x, y | 0 <= x < w && 0 <= y < h && Changed(before[x][y], after[x][y], threshold) :: (x, y)
  }

  /** The changed coordinates of column x among rows [0, h). */
  ghost function ColumnPixels(before: Frame, after: Frame, x: nat, h: nat, threshold: int): set<(int, int)>
    requires Covers(before, x + 1, h) && Covers(after, x + 1, h)
  {
    set y | 0 <= y < h && Changed(before[x][y], after[x][y], threshold) :: (x, y)
  }

  lemma {:induction false} ColumnCountIsCardinality(before: Frame, after: Frame, x: nat, h: nat, threshold: int)
    requires Covers(before, x + 1, h) && Covers(after, x + 1, h)
    ensures ColumnCount(before[x], after[x], h, threshold) == |ColumnPixels(before, after, x, h, threshold)|
  {
    if h > 0 {
      ColumnCountIsCardinality(before, after, x, h - 1, threshold);
      var prefix := ColumnPixels(before, after, x, h - 1, threshold);
      var last: set<(int, int)> := if Changed(before[x][h - 1], after[x][h - 1], threshold) then {(x, h - 1)} else {};
      assert ColumnPixels(before, after, x, h, threshold) == prefix + last;
      assert (x, h - 1) !in prefix;
      assert prefix * last == {};
    }
  }

  /** The column-by-column count is the number of changed coordinates. */
  lemma {:induction false} CountIsCardinality(before: Frame, after: Frame, w: nat, h: nat, threshold: int)
    requires Covers(before, w, h) && Covers(after, w, h)
    ensures ChangedCount(before, after, w, h, threshold) == |ChangedPixels(before, after, w, h, threshold)|
  {
    if w == 0 {
      assert ChangedPixels(before, after, w, h, threshold) == {};
    } else {
      CountIsCardinality(before, after, w - 1, h, threshold);
      ColumnCountIsCardinality(before, after, w - 1, h, threshold);
      var left := ChangedPixels(before, after, w - 1, h, threshold);
      var column := ColumnPixels(before, after, w - 1, h, threshold);
      assert ChangedPixels(before, after, w, h, threshold) == left + column;
      assert left * column == {};
    }
  }

  /**
   The count looks at nothing but the green values inside [0, w) x [0, h):
   two frame pairs that agree there have the same count.
   */
  lemma {:induction false} CountDependsOnlyOnGreenInside(before: Frame, after: Frame, before': Frame, after': Frame, w: nat, h: nat, threshold: int)
    requires Covers(before, w, h) && Covers(after, w, h) && Covers(before', w, h) && Covers(after', w, h)
    requires forall x, y :: 0 <= x < w && 0 <= y < h ==> before[x][y].green == before'[x][y].green
    requires forall x, y :: 0 <= x < w && 0 <= y < h ==> after[x][y].green == after'[x][y].green
    ensures ChangedCount(before, after, w, h, threshold) == ChangedCount(before', after', w, h, threshold)
  {
    CountIsCardinality(before, after, w, h, threshold);
    CountIsCardinality(before', after', w, h, threshold);
    assert ChangedPixels(before, after, w, h, threshold) == ChangedPixels(before', after', w, h, threshold);
  }

  /** When no green value inside the rectangle moved by more than `threshold`, nothing is counted. */
  lemma {:induction false} SmallDifferencesCountNothing(before: Frame, after: Frame, w: nat, h: nat, threshold: int)
    requires Covers(before, w, h) && Covers(after, w, h)
    requires forall x, y :: 0 <= x < w && 0 <= y < h ==> Abs(before[x][y].green - after[x][y].green) <= threshold
    ensures ChangedCount(before, after, w, h, threshold) == 0
  {
    CountIsCardinality(before, after, w, h, threshold);
    assert ChangedPixels(before, after, w, h, threshold) == {};
  }

  /** When every green value inside the rectangle moved by more than `threshold`, every pixel is counted. */
  lemma {:induction false} LargeDifferencesCountEverything(before: Frame, after: Frame, w: nat, h: nat, threshold: int)
    requires Covers(before, w, h) && Covers(after, w, h)
    requires forall x, y :: 0 <= x < w && 0 <= y < h ==> Abs(before[x][y].green - after[x][y].green) > threshold
    ensures ChangedCount(before, after, w, h, threshold) == w * h
  {
    if w > 0 {
      LargeDifferencesCountEverything(before, after, w - 1, h, threshold);
      FullColumnCount(before[w - 1], after[w - 1], h, threshold);
      assert (w - 1) * h + h == w * h;
    }
  }

  lemma {:induction false} FullColumnCount(before: Column, after: Column, h: nat, threshold: int)
    requires h <= |before| && h <= |after|
    requires forall y :: 0 <= y < h ==> Changed(before[y], after[y], threshold)
    ensures ColumnCount(before, after, h, threshold) == h
  {
    if h > 0 {
      FullColumnCount(before, after, h - 1, threshold);
    }
  }
}
