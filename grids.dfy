/** Two-dimensional grids as both front-ends hold them in numpy arrays, with
    numpy's basic slicing, transposition and constant padding. */
module Grids {

  /** A grid is a sequence of rows; row `i` column `j` is `g[i][j]`. */
  type Grid<T> = seq<seq<T>>

  /** `g` has `rows` rows of `cols` cells each. */
  predicate IsRect<T>(g: Grid<T>, rows: nat, cols: nat)
  {
    |g| == rows && forall i :: 0 <= i < |g| ==> |g[i]| == cols
  }

  /** A crop rectangle: columns minX..maxX and rows minY..maxY, both upper
      bounds used as exclusive slice ends. */
  datatype Box = Box(minX: int, maxX: int, minY: int, maxY: int)

  function Max(a: int, b: int): int { if a < b then b else a }

  function Min(a: int, b: int): int { if a < b then a else b }

  /** How Python normalises a slice bound `i` on an axis of length `n`:
      a negative bound counts from the end, then the bound is clamped to 0..n. */
  function SliceIndex(n: nat, i: int): (k: nat)
    ensures k <= n
  {
    if i < 0 then (if i + n < 0 then 0 else i + n)
    else if i > n then n
    else i
  }

  /** Number of elements of `s[lo:hi]` for `|s| == n`. */
  function SliceLength(n: nat, lo: int, hi: int): nat
  {
    var a, b := SliceIndex(n, lo), SliceIndex(n, hi);
    if a <= b then b - a else 0
  }

  /** Python's `s[lo:hi]`. */
  function Slice<T>(s: seq<T>, lo: int, hi: int): (r: seq<T>)
    ensures |r| == SliceLength(|s|, lo, hi)
    ensures 0 <= lo <= hi <= |s| ==> r == s[lo..hi]
  {
    var a, b := SliceIndex(|s|, lo), SliceIndex(|s|, hi);
    if a <= b then s[a..b] else []
  }

  /** numpy's `g[rlo:rhi, clo:chi]` on a grid of `|g|` rows and `cols` columns.
      Within bounds, cell (i, j) of the crop is cell (rlo + i, clo + j) of `g`. */
  function Crop<T>(g: Grid<T>, cols: nat, rlo: int, rhi: int, clo: int, chi: int): (c: Grid<T>)
    requires IsRect(g, |g|, cols)
    ensures IsRect(c, SliceLength(|g|, rlo, rhi), SliceLength(cols, clo, chi))
    ensures 0 <= rlo <= rhi <= |g| && 0 <= clo <= chi <= cols ==>
      forall i, j :: 0 <= i < rhi - rlo && 0 <= j < chi - clo ==> c[i][j] == g[rlo + i][clo + j]
  {
    var rows := Slice(g, rlo, rhi);
    assert forall i :: 0 <= i < |rows| ==> |rows[i]| == cols by {
      var a := SliceIndex(|g|, rlo);
      forall i | 0 <= i < |rows| ensures |rows[i]| == cols {
        assert rows[i] == g[a + i];
      }
    }
    seq(|rows|, i requires 0 <= i < |rows| => Slice(rows[i], clo, chi))
  }

  /** numpy's `.T` on a grid of `|g|` rows and `cols` columns. */
  function Transpose<T>(g: Grid<T>, cols: nat): (t: Grid<T>)
    requires IsRect(g, |g|, cols)
    ensures IsRect(t, cols, |g|)
    ensures forall i, j :: 0 <= i < cols && 0 <= j < |g| ==> t[i][j] == g[j][i]
  {
    seq(cols, i requires 0 <= i < cols => seq(|g|, j requires 0 <= j < |g| => g[j][i]))
  }

  /** Transposing twice gives back the grid. */
  lemma TransposeTwice<T>(g: Grid<T>, cols: nat)
    requires IsRect(g, |g|, cols)
    ensures Transpose(Transpose(g, cols), |g|) == g
  {
    var t := Transpose(Transpose(g, cols), |g|);
    forall i | 0 <= i < |g| ensures t[i] == g[i] {
      assert |t[i]| == |g[i]|;
    }
  }

  /** numpy's `np.pad(g, (m, m), 'constant', constant_values=zero)`: `m` cells
      of `zero` before and after along both axes. */
  function Pad<T>(g: Grid<T>, cols: nat, m: nat, zero: T): (p: Grid<T>)
    requires IsRect(g, |g|, cols)
    ensures IsRect(p, |g| + 2 * m, cols + 2 * m)
    ensures forall i, j :: 0 <= i < |g| && 0 <= j < cols ==> p[i + m][j + m] == g[i][j]
    ensures forall i, j ::
              0 <= i < |p| && 0 <= j < |p[i]| && (i < m || i >= |g| + m || j < m || j >= cols + m)
              ==> p[i][j] == zero
  {
    seq(|g| + 2 * m, i =>
      seq(cols + 2 * m, j =>
        if m <= i < |g| + m && m <= j < cols + m then g[i - m][j - m] else zero))
  }

  /** Cropping the padding away gives back the grid. */
  lemma CropOfPad<T>(g: Grid<T>, cols: nat, m: nat, zero: T)
    requires IsRect(g, |g|, cols)
    ensures Crop(Pad(g, cols, m, zero), cols + 2 * m, m, m + |g|, m, m + cols) == g
  {
    var p := Pad(g, cols, m, zero);
    var c := Crop(p, cols + 2 * m, m, m + |g|, m, m + cols);
    assert |c| == |g|;
    forall i | 0 <= i < |g| ensures c[i] == g[i] {
      forall j | 0 <= j < cols ensures c[i][j] == g[i][j] {
        assert c[i][j] == p[m + i][m + j];
      }
    }
  }

  /** Applies `f` to every cell (numpy's `astype` and element-wise arithmetic). */
  function MapCells<T, U>(g: Grid<T>, f: T -> U): (r: Grid<U>)
    ensures |r| == |g| && forall i :: 0 <= i < |g| ==> |r[i]| == |g[i]|
    ensures forall i, j :: 0 <= i < |g| && 0 <= j < |g[i]| ==> r[i][j] == f(g[i][j])
  {
    seq(|g|, i requires 0 <= i < |g| => seq(|g[i]|, j requires 0 <= j < |g[i]| => f(g[i][j])))
  }
}
