/** The desktop front-end (app.py): a 640x480 drawing window whose event loop
    records the mouse positions of a stroke, and on button release boxes the
    stroke, crops the window's pixels to the box and classifies the crop. */
module Desktop {
  import opened Outcomes
  import opened Grids
  import opened Labels
  import opened Preprocess

  const WindowSizeX := 640
  const WindowSizeY := 480
  const BoundaryInc := 5
  /** The mapped pixel value of the colour BLACK. */
  const Black := 0

  predicate IsSorted(s: seq<int>)
  {
    forall i, j :: 0 <= i <= j < |s| ==> s[i] <= s[j]
  }

  /** Inserts `x` into a sorted sequence. */
  function Insert(x: int, s: seq<int>): (r: seq<int>)
    requires IsSorted(s)
    ensures IsSorted(r) && multiset(r) == multiset(s) + multiset{x} && |r| == |s| + 1
  {
    if s == [] || x <= s[0] then [x] + s
    else
      var t := Insert(x, s[1..]);
      assert s == [s[0]] + s[1..];
      assert forall k :: 0 <= k < |t| ==> s[0] <= t[k] by {
        forall k | 0 <= k < |t| ensures s[0] <= t[k] {
          assert t[k] in multiset(t);
          if t[k] != x {
            assert t[k] in multiset(s[1..]);
            var q :| 0 <= q < |s[1..]| && s[1..][q] == t[k];
            assert s[q + 1] == t[k];
          }
        }
      }
      [s[0]] + t
  }

  /** Python's `sorted` on a list of ints (app.py:63-64): the ascending
      permutation of `s`. */
  function Sorted(s: seq<int>): (r: seq<int>)
    ensures IsSorted(r) && multiset(r) == multiset(s) && |r| == |s|
  {
    if s == [] then []
    else
      assert s == [s[0]] + s[1..];
      Insert(s[0], Sorted(s[1..]))
  }

  /** The first and last elements of the sorted list are the smallest and the
      largest recorded coordinate. */
  lemma SortedEnds(s: seq<int>)
    requires |s| > 0
    ensures |Sorted(s)| == |s|
    ensures IsLeast(s, Sorted(s)[0]) && IsGreatest(s, Sorted(s)[|s| - 1])
  {
    var r := Sorted(s);
    assert r[0] in multiset(r);
    assert r[|r| - 1] in multiset(r);
    forall i | 0 <= i < |s| ensures r[0] <= s[i] <= r[|r| - 1] {
      assert s[i] in multiset(s);
      var q :| 0 <= q < |r| && r[q] == s[i];
    }
  }

  predicate IsLeast(s: seq<int>, m: int)
  {
    m in s && forall i :: 0 <= i < |s| ==> m <= s[i]
  }

  predicate IsGreatest(s: seq<int>, m: int)
  {
    m in s && forall i :: 0 <= i < |s| ==> s[i] <= m
  }

  /** The box of a stroke (app.py:63-70): the extreme coordinates widened by
      BoundaryInc and clamped to the window. The upper bounds are slice ends
      and carry no `+ 1`. Whatever the coordinates, the four one-sided bounds
      `0 <= minX`, `maxX <= WindowSizeX`, `0 <= minY` and `maxY <= WindowSizeY`
      hold; the box itself may be empty or inverted. */
  function StrokeBox(xs: seq<int>, ys: seq<int>): (b: Box)
    requires |xs| > 0 && |ys| > 0
    ensures 0 <= b.minX && b.maxX <= WindowSizeX
    ensures 0 <= b.minY && b.maxY <= WindowSizeY
  {
    var sx, sy := Sorted(xs), Sorted(ys);
    Box(Max(sx[0] - BoundaryInc, 0), Min(WindowSizeX, sx[|sx| - 1] + BoundaryInc),
        Max(sy[0] - BoundaryInc, 0), Min(WindowSizeY, sy[|sy| - 1] + BoundaryInc))
  }

  /** The box in terms of the least and greatest coordinates. On the low side
      the margin is 5 unless clamped at 0; on the high side the exclusive end is
      `max + 5`, so at most 4 columns (rows) past the last point are kept. */
  lemma StrokeBoxExtremes(xs: seq<int>, ys: seq<int>, xLo: int, xHi: int, yLo: int, yHi: int)
    requires IsLeast(xs, xLo) && IsGreatest(xs, xHi)
    requires IsLeast(ys, yLo) && IsGreatest(ys, yHi)
    ensures StrokeBox(xs, ys).minX == Max(xLo - BoundaryInc, 0)
    ensures StrokeBox(xs, ys).maxX == Min(WindowSizeX, xHi + BoundaryInc)
    ensures StrokeBox(xs, ys).minY == Max(yLo - BoundaryInc, 0)
    ensures StrokeBox(xs, ys).maxY == Min(WindowSizeY, yHi + BoundaryInc)
    ensures xLo - StrokeBox(xs, ys).minX <= BoundaryInc
    ensures StrokeBox(xs, ys).maxX - (xHi + 1) <= BoundaryInc - 1
    ensures yLo - StrokeBox(xs, ys).minY <= BoundaryInc
    ensures StrokeBox(xs, ys).maxY - (yHi + 1) <= BoundaryInc - 1
  {
    SortedEnds(xs);
    SortedEnds(ys);
  }

  /** Every recorded position lies inside the window. */
  predicate InWindow(xs: seq<int>, ys: seq<int>)
  {
    && (forall i :: 0 <= i < |xs| ==> 0 <= xs[i] < WindowSizeX)
    && (forall i :: 0 <= i < |ys| ==> 0 <= ys[i] < WindowSizeY)
  }

  /** For positions inside the window the half-open box holds every recorded
      coordinate, so it is never empty. */
  lemma StrokeBoxContains(xs: seq<int>, ys: seq<int>)
    requires |xs| > 0 && |ys| > 0 && InWindow(xs, ys)
    ensures StrokeBox(xs, ys).minX < StrokeBox(xs, ys).maxX
    ensures StrokeBox(xs, ys).minY < StrokeBox(xs, ys).maxY
    ensures forall i :: 0 <= i < |xs| ==> StrokeBox(xs, ys).minX <= xs[i] < StrokeBox(xs, ys).maxX
    ensures forall i :: 0 <= i < |ys| ==> StrokeBox(xs, ys).minY <= ys[i] < StrokeBox(xs, ys).maxY
  {
    SortedEnds(xs);
    SortedEnds(ys);
  }

  /** A stroke dragged out of the window at the left (x = -10) gets
      `maxX == -5`, which Python reads as "all but the last 5 columns": the crop
      is 635 columns wide and does not contain the stroke. */
  lemma StrokeLeftOfWindow()
    ensures StrokeBox([-10], [100]) == Box(0, -5, 95, 105)
    ensures SliceLength(WindowSizeX, 0, -5) == 635
  {
    assert Sorted([-10]) == [-10];
    assert Sorted([100]) == [100];
  }

  /** `np.array(PixelArray(surface))[minX:maxX, minY:maxY].T` (app.py:77): the
      pixel array is x-major, so the transpose turns the crop into rows of y. */
  function DesktopCrop(pixels: Grid<int>, b: Box): (c: Grid<int>)
    requires IsRect(pixels, WindowSizeX, WindowSizeY)
    ensures IsRect(c, SliceLength(WindowSizeY, b.minY, b.maxY), SliceLength(WindowSizeX, b.minX, b.maxX))
  {
    Transpose(Crop(pixels, WindowSizeY, b.minX, b.maxX, b.minY, b.maxY),
              SliceLength(WindowSizeY, b.minY, b.maxY))
  }

  /** For a box in the window the crop has `maxY - minY` rows and
      `maxX - minX` columns, and row i column j is pixel (minX + j, minY + i). */
  lemma DesktopCropAt(pixels: Grid<int>, b: Box)
    requires IsRect(pixels, WindowSizeX, WindowSizeY)
    requires 0 <= b.minX <= b.maxX <= WindowSizeX && 0 <= b.minY <= b.maxY <= WindowSizeY
    ensures IsRect(DesktopCrop(pixels, b), b.maxY - b.minY, b.maxX - b.minX)
    ensures forall i, j :: 0 <= i < b.maxY - b.minY && 0 <= j < b.maxX - b.minX ==>
              DesktopCrop(pixels, b)[i][j] == pixels[b.minX + j][b.minY + i]
  {
    var sliced := Crop(pixels, WindowSizeY, b.minX, b.maxX, b.minY, b.maxY);
    assert IsRect(sliced, b.maxX - b.minX, b.maxY - b.minY);
    forall i, j | 0 <= i < b.maxY - b.minY && 0 <= j < b.maxX - b.minX
      ensures DesktopCrop(pixels, b)[i][j] == pixels[b.minX + j][b.minY + i]
    {
      assert DesktopCrop(pixels, b)[i][j] == sliced[j][i];
    }
  }

  /** Every recorded position of an in-window stroke shows up in the crop,
      at row `y - minY` and column `x - minX`. */
  lemma StrokeCropHoldsEveryPoint(pixels: Grid<int>, xs: seq<int>, ys: seq<int>, k: int)
    requires IsRect(pixels, WindowSizeX, WindowSizeY)
    requires |xs| == |ys| && 0 <= k < |xs| && InWindow(xs, ys)
    ensures var b := StrokeBox(xs, ys);
      && 0 <= ys[k] - b.minY < |DesktopCrop(pixels, b)|
      && 0 <= xs[k] - b.minX < |DesktopCrop(pixels, b)[ys[k] - b.minY]|
      && DesktopCrop(pixels, b)[ys[k] - b.minY][xs[k] - b.minX] == pixels[xs[k]][ys[k]]
  {
    var b := StrokeBox(xs, ys);
    StrokeBoxContains(xs, ys);
    DesktopCropAt(pixels, b);
    assert b.minX + (xs[k] - b.minX) == xs[k];
    assert b.minY + (ys[k] - b.minY) == ys[k];
  }

  /** `LABELS[np.argmax(MODEL.predict(...))]` for the crop of `b` (app.py:85-91):
      the label of the first best-scoring digit of the normalised crop. */
  function DesktopLabel(pixels: Grid<int>, b: Box, resize: Resizer, classify: Classifier): (l: string)
    requires IsRect(pixels, WindowSizeX, WindowSizeY)
    ensures var scores := classify(Normalize(MapCells(DesktopCrop(pixels, b), ToReal), resize));
      exists d :: IsFirstMax(scores, d) && d in LABELS && LABELS[d] == l
  {
    var crop := MapCells(DesktopCrop(pixels, b), ToReal);
    Label(classify(Normalize(crop, resize)))
  }

  /** The state the event loop of app.py keeps: the `iswriting` flag, the two
      coordinate lists and the display surface. */
  class Canvas {
    var isWriting: bool
    var xs: seq<int>
    var ys: seq<int>
    /** DISPLAYSURF as pygame's PixelArray indexes it: `surface[x, y]`. */
    const surface: array2<int>

    /** The surface has the window's size, and the two coordinate lists grow
        together, so they always have the same length. */
    ghost predicate Valid()
      reads this
    {
      surface.Length0 == WindowSizeX && surface.Length1 == WindowSizeY && |xs| == |ys|
    }

    predicate IsBlank()
      reads surface
    {
      forall x, y :: 0 <= x < surface.Length0 && 0 <= y < surface.Length1 ==> surface[x, y] == Black
    }

    /** `np.array(pygame.PixelArray(DISPLAYSURF))`: a copy of the surface. */
    function Pixels(): (p: Grid<int>)
      reads surface
      ensures IsRect(p, surface.Length0, surface.Length1)
      ensures forall x, y :: 0 <= x < surface.Length0 && 0 <= y < surface.Length1 ==> p[x][y] == surface[x, y]
    {
      seq(surface.Length0, x reads surface =>
        seq(surface.Length1, y reads surface =>
          if 0 <= x < surface.Length0 && 0 <= y < surface.Length1 then surface[x, y] else Black))
    }

    /** The start-up state (app.py:32-40): a black window, not writing, no
        coordinates. */
    constructor ()
      ensures Valid() && fresh(surface) && IsBlank()
      ensures !isWriting && xs == [] && ys == []
    {
      surface := new int[WindowSizeX, WindowSizeY]((x, y) => Black);
      isWriting := false;
      xs := [];
      ys := [];
    }

    /** MOUSEMOTION (app.py:49-53): while writing, the position is appended to
        both lists; otherwise nothing is recorded. The flag never changes. The
        circle drawn at the position changes the surface in a way the model
        does not track. */
    method OnMouseMotion(x: int, y: int)
      requires Valid()
      modifies this`xs, this`ys, surface
      ensures Valid()
      ensures isWriting == old(isWriting)
      ensures xs == (if old(isWriting) then old(xs) + [x] else old(xs))
      ensures ys == (if old(isWriting) then old(ys) + [y] else old(ys))
      ensures !old(isWriting) ==> unchanged(surface)
    {
      if isWriting {
        xs := xs + [x];
        ys := ys + [y];
      }
    }

    /** MOUSEBUTTONDOWN (app.py:55-56): start writing. */
    method OnMouseButtonDown()
      requires Valid()
      modifies this`isWriting
      ensures Valid() && isWriting
      ensures xs == old(xs) && ys == old(ys)
    {
      isWriting := true;
    }

    /** MOUSEBUTTONUP (app.py:58-91): stop writing; if anything was recorded,
        box the stroke, empty both lists and classify the crop of the surface as
        it was on entry. With nothing recorded the lists stay as they were and
        nothing is computed. The label text blitted onto the surface afterwards
        is a change the model does not track. */
    method OnMouseButtonUp(resize: Resizer, classify: Classifier) returns (box: Option<Box>, name: Option<string>)
      requires Valid()
      modifies this`isWriting, this`xs, this`ys, surface
      ensures Valid() && !isWriting
      ensures old(|xs| > 0 && |ys| > 0) ==>
        && box == Some(StrokeBox(old(xs), old(ys)))
        && name == Some(DesktopLabel(old(Pixels()), box.value, resize, classify))
        && xs == [] && ys == []
      ensures !old(|xs| > 0 && |ys| > 0) ==>
        box == None && name == None && xs == old(xs) && ys == old(ys) && unchanged(surface)
    {
      var pixels := Pixels();
      isWriting := false;
      if |xs| > 0 && |ys| > 0 {
        var b := StrokeBox(xs, ys);
        xs := [];
        ys := [];
        box := Some(b);
        name := Some(DesktopLabel(pixels, b, resize, classify));
      } else {
        box := None;
        name := None;
      }
    }

    /** KEYDOWN (app.py:101-103): the key `n` fills the surface with black;
        any other key changes nothing. The stroke state is left alone. */
    method OnKeyDown(key: string)
      requires Valid()
      modifies surface
      ensures Valid()
      ensures key == "n" ==> IsBlank()
      ensures key != "n" ==> unchanged(surface)
      ensures isWriting == old(isWriting) && xs == old(xs) && ys == old(ys)
    {
      if key == "n" {
        forall x, y | 0 <= x < surface.Length0 && 0 <= y < surface.Length1 {
          surface[x, y] := Black;
        }
      }
    }
  }
}
