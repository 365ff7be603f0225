/** The web front-end (web_app.py): the `/predict` handler that takes a
    (possibly data-URL prefixed) base64 image, boxes the drawn pixels of its
    grayscale grid, crops and normalises it, and reports the classifier's
    digit, label and per-digit scores, turning every failure into an error
    response. */
module Web {
  import opened Outcomes
  import opened Grids
  import opened Labels
  import opened Preprocess

  const BoundaryInc := 5
  const NoDigitMessage := "No digit detected. Please draw on the canvas."

  // ---------------------------------------------------------------------
  // Data-URL prefix (web_app.py:29-30)

  /** Position of the first `c` in `s`. */
  function IndexOf(s: string, c: char): (i: nat)
    requires c in s
    ensures i < |s| && s[i] == c && c !in s[..i]
  {
    if s[0] == c then 0
    else
      var j := IndexOf(s[1..], c);
      assert s[..1 + j] == [s[0]] + s[1..][..j];
      1 + j
  }

  /** Python's `s.split(sep)`: the pieces between consecutive separators. The
      first piece is the longest separator-free prefix. */
  function Split(s: string, sep: char): (parts: seq<string>)
    ensures |parts| >= 1
    ensures forall k :: 0 <= k < |parts| ==> sep !in parts[k]
    ensures sep in s <==> |parts| > 1
    ensures parts[0] <= s && (parts[0] == s || s[|parts[0]|] == sep)
    decreases |s|
  {
    if sep !in s then [s]
    else
      var i := IndexOf(s, sep);
      [s[..i]] + Split(s[i + 1..], sep)
  }

  /** Python's `sep.join(parts)`. */
  function Join(parts: seq<string>, sep: char): string
    requires |parts| >= 1
  {
    if |parts| == 1 then parts[0]
    else parts[0] + [sep] + Join(parts[1..], sep)
  }

  /** Joining the pieces of a split with the separator gives back the text. */
  lemma {:induction false} SplitJoin(s: string, sep: char)
    ensures Join(Split(s, sep), sep) == s
    decreases |s|
  {
    if sep in s {
      var i := IndexOf(s, sep);
      SplitJoin(s[i + 1..], sep);
      assert Split(s, sep)[1..] == Split(s[i + 1..], sep);
      assert s == s[..i] + [sep] + s[i + 1..];
    }
  }

  /** `image_data.split(',')[1]` when there is a comma: the text after the
      first comma up to the next comma or the end; otherwise the text itself. */
  function StripDataUrl(s: string): (r: string)
    ensures ',' !in s ==> r == s
    ensures ',' in s ==>
      var rest := s[IndexOf(s, ',') + 1..];
      ',' !in r && r <= rest && (r == rest || rest[|r|] == ',')
  {
    if ',' in s then Split(s, ',')[1] else s
  }

  // ---------------------------------------------------------------------
  // Grid bounding box (web_app.py:41-57)

  /** The decoded grayscale image: `img_array` with `height, width = shape`. */
  datatype Gray = Gray(height: nat, width: nat, pixels: Grid<int>)

  type GrayImage = g: Gray | IsRect(g.pixels, g.height, g.width) witness Gray(0, 0, [])

  /** No pixel is drawn (value > 0). */
  predicate Blank(img: GrayImage)
  {
    forall r, c :: 0 <= r < img.height && 0 <= c < img.width ==> img.pixels[r][c] <= 0
  }

  predicate RowDrawn(img: GrayImage, r: int)
  {
    0 <= r < img.height && exists c :: 0 <= c < img.width && img.pixels[r][c] > 0
  }

  predicate ColDrawn(img: GrayImage, c: int)
  {
    0 <= c < img.width && exists r :: 0 <= r < img.height && img.pixels[r][c] > 0
  }

  /** `np.any(bs)`. */
  function Any(bs: seq<bool>): (b: bool)
    ensures b <==> exists i :: 0 <= i < |bs| && bs[i]
  {
    if bs == [] then false
    else if bs[0] then true
    else
      var b := Any(bs[1..]);
      assert forall i :: 1 <= i < |bs| ==> bs[i] == bs[1..][i - 1];
      b
  }

  /** `np.any(mask, axis=1)`: which rows hold a true cell. */
  function AnyRows(mask: Grid<bool>, cols: nat): (rs: seq<bool>)
    requires IsRect(mask, |mask|, cols)
    ensures |rs| == |mask|
    ensures forall r :: 0 <= r < |mask| ==> (rs[r] <==> exists c :: 0 <= c < cols && mask[r][c])
  {
    seq(|mask|, r requires 0 <= r < |mask| => Any(mask[r]))
  }

  /** Column `c` of a grid. */
  function Column(mask: Grid<bool>, cols: nat, c: nat): (col: seq<bool>)
    requires IsRect(mask, |mask|, cols) && c < cols
    ensures |col| == |mask| && forall r :: 0 <= r < |mask| ==> col[r] == mask[r][c]
  {
    seq(|mask|, r requires 0 <= r < |mask| => mask[r][c])
  }

  /** `np.any(mask, axis=0)`: which columns hold a true cell. */
  function AnyCols(mask: Grid<bool>, cols: nat): (cs: seq<bool>)
    requires IsRect(mask, |mask|, cols)
    ensures |cs| == cols
    ensures forall c :: 0 <= c < cols ==> (cs[c] <==> exists r :: 0 <= r < |mask| && mask[r][c])
  {
    seq(cols, c requires 0 <= c < cols => Any(Column(mask, cols, c)))
  }

  /** `np.where(bs)[0]`: the indices of the true entries, in increasing order. */
  function Where(bs: seq<bool>): (ix: seq<int>)
    ensures forall k :: 0 <= k < |ix| ==> 0 <= ix[k] < |bs| && bs[ix[k]]
    ensures forall i :: 0 <= i < |bs| && bs[i] ==> i in ix
    ensures forall k, l :: 0 <= k < l < |ix| ==> ix[k] < ix[l]
  {
    if bs == [] then []
    else
      var front := Where(bs[..|bs| - 1]);
      front + (if bs[|bs| - 1] then [|bs| - 1] else [])
  }

  /** The first and last entries of `np.where` are the least and the greatest
      true index. */
  lemma WhereEnds(bs: seq<bool>)
    requires Any(bs)
    ensures |Where(bs)| > 0
    ensures var ix := Where(bs);
      && bs[ix[0]] && bs[ix[|ix| - 1]]
      && forall i :: 0 <= i < |bs| && bs[i] ==> ix[0] <= i <= ix[|ix| - 1]
  {
  }

  /** `img_array > 0`. */
  function Mask(img: GrayImage): (m: Grid<bool>)
    ensures IsRect(m, img.height, img.width)
    ensures forall r, c :: 0 <= r < img.height && 0 <= c < img.width ==> (m[r][c] <==> img.pixels[r][c] > 0)
  {
    MapCells(img.pixels, (v: int) => v > 0)
  }

  /** `rows` of web_app.py:41: row r is set exactly when row r holds a
      drawn pixel. */
  function DrawnRows(img: GrayImage): (rows: seq<bool>)
    ensures |rows| == img.height
    ensures forall r :: 0 <= r < img.height ==> (rows[r] <==> RowDrawn(img, r))
  {
    AnyRows(Mask(img), img.width)
  }

  /** `cols` of web_app.py:42: column c is set exactly when column c holds a
      drawn pixel. */
  function DrawnCols(img: GrayImage): (cols: seq<bool>)
    ensures |cols| == img.width
    ensures forall c :: 0 <= c < img.width ==> (cols[c] <==> ColDrawn(img, c))
  {
    AnyCols(Mask(img), img.width)
  }

  /** There is a drawn row exactly when there is a drawn column, and exactly
      when the image is not blank: the two tests of web_app.py:44 agree. */
  lemma RowsAgreeWithCols(img: GrayImage)
    ensures Any(DrawnRows(img)) <==> !Blank(img)
    ensures Any(DrawnCols(img)) <==> !Blank(img)
  {
    if !Blank(img) {
      var r, c :| 0 <= r < img.height && 0 <= c < img.width && img.pixels[r][c] > 0;
      assert RowDrawn(img, r) && DrawnRows(img)[r];
      assert ColDrawn(img, c) && DrawnCols(img)[c];
    }
    if Any(DrawnRows(img)) {
      var r :| 0 <= r < img.height && DrawnRows(img)[r];
      assert RowDrawn(img, r);
    }
    if Any(DrawnCols(img)) {
      var c :| 0 <= c < img.width && DrawnCols(img)[c];
      assert ColDrawn(img, c);
    }
  }

  /** The crop box of web_app.py:41-57. A blank image fails with
      NoDigitMessage; otherwise the box is non-empty and inside the image. */
  function GridBox(img: GrayImage): (res: Result<Box>)
    ensures res.Err? <==> Blank(img)
    ensures res.Err? ==> res.message == NoDigitMessage
    ensures res.Ok? ==>
      && 0 <= res.value.minX < res.value.maxX <= img.width
      && 0 <= res.value.minY < res.value.maxY <= img.height
  {
    var rows, cols := DrawnRows(img), DrawnCols(img);
    RowsAgreeWithCols(img);
    if !Any(rows) || !Any(cols) then Err(NoDigitMessage)
    else
      WhereEnds(rows);
      WhereEnds(cols);
      var ry, cx := Where(rows), Where(cols);
      var yMin, yMax := ry[0], ry[|ry| - 1];
      var xMin, xMax := cx[0], cx[|cx| - 1];
      Ok(Widen(xMin, xMax, yMin, yMax, img.width, img.height))
  }

  /** web_app.py:54-57: the inclusive extremes widened by BoundaryInc and
      clamped to the image, with `+ 1` turning the inclusive maximum into a
      slice end. Each side widens by exactly BoundaryInc unless clamped at the
      edge, so the upper margin past the last drawn index is a full 5. */
  function Widen(xMin: int, xMax: int, yMin: int, yMax: int, width: nat, height: nat): (b: Box)
    requires 0 <= xMin <= xMax < width && 0 <= yMin <= yMax < height
    ensures 0 <= b.minX <= xMin && xMax < b.maxX <= width
    ensures 0 <= b.minY <= yMin && yMax < b.maxY <= height
    ensures xMin - b.minX <= BoundaryInc && b.maxX - (xMax + 1) <= BoundaryInc
    ensures yMin - b.minY <= BoundaryInc && b.maxY - (yMax + 1) <= BoundaryInc
    ensures (b.minX == xMin - BoundaryInc || b.minX == 0) && (b.maxX == xMax + 1 + BoundaryInc || b.maxX == width)
    ensures (b.minY == yMin - BoundaryInc || b.minY == 0) && (b.maxY == yMax + 1 + BoundaryInc || b.maxY == height)
  {
    Box(Max(xMin - BoundaryInc, 0), Min(width, xMax + BoundaryInc + 1),
        Max(yMin - BoundaryInc, 0), Min(height, yMax + BoundaryInc + 1))
  }

  /** The box is the widening of the first and last drawn row and column
      (`np.where(...)[0][[0, -1]]`). */
  lemma GridBoxExtremes(img: GrayImage, yLo: int, yHi: int, xLo: int, xHi: int)
    requires RowDrawn(img, yLo) && RowDrawn(img, yHi)
    requires forall r :: RowDrawn(img, r) ==> yLo <= r <= yHi
    requires ColDrawn(img, xLo) && ColDrawn(img, xHi)
    requires forall c :: ColDrawn(img, c) ==> xLo <= c <= xHi
    ensures 0 <= xLo <= xHi < img.width && 0 <= yLo <= yHi < img.height
    ensures GridBox(img) == Ok(Widen(xLo, xHi, yLo, yHi, img.width, img.height))
  {
    var rows, cols := DrawnRows(img), DrawnCols(img);
    RowsAgreeWithCols(img);
    WhereEnds(rows);
    WhereEnds(cols);
    var ry, cx := Where(rows), Where(cols);
    assert RowDrawn(img, ry[0]) && RowDrawn(img, ry[|ry| - 1]);
    assert ColDrawn(img, cx[0]) && ColDrawn(img, cx[|cx| - 1]);
    assert rows[yLo] && rows[yHi] && cols[xLo] && cols[xHi];
    assert ry[0] == yLo && ry[|ry| - 1] == yHi;
    assert cx[0] == xLo && cx[|cx| - 1] == xHi;
  }

  /** Every drawn pixel lies in the half-open box. */
  lemma GridBoxContains(img: GrayImage, r: int, c: int)
    requires 0 <= r < img.height && 0 <= c < img.width && img.pixels[r][c] > 0
    ensures GridBox(img).Ok?
    ensures var b := GridBox(img).value; b.minY <= r < b.maxY && b.minX <= c < b.maxX
  {
    var rows, cols := DrawnRows(img), DrawnCols(img);
    assert RowDrawn(img, r) && ColDrawn(img, c);
    assert rows[r] && cols[c];
    RowsAgreeWithCols(img);
    WhereEnds(rows);
    WhereEnds(cols);
  }

  /** `img_array[minY:maxY, minX:maxX]` (web_app.py:60). */
  function WebCrop(img: GrayImage, b: Box): (c: Grid<int>)
    ensures IsRect(c, SliceLength(img.height, b.minY, b.maxY), SliceLength(img.width, b.minX, b.maxX))
  {
    Crop(img.pixels, img.width, b.minY, b.maxY, b.minX, b.maxX)
  }

  /** For a box inside the image the crop has `maxY - minY` rows and
      `maxX - minX` columns, and cell (i, j) is pixel (minY + i, minX + j). */
  lemma WebCropAt(img: GrayImage, b: Box)
    requires 0 <= b.minX <= b.maxX <= img.width && 0 <= b.minY <= b.maxY <= img.height
    ensures IsRect(WebCrop(img, b), b.maxY - b.minY, b.maxX - b.minX)
    ensures forall i, j :: 0 <= i < b.maxY - b.minY && 0 <= j < b.maxX - b.minX ==>
              WebCrop(img, b)[i][j] == img.pixels[b.minY + i][b.minX + j]
  {
  }

  /** Every drawn pixel (r, c) of a drawn image is in its crop, at
      (r - minY, c - minX). */
  lemma WebCropHoldsDrawn(img: GrayImage, r: int, c: int)
    requires 0 <= r < img.height && 0 <= c < img.width && img.pixels[r][c] > 0
    ensures GridBox(img).Ok?
    ensures var b := GridBox(img).value;
      && 0 <= r - b.minY < |WebCrop(img, b)|
      && 0 <= c - b.minX < |WebCrop(img, b)[r - b.minY]|
      && WebCrop(img, b)[r - b.minY][c - b.minX] == img.pixels[r][c]
  {
    GridBoxContains(img, r, c);
    var b := GridBox(img).value;
    WebCropAt(img, b);
    assert b.minY + (r - b.minY) == r && b.minX + (c - b.minX) == c;
  }

  // ---------------------------------------------------------------------
  // The response (web_app.py:79-98)

  /** The JSON body `jsonify` builds: success with the digit, its label, the
      confidence and the per-digit table, or failure with `str(e)`. */
  datatype Response =
    | Success(digit: int, name: string, confidence: real, probabilities: map<string, real>)
    | Failure(error: string)

  /** `{str(i): prediction[0][i] * 100 for i in range(10)}`. */
  function Probabilities(scores: Scores): (m: map<string, real>)
    ensures m.Keys == {"0", "1", "2", "3", "4", "5", "6", "7", "8", "9"}
    ensures forall i :: 0 <= i < 10 ==> DigitKey(i) in m && m[DigitKey(i)] == scores[i] * 100.0
  {
    var m := map i | 0 <= i < 10 :: DigitKey(i) := scores[i] * 100.0;
    assert DigitKey(0) == "0" && DigitKey(1) == "1" && DigitKey(2) == "2" && DigitKey(3) == "3" && DigitKey(4) == "4";
    assert DigitKey(5) == "5" && DigitKey(6) == "6" && DigitKey(7) == "7" && DigitKey(8) == "8" && DigitKey(9) == "9";
    m
  }

  /** The success response for classifier scores: the first best-scoring digit,
      its label, the best score as confidence, and the table of all ten. */
  function Respond(scores: Scores): (r: Response)
    ensures r.Success?
    ensures IsFirstMax(scores, r.digit) && 0 <= r.digit < 10
    ensures r.digit in LABELS && r.name == LABELS[r.digit]
    ensures forall i :: 0 <= i < 10 ==> scores[i] * 100.0 <= r.confidence
    ensures r.confidence == scores[r.digit] * 100.0
    ensures r.probabilities.Keys == {"0", "1", "2", "3", "4", "5", "6", "7", "8", "9"}
    ensures forall i :: 0 <= i < 10 ==> r.probabilities[DigitKey(i)] == scores[i] * 100.0
  {
    var d := ArgMax(scores);
    LabelsKeys();
    Success(d, LABELS[d], scores[d] * 100.0, Probabilities(scores))
  }

  /** The classifier's scores on the crop of `b`, converted to reals and
      normalised (web_app.py:59-79). */
  function CropScores(img: GrayImage, b: Box, resize: Resizer, classify: Classifier): Scores
  {
    classify(Normalize(MapCells(WebCrop(img, b), ToReal), resize))
  }

  /** The `/predict` handler. `image` is the request's `image` field (absent:
      the KeyError message); `decode` is base64 and image decoding with
      grayscale conversion; `resize` and `classify` are cv2 and the model. The
      response is a success exactly when the field is present, decoding works
      and the image has a drawn pixel. */
  function Predict(image: Option<string>, decode: string -> Result<GrayImage>,
                   resize: Resizer, classify: Classifier): (r: Response)
    ensures r.Success? <==>
      image.Some? && decode(StripDataUrl(image.value)).Ok? && !Blank(decode(StripDataUrl(image.value)).value)
    ensures r.Success? ==> 0 <= r.digit < 10 && r.digit in LABELS && r.name == LABELS[r.digit]
    ensures r.Success? ==>
      var img := decode(StripDataUrl(image.value)).value;
      var scores := CropScores(img, GridBox(img).value, resize, classify);
      && IsFirstMax(scores, r.digit)
      && r.confidence == scores[r.digit] * 100.0
      && r.probabilities.Keys == {"0", "1", "2", "3", "4", "5", "6", "7", "8", "9"}
      && forall i :: 0 <= i < 10 ==> DigitKey(i) in r.probabilities && r.probabilities[DigitKey(i)] == scores[i] * 100.0
  {
    match image
    case None => Failure("'image'")
    case Some(data) =>
      match decode(StripDataUrl(data))
      case Err(msg) => Failure(msg)
      case Ok(img) =>
        match GridBox(img)
        case Err(msg) => Failure(msg)
        case Ok(b) =>
          Respond(CropScores(img, b, resize, classify))
  }

  /** A blank image yields the "No digit detected" failure, and no
      prediction is made: resize and classifier do not matter. */
  lemma PredictBlank(data: string, decode: string -> Result<GrayImage>, img: GrayImage,
                     resize: Resizer, classify: Classifier, resize': Resizer, classify': Classifier)
    requires decode(StripDataUrl(data)) == Ok(img) && Blank(img)
    ensures Predict(Some(data), decode, resize, classify) == Failure(NoDigitMessage)
    ensures Predict(Some(data), decode, resize, classify) == Predict(Some(data), decode, resize', classify')
  {
  }

  /** A request without an `image` field fails with the text of the
      KeyError, `'image'`. */
  lemma PredictNoImage(decode: string -> Result<GrayImage>, resize: Resizer, classify: Classifier)
    ensures Predict(None, decode, resize, classify) == Failure("'image'")
  {
  }

  /** A decoding failure is reported with its own message. */
  lemma PredictDecodeError(data: string, decode: string -> Result<GrayImage>, msg: string,
                           resize: Resizer, classify: Classifier)
    requires decode(StripDataUrl(data)) == Err(msg)
    ensures Predict(Some(data), decode, resize, classify) == Failure(msg)
  {
  }
}
