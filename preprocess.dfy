/** The normalisation both front-ends apply to a crop before classification:
    resize to 28x28, zero-pad by 10 on every side, resize to 28x28 again and
    divide by 255. The resize and the classifier are library code outside the
    model and are taken as parameters. */
module Preprocess {
  import opened Grids
  import opened Labels

  const Side := 28
  const PadMargin := 10

  /** The only shape the classifier accepts. */
  type Image28 = g: Grid<real> | IsRect(g, 28, 28) witness seq(28, _ => seq(28, _ => 0.0))

  /** `cv2.resize(img, (28, 28))`. */
  type Resizer = Grid<real> -> Image28

  /** `MODEL.predict` on one image. */
  type Classifier = Image28 -> Scores

  /** `image / 255`: if every cell is a grey level in 0..255, every cell of the
      result lies in [0, 1]. */
  function Scale(g: Image28): (r: Image28)
    ensures forall i, j :: 0 <= i < 28 && 0 <= j < 28 ==> r[i][j] * 255.0 == g[i][j]
    ensures (forall i, j :: 0 <= i < 28 && 0 <= j < 28 ==> 0.0 <= g[i][j] <= 255.0) ==>
              forall i, j :: 0 <= i < 28 && 0 <= j < 28 ==> 0.0 <= r[i][j] <= 1.0
  {
    MapCells(g, (v: real) => v / 255.0)
  }

  /** Padding a 28x28 image by 10 gives 48x48 with the image in the middle and
      zeros in the 10-cell border. */
  lemma PadTo48(g: Image28)
    ensures IsRect(Pad(g, Side, PadMargin, 0.0), 48, 48)
    ensures forall i, j :: 0 <= i < 28 && 0 <= j < 28 ==> Pad(g, Side, PadMargin, 0.0)[i + 10][j + 10] == g[i][j]
    ensures forall i, j :: 0 <= i < 48 && 0 <= j < 48 && (i < 10 || i >= 38 || j < 10 || j >= 38)
              ==> Pad(g, Side, PadMargin, 0.0)[i][j] == 0.0
  {
  }

  /** `astype(np.float32)` on grey levels. */
  function ToReal(v: int): (x: real)
    ensures x.Floor == v && x == x.Floor as real
  {
    v as real
  }

  /** The whole normalisation of a crop already converted to reals, in the
      required order: the first resize is padded to 48x48 with the resized
      crop in the middle, and the result is the second resize of that padded
      image divided by 255. */
  function Normalize(crop: Grid<real>, resize: Resizer): (r: Image28)
    ensures var padded := Pad(resize(crop), Side, PadMargin, 0.0);
      && IsRect(padded, 48, 48)
      && (forall i, j :: 0 <= i < 28 && 0 <= j < 28 ==> padded[i + 10][j + 10] == resize(crop)[i][j])
      && (forall i, j :: 0 <= i < 48 && 0 <= j < 48 && (i < 10 || i >= 38 || j < 10 || j >= 38)
            ==> padded[i][j] == 0.0)
      && forall i, j :: 0 <= i < 28 && 0 <= j < 28 ==> r[i][j] * 255.0 == resize(padded)[i][j]
  {
    var first := resize(crop);
    PadTo48(first);
    Scale(resize(Pad(first, Side, PadMargin, 0.0)))
  }
}
