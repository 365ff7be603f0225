# Digit recognition: stroke capture, crop boxes and label selection

A model of the exact integer and string logic inside the two front-ends of a
handwritten-digit recogniser. The desktop front-end (`app.py`) is a 640x480
pygame window. Its event loop records the mouse positions of a stroke. On
button release it boxes the stroke, crops the window's pixels to the box, and
names the classifier's best digit. The web front-end (`web_app.py`) is a
`/predict` handler. It strips a data-URL prefix from the posted image, boxes
the drawn (value > 0) pixels of the decoded grayscale grid, crops, and answers
with the digit, its label, the confidence and a per-digit table. A blank image
gets the "No digit detected" error.

Modules:

- `Outcomes` (outcomes.dfy): `Option` and `Result`. A `Result` error carries the message `str(e)` would give.
- `Grids` (grids.dfy): grids as rows of cells, with Python/numpy slicing (negative bounds count from the end, bounds are clamped), 2-D crop, transpose, constant padding and cell-wise maps. Also holds the `Box` datatype.
- `Labels` (labels.dfy): the `LABELS` table, ten-entry score vectors, numpy's `argmax` (first maximal index) and the label lookup.
- `Preprocess` (preprocess.dfy): resize to 28x28, zero-pad by 10, resize again, divide by 255. The resize (`cv2.resize`) and the classifier (`MODEL.predict`) are function parameters.
- `Desktop` (desktop.dfy, app.py): `sorted`, the stroke box, the transposed crop, and the class `Canvas`. `Canvas` holds the `iswriting` flag, the two coordinate lists and the x-major display surface, with one method per event kind.
- `Web` (web.dfy, web_app.py): `split(',')[1]`, `np.any`/`np.where`, the grid box, the crop and the whole `predict` handler as one function.

The two boxes are computed separately, as the code computes them. The desktop
box's exclusive upper end is `max + 5`, so at most 4 cells past the last
point are kept. The web box's end is `max + 5 + 1`, so a full 5 are kept. In
both, the upper bound is an exclusive slice end and may equal the width or
height.

The desktop box only promises four one-sided bounds for arbitrary
coordinates: `0 <= minX`, `maxX <= 640`, `0 <= minY` and `maxY <= 480`.
Coordinates outside the window can make the box empty or inverted. If every
recorded x is at least 646, `minX` exceeds 640. If every recorded x is below
-5, `maxX` is negative. Because slicing follows Python exactly, the model
covers that last case too: a negative slice end counts from the far end of
the axis. `Desktop.StrokeLeftOfWindow` works one such stroke through, a
single point at x = -10. Its box is `Box(0, -5, 95, 105)` and its crop is 635
columns wide without holding the stroke. The containment lemmas therefore
require the recorded positions to lie inside the window.

## Model

| member | source | states |
|---|---|---|
| Desktop.Canvas.constructor | app.py:32-40 | the window starts all black, not writing, with both coordinate lists empty |
| Desktop.Canvas.OnMouseMotion | app.py:49-53 | while writing, the position is appended to both lists; when not writing nothing is recorded and the surface is unchanged; the flag never changes; both lists keep the same length |
| Desktop.Canvas.OnMouseButtonDown | app.py:55-56 | writing becomes true and the lists are unchanged |
| Desktop.Canvas.OnMouseButtonUp | app.py:58-91 | writing becomes false; with both lists non-empty the result is the stroke box and the label of the crop of the surface as it was, and both lists become empty; otherwise nothing is computed, and the lists and the surface stay as they were |
| Desktop.Canvas.OnKeyDown | app.py:101-103 | key `n` makes every surface cell black; any other key leaves the surface unchanged; flag and lists are never touched |
| Desktop.Sorted | app.py:63-64 | `sorted` yields an ascending permutation (same multiset, same length) |
| Desktop.SortedEnds | app.py:63-70 | the first and last elements of the sorted list are the least and greatest recorded coordinate |
| Desktop.StrokeBox | app.py:67-70 | for any coordinates the four one-sided bounds hold: `0 <= minX`, `maxX <= 640`, `0 <= minY`, `maxY <= 480` |
| Desktop.StrokeBoxExtremes | app.py:63-70 | `minX = max(least x - 5, 0)`, `maxX = min(640, greatest x + 5)`, and likewise for y with 480; the low margin is at most 5; at most 4 cells past the last point are kept |
| Desktop.StrokeBoxContains | app.py:67-70 | for positions inside the window the box is non-empty and `minX <= x < maxX`, `minY <= y < maxY` for every recorded point |
| Desktop.DesktopCrop | app.py:77 | the transposed slice has as many rows as the y slice and as many columns as the x slice |
| Desktop.DesktopCropAt | app.py:77 | for a box inside the window the crop has `maxY - minY` rows and `maxX - minX` columns, and `crop[i][j] == pixels[minX + j][minY + i]` |
| Desktop.StrokeLeftOfWindow | app.py:67-77 | a single point at x = -10, y = 100 gives `Box(0, -5, 95, 105)`, and the x slice `[0:-5]` of the 640-wide array is 635 columns wide |
| Desktop.Canvas.Pixels | app.py:77 | `np.array(pygame.PixelArray(DISPLAYSURF))` is a 640x480 x-major copy with `p[x][y] == surface[x, y]` |
| Desktop.DesktopLabel | app.py:85-91 | the label is `LABELS[d]` for the first maximal index `d` of the classifier's scores on the normalised crop |
| Desktop.StrokeCropHoldsEveryPoint | app.py:67-77 | every recorded in-window point `(x, y)` appears in the crop at row `y - minY`, column `x - minX` |
| Grids.Slice | app.py:77 | a Python slice has the normalised length, and within bounds it is the plain subsequence |
| Grids.Crop | web_app.py:60 | a 2-D slice has the normalised row and column counts, and within bounds cell `(i, j)` is cell `(rlo + i, clo + j)` of the source |
| Grids.Transpose | app.py:77 | `.T` swaps the shape and `t[i][j] == g[j][i]` |
| Grids.TransposeTwice | app.py:77 | transposing twice gives back the grid |
| Grids.Pad | web_app.py:67 | the pad adds `m` rows and columns on every side; `p[i + m][j + m] == g[i][j]`, and every cell within `m` of a border is 0 |
| Grids.MapCells | web_app.py:60 | an element-wise conversion keeps the grid's shape, and cell `(i, j)` of the result is `f` of cell `(i, j)` |
| Preprocess.ToReal | app.py:77 | `astype(np.float32)` of a grey level is an integral real whose floor is the level itself, so no value is lost |
| Grids.CropOfPad | app.py:86 | cropping the margin away from the padded grid gives back the original grid |
| Preprocess.PadTo48 | app.py:86 | padding a 28x28 image by 10 gives 48x48, with the image in the middle and zeros in the 10-cell border |
| Preprocess.Normalize | web_app.py:62-73 | the stages run in order: the first resize is padded to 48x48 with it in the middle and zeros in the 10-cell border, and the result is the second resize of that padded image divided by 255 |
| Preprocess.Scale | app.py:87 | dividing by 255 keeps the shape; cells in 0..255 become cells in [0, 1] |
| Labels.ArgMax | app.py:91 | `argmax` returns the first index of a maximal score |
| Labels.ArgMaxUnique | web_app.py:80 | the first maximal index is unique |
| Labels.LabelsKeys | web_app.py:14-15 | the label table's keys are exactly the digits 0..9 |
| Labels.Label | app.py:91 | the label is `LABELS` of the first maximal index |
| Labels.DigitKey | web_app.py:89 | `str(i)` for a digit is the one-character decimal numeral of `i` |
| Web.Split | web_app.py:30 | `split` yields at least one piece, none containing the separator; it yields several pieces exactly when the separator occurs; the first piece is the longest separator-free prefix |
| Web.SplitJoin | web_app.py:30 | joining the pieces with the separator gives back the text |
| Web.StripDataUrl | web_app.py:29-30 | without a comma the text is unchanged; with one, the result is the text after the first comma up to the next comma or the end, and holds no comma |
| Web.Any | web_app.py:44 | `np.any` holds exactly when some entry is true |
| Web.AnyRows | web_app.py:41 | row `r` is set exactly when some cell of row `r` is true |
| Web.AnyCols | web_app.py:42 | column `c` is set exactly when some cell of column `c` is true |
| Web.Where | web_app.py:48-49 | `np.where` lists exactly the true indices, strictly increasing |
| Web.WhereEnds | web_app.py:48-49 | the first and last entries of `np.where` are the least and greatest true index |
| Web.Mask | web_app.py:41-42 | `img_array > 0` has the image's shape and is true exactly at the pixels > 0 |
| Web.DrawnRows | web_app.py:41 | `rows` has one entry per image row, and `rows[r]` holds exactly when row `r` has a pixel > 0 |
| Web.DrawnCols | web_app.py:42 | `cols` has one entry per image column, and `cols[c]` holds exactly when column `c` has a pixel > 0 |
| Web.RowsAgreeWithCols | web_app.py:41-45 | there is a drawn row exactly when there is a drawn column, exactly when the image is not blank |
| Web.GridBox | web_app.py:41-57 | the box is an error exactly when no pixel is > 0, and the error message is the "No digit detected" text; otherwise `0 <= minX < maxX <= width` and `0 <= minY < maxY <= height` |
| Web.Widen | web_app.py:54-57 | each side widens by at most 5, and by exactly 5 unless clamped at the edge; the upper end lies past the maximum, at most 5 beyond `max + 1` |
| Web.GridBoxExtremes | web_app.py:48-57 | the box is the widening of the smallest and largest drawn row and column |
| Web.GridBoxContains | web_app.py:55-60 | every pixel > 0 at `(r, c)` satisfies `minY <= r < maxY` and `minX <= c < maxX` |
| Web.WebCrop | web_app.py:60 | the crop has the normalised row and column counts of the two slices |
| Web.WebCropAt | web_app.py:60 | for a box inside the image the crop has `maxY - minY` rows and `maxX - minX` columns, and `crop[i][j] == img[minY + i][minX + j]` |
| Web.WebCropHoldsDrawn | web_app.py:55-60 | every drawn pixel is in the crop of its image, at `(r - minY, c - minX)` |
| Web.Probabilities | web_app.py:88-91 | the table has exactly the keys "0".."9", and key `str(i)` maps to score `i` times 100 |
| Web.Respond | web_app.py:80-92 | the reported digit is the first maximal index in 0..9; the label is `LABELS[digit]`; the confidence is the largest score times 100; the table has keys "0".."9" and maps `str(i)` to score `i` times 100 |
| Web.Predict | web_app.py:22-98 | the response is a success exactly when the image field is present, decoding succeeds and some pixel is > 0; a success carries a digit in 0..9 and its label; the digit is the first maximal index of the classifier's scores on the normalised, real-valued crop of the grid box; the confidence is that score times 100; the table's keys are "0".."9" and `str(i)` maps to score `i` times 100 |
| Web.PredictBlank | web_app.py:44-45 | a blank decoded image gives the failure "No digit detected. Please draw on the canvas." whatever the resize and the classifier; no prediction is made |
| Web.PredictNoImage | web_app.py:26 | a request without an `image` field fails with `'image'`, the text of the KeyError |
| Web.PredictDecodeError | web_app.py:33-37 | a decoding failure becomes a failure response with the decoder's message |

## Left out

- Window creation, fonts, display updates and the QUIT event's process exit (app.py:28-36, 45-47, 105). These are UI I/O.
- Desktop.Canvas.OnMouseMotion: does not model the circle drawn at the position while writing (app.py:51), because drawing is UI output. While writing, the surface may change and nothing is promised about it; when not writing it is unchanged.
- Desktop.Canvas.OnMouseButtonUp: does not model the label text blitted onto the surface after classification (app.py:94-98), because drawing is UI output. With a recorded stroke, the surface may change and nothing is promised about it; with no stroke it is unchanged.
- The pygame event queue and the dispatch loop around the handlers (app.py:43-44). Each event kind is one method of `Canvas`.
- The image-save branch and its counter (app.py:79-81). It is disabled (`IMAGESAVE = False`) and writes to disk.
- Flask routing, request parsing beyond the `image` field, template rendering and the server start (web_app.py:9, 17-19, 25, 100-101). A request body that is not a JSON object, or an `image` value that is not a string, is not modelled.
- Base64 decoding, PIL decoding and grayscale conversion (web_app.py:33-37). These are library calls, modelled as the `decode` parameter, whose failure carries an opaque message.
- `cv2.resize` (app.py:85, 87; web_app.py:64, 70) is the `resize` parameter. Its interpolation is library behaviour, and so is its exception on an empty crop. That exception can only arise on the desktop for a stroke outside the window.
- Model loading and `MODEL.predict` (app.py:22, 90; web_app.py:12, 79) are the `classify` parameter, returning ten scores. The scores are exact reals.
- The float32 conversion and `round(..., 2)` (app.py:77, 87; web_app.py:60, 73, 87-90). The division by 255 and the percentages are exact real arithmetic. Rounding and float error are not modelled.
- Preprocess.Scale: states the [0, 1] range only for inputs in 0..255, because the range of the resize output is library behaviour.
- Concurrent Flask requests. The handler shares no mutable state.
