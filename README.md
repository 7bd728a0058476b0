# Error-diffusion dithering, modelled in Dafny

This project models `render::ErrorDiffusionDither`, the Floyd–Steinberg
ditherer of the Aseprite render library. The ditherer converts an RGBA image
to palette indices one pixel at a time. Between calls it keeps four error
buffers, one each for red, green, blue and alpha. Each buffer holds two rows
of `width + 2` cells: the current row and the next row. Pixel `x` of a row is
stored at cell `x + 1`, so the cells to its left and right always exist.

For each pixel the ditherer:

1. rolls the buffers over when the row has changed: the next row becomes the
   current row and the next row is cleared;
2. adds a sixteenth of the pixel's accumulated error to each channel, using
   C++ truncating division, then clamps each value to a byte to get the
   lookup colour;
3. gets an index from the RGB map if there is one, otherwise from the
   palette's best fit, passing the transparent index;
4. measures the error against the palette entry. When the index is the
   transparent slot, or the entry's alpha is 0, it measures against the
   pixel itself with alpha cleared instead;
5. spreads 7/16 of the error to the right neighbour, 3/16 down-left, 5/16
   down and 1/16 down-right.

The project has three files.

- `channels.dfy` (module `Channels`) holds the channel values and the two
  pieces of C++ integer arithmetic: truncating `/` (`TruncDiv`) and
  `MID(0, v, 255)` (`ClampByte`).
- `error_diffusion.dfy` (module `ErrorDiffusion`) holds two things. First, a
  pure specification of one call: `Step`, built from `RowBase`, `Working`,
  `Lookup`, `ResolveIndex`, `ErrorReference`, `QuantError` and `DiffuseAll`.
  Second, the class `ErrorDiffusionDither`. Its fields are:
  - `transparentIndex`: `m_transparentIndex`, fixed by the constructor;
  - `err`: an array of four sequences, one per `std::vector<int>` of `m_err`;
  - `width`;
  - `lastY`;
  - `srcImage`.

  Each of its methods is proved to produce exactly the state and index that
  the specification describes.
- `properties.dfy` (module `DitherProperties`) holds lemmas about the
  specification, and two worked examples on small images.

Points where the code behaves in a way that is easy to misread:

- `start` does not clear the buffers. `resize(m_width*2, 0)` keeps the cells
  that already exist and zeroes only new cells. A second pass over an image
  of the same width therefore starts with the previous pass's error still in
  the next row (`RestartKeepsPendingError`). The model follows the code.
- The roll-over happens on every call whose `y` differs from the previous
  call's `y`, not only when `y` grows.
- The kernel has all four Floyd–Steinberg terms. Cell `x` of the next row
  (`m_width + x`) is the down-left neighbour, because pixel `x` sits at cell
  `x + 1`.
- `m_transparentIndex == index` compares an `int` with a `doc::color_t`. The
  `int` is converted to the 32-bit unsigned type before the comparison
  (`IsTransparentSlot`, `TransparentSlotMatching`).

## Model

| member | source | states |
|---|---|---|
| ErrorDiffusion.ErrorDiffusionDither.constructor | src/render/error_diffusion.cpp:21-24 | stores the transparent index; the ditherer has no image yet and four empty error buffers |
| ErrorDiffusion.ErrorDiffusionDither.Start | src/render/error_diffusion.cpp:26-35 | keeps the source image, sets the row width to image width + 2, resizes every buffer to two rows keeping its old cells (new cells 0), and sets lastY to -1 |
| ErrorDiffusion.Resized | src/render/error_diffusion.cpp:33 | `resize(n, 0)`: the length becomes n, cells below the old length keep their values, cells beyond it are 0 |
| ErrorDiffusion.ErrorDiffusionDither.DitherRgbToIndex2D | src/render/error_diffusion.cpp:41-100 | returns the index and leaves exactly the buffers and lastY that Step gives for the pixel at (x, y); image and width are unchanged |
| ErrorDiffusion.Step | src/render/error_diffusion.cpp:41-100 | one call keeps the buffers two rows wide and records y as the last row; the content of the new buffers is stated by StepNewState |
| ErrorDiffusion.ErrorDiffusionDither.RollOverOnNewRow | src/render/error_diffusion.cpp:46-55 | on a new row every buffer is rolled over, on the same row nothing changes; lastY becomes y |
| ErrorDiffusion.ErrorDiffusionDither.RollOver | src/render/error_diffusion.cpp:47-53 | every one of the four buffers becomes its rolled-over form |
| ErrorDiffusion.RollRow | src/render/error_diffusion.cpp:48-52 | the copy of the next row onto the current row and the fill of the next row with 0 give exactly Rolled |
| ErrorDiffusion.Rolled | src/render/error_diffusion.cpp:46-55 | after a roll-over, cell k of the current row holds the old cell w + k and the next row is all zero |
| ErrorDiffusion.RowBase | src/render/error_diffusion.cpp:46-55 | defined as the rolled-over buffers when y differs from lastY and the old buffers otherwise; its contract keeps the shape, and RollOverRule states the cell-by-cell effect |
| DitherProperties.RollOverRule | src/render/error_diffusion.cpp:46-55 | per channel: the same row uses the buffers unchanged; on a new row the current row is the old next row and the next row is zero |
| DitherProperties.SameRowKeepsBuffers | src/render/error_diffusion.cpp:46-55 | a second call on the same row does not roll the buffers over again |
| ErrorDiffusion.Image.Pixel | src/render/error_diffusion.cpp:57-58 | `get_pixel_fast` at (x, y) of a well-formed image, for x and y inside it: the pixel at column x of row y (its result is one of row y's pixels) |
| ErrorDiffusion.Working | src/render/error_diffusion.cpp:61-69 | four working values, one per channel: v[i] is source channel i plus the error in current-row cell x + 1 divided by 16 with truncation |
| ErrorDiffusion.WorkingValues | src/render/error_diffusion.cpp:61-71 | the channel loop computes exactly the working values of Working and, for each channel, u[i] as v[i] clamped to a byte |
| Channels.ClampByte | src/render/error_diffusion.cpp:70 | `MID(0, v, 255)`: v itself when it is a byte, 0 below the range, 255 above it |
| ErrorDiffusion.Lookup | src/render/error_diffusion.cpp:70-75 | the lookup colour passed to the mapper or best fit: each channel is the working value when that is a byte, 0 when it is negative and 255 when it exceeds 255 |
| ErrorDiffusion.ToColorT | src/render/error_diffusion.cpp:73-78 | the int-to-color_t conversion: a value in [0, 2^32) is unchanged and every value is congruent to its result modulo 2^32 |
| ErrorDiffusion.ResolveIndex | src/render/error_diffusion.cpp:73-75 | defined as the mapper's answer when an rgbmap is given and otherwise findBestfit with the transparent index, converted to color_t; IndexSource states the two cases |
| ErrorDiffusion.IsTransparentSlot | src/render/error_diffusion.cpp:78 | defined as `m_transparentIndex == index` after converting the int to color_t; TransparentSlotMatching states what it matches |
| ErrorDiffusion.ErrorReference | src/render/error_diffusion.cpp:77-81 | defined as the palette entry of the index, replaced by the pixel without alpha when the index is the transparent slot or the entry's alpha is 0; TransparentErrorIsCarriedError and OpaqueErrorAgainstEntry state the error in each case |
| ErrorDiffusion.QuantError | src/render/error_diffusion.cpp:83-88 | four errors, and error i is working value i minus channel i of the reference colour; SaturatedErrorKeepsSign, TransparentErrorIsCarriedError and OpaqueErrorAgainstEntry state what that means for clamped values and for each reference colour |
| ErrorDiffusion.StepIndex | src/render/error_diffusion.cpp:57-75 | defined as the index that ResolveIndex picks for the lookup colour of the pixel's working values on the given buffers |
| ErrorDiffusion.StepError | src/render/error_diffusion.cpp:57-88 | four errors, those of QuantError for the pixel's working values measured against the ErrorReference of StepIndex's index |
| ErrorDiffusion.QuantizePixel | src/render/error_diffusion.cpp:57-88 | the channel loop, the index lookup and the error computation compute exactly StepIndex and StepError (working values, clamped lookup colour, mapper or best fit, transparent-slot substitution) |
| Channels.TruncDiv | src/render/error_diffusion.cpp:69 | `m_err[i][x+1] / 16` truncates toward zero: for n >= 0, q*d <= n < q*d + d; for n < 0, q*d - d < n <= q*d |
| Channels.TruncDivMatchesCpp | src/render/error_diffusion.cpp:69 | any quotient that satisfies the C++ rule (n = q*d + r, abs(r) < d, r has the sign of n) is TruncDiv's |
| Channels.TruncDivNegates | src/render/error_diffusion.cpp:69 | truncating division is symmetric: TruncDiv(-n, d) == -TruncDiv(n, d) |
| Channels.TruncDivVersusEuclid | src/render/error_diffusion.cpp:69 | truncation agrees with Dafny's Euclidean division except for negative dividends that d does not divide, where it is one larger |
| Channels.ClampIsNearestByte | src/render/error_diffusion.cpp:70 | `MID(0, v, 255)` leaves bytes unchanged and otherwise gives the byte nearest to v |
| DitherProperties.WorkingCarriesSixteenth | src/render/error_diffusion.cpp:61-71 | a working value differs from the source channel by at most a sixteenth of the error cell, in the direction of the error's sign |
| DitherProperties.LookupIsClampedWorking | src/render/error_diffusion.cpp:68-71 | each lookup channel is the byte nearest to the working value, and equals it when the working value is already a byte |
| DitherProperties.IndexSource | src/render/error_diffusion.cpp:73-75 | the index is the mapper's answer when there is a mapper, otherwise the palette's best fit given the transparent index, converted to color_t |
| DitherProperties.TransparentSlotMatching | src/render/error_diffusion.cpp:78 | an in-range transparent index matches only itself; -1 matches only 0xFFFFFFFF |
| Channels.WithoutAlpha | src/render/error_diffusion.cpp:80 | `color & rgba_rgb_mask` keeps red, green and blue and clears alpha |
| DitherProperties.TransparentErrorIsCarriedError | src/render/error_diffusion.cpp:77-88 | for the transparent slot or an entry with alpha 0, the RGB errors are the carried sixteenths (the pixel's own channels cancel) and the alpha error is the whole working alpha |
| DitherProperties.OpaqueErrorAgainstEntry | src/render/error_diffusion.cpp:77-88 | otherwise each channel's error is the working value minus the palette entry's channel |
| DitherProperties.SaturatedErrorKeepsSign | src/render/error_diffusion.cpp:83-88 | the error uses the unclamped value: it exceeds the clamped difference by v - clamp(v), so an overshoot past 255 gives a positive error and one below 0 a negative error |
| ErrorDiffusion.ErrorDiffusionDither.Propagate | src/render/error_diffusion.cpp:91-97 | the propagation loop leaves exactly the buffers that DiffuseAll describes, and nothing else changes |
| ErrorDiffusion.Diffuse | src/render/error_diffusion.cpp:92-96 | the one-channel kernel keeps the buffer's length; DiffuseChangesFourCells states which four cells change and by how much |
| ErrorDiffusion.DiffuseAll | src/render/error_diffusion.cpp:91-97 | defined as Diffuse on each buffer with its own channel's error; its contract keeps the shape, and DiffuseAllNewState states the cells changed and the +16e sum per channel |
| DitherProperties.DiffuseChangesFourCells | src/render/error_diffusion.cpp:91-97 | cells x+2, w+x, w+x+1 and w+x+2 gain 7e, 3e, 5e and e; every other cell is unchanged |
| DitherProperties.DiffuseConservesError | src/render/error_diffusion.cpp:91-97 | one propagation adds exactly 16 times the error to a buffer's sum |
| DitherProperties.DiffuseAllNewState | src/render/error_diffusion.cpp:91-97 | across all four channels: the four kernel cells gain 7, 3, 5 and 1 times the channel's error, the sum gains 16 times it, and all other cells are unchanged |
| DitherProperties.StepNewState | src/render/error_diffusion.cpp:46-97 | the whole state after one call: lastY is y, and each buffer is the rolled-or-kept buffer with this pixel's error applied to exactly the four kernel cells, adding 16 times the error to its sum |
| DitherProperties.NextPixelReadsRightError | src/render/error_diffusion.cpp:69-93 | the next pixel on the same row reads the cell that just received 7/16 of this pixel's error, including that share |
| DitherProperties.IndicesInBounds | src/render/error_diffusion.cpp:69-96 | for 0 <= x < image width and buffers shaped for rows of width + 2 cells, every cell read (x+1) or written (x+2, w+x .. w+x+2) is an index of every channel's buffer, and x + 2 < w holds, which Working and Diffuse need |
| DitherProperties.RestartKeepsPendingError | src/render/error_diffusion.cpp:30-55 | `start` on an image of the same width keeps every cell, so the first call of the new pass rolls the old next row into the current row |
| DitherProperties.ZerosRollToZeros | src/render/error_diffusion.cpp:46-55 | rolling zero buffers over leaves them zero |
| DitherProperties.ZeroErrorLeavesBuffers | src/render/error_diffusion.cpp:91-97 | a pixel with zero error in every channel leaves the buffers unchanged |
| DitherProperties.ExactMatchPropagatesNothing | src/render/error_diffusion.cpp:41-100 | for any mapper and palette, on zero buffers: when the mapper's index names an opaque palette entry equal to the pixel and is not the transparent slot, that index is returned and the buffers stay zero |
| DitherProperties.ExactMatchesPropagateNothing | src/render/error_diffusion.cpp:41-100 | a red pixel then a green pixel on a 2x1 image with an exact two-colour mapper: indices 0 and 1, and the buffers stay zero |
| DitherProperties.BlackForRed128 | src/render/error_diffusion.cpp:57-88 | on zero buffers, (128, 0, 0, 255) gets index 0 (black) and the error (128, 0, 0, 0) |
| DitherProperties.QuantizationErrorSpreads | src/render/error_diffusion.cpp:41-100 | a 1x1 image whose red 128 maps to black spreads 896, 384, 640 and 128 into the red buffer, and nothing into the other channels |

## Left out

- `finish` has an empty body (lines 37-39), so it is not modelled.
- The `dstImage` parameter of `start` is not used by the ditherer, so it is not modelled.
- Pixel storage and the bit layout of `doc::color_t`: an image is a sequence of rows of four-channel colours, and `get_pixel_fast` is a lookup in those rows.
- `doc::Palette::getEntry`, `doc::Palette::findBestfit` and `doc::RgbMap::mapColor` are foreign code; the model treats them as uninterpreted functions passed in as values.
- A null palette is not modelled: line 77 calls `palette->getEntry` on every call, so the C++ needs a palette whether or not an rgbmap is given.
- Step: the error cells and `quantError[i] * 7` use unbounded integers. This does not model 32-bit `int` overflow, which needs errors far larger than any image produces.
- ErrorDiffusionDither.constructor: `error_diffusion.h` is not part of this model. The constructor therefore leaves `m_width` and `m_lastY` unspecified. `m_srcImage`, which the header may not initialise, is modelled as `None` (no image bound); only `Start` changes it, and `Valid()` excludes it.
- `MID` is defined in a header that is not part of this model. It is modelled as the median of 0, v and 255, which is a clamp to [0, 255].
- The order in which callers visit pixels is not modelled. Every property is stated for one call, or for two given calls.
- ErrorDiffusionDither.DitherRgbToIndex2D requires `x` and `y` to lie inside the source image and requires `start` to have run first, which the C++ assumes but does not check.
- The `gfx/hsl.h` and `gfx/rgb.h` includes are not used by this file, so they are not modelled.
