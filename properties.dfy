/** Properties of one call of the error-diffusion ditherer, stated about the
    specification Step that ErrorDiffusionDither.DitherRgbToIndex2D is proved
    to follow, and about its parts. */
module DitherProperties {
  import opened Channels
  import opened ErrorDiffusion

  /** The sum of the cells of a buffer from cell i on. */
  function SumFrom(s: seq<int>, i: nat): (t: int)
    requires i <= |s|
    decreases |s| - i
  {
    if i == |s| then 0 else s[i] + SumFrom(s, i + 1)
  }

  /** The sum of all cells of a buffer. */
  function Sum(s: seq<int>): (t: int)
  {
    SumFrom(s, 0)
  }

  /** Adding d to cell k adds d to every suffix sum that includes cell k. */
  lemma {:induction false} SumFromBump(s: seq<int>, i: nat, k: nat, d: int)
    requires i <= |s| && k < |s|
    decreases |s| - i
    ensures SumFrom(s[k := s[k] + d], i) == SumFrom(s, i) + (if i <= k then d else 0)
  {
    if i < |s| {
      SumFromBump(s, i + 1, k, d);
    }
  }

  /** For 0 <= x < W, on buffers shaped for an image of width W (rows of
      w = W + 2 cells), every cell the ditherer reads (x + 1) or writes
      (x + 2 and w + x .. w + x + 2) is an index of every channel's buffer,
      and x meets the condition under which Working and Diffuse are defined. */
  lemma IndicesInBounds(bufs: seq<seq<int>>, imageWidth: nat, x: int)
    requires Shaped(bufs, imageWidth + 2) && 0 <= x < imageWidth
    ensures var w := imageWidth + 2;
            x + 2 < w &&
            forall i :: 0 <= i < CHANNELS ==>
              0 <= x + 1 < |bufs[i]| && x + 2 < |bufs[i]| && 0 <= w + x && w + x + 2 < |bufs[i]|
  {
  }

  /** Diffuse adds 7e, 3e, 5e and e to exactly four cells and leaves every
      other cell as it was; in particular nothing at or left of the pixel's
      own cell x + 1 in the current row changes. */
  lemma DiffuseChangesFourCells(buf: seq<int>, w: nat, x: nat, e: int)
    requires |buf| == 2 * w && x + 2 < w
    ensures var r := Diffuse(buf, w, x, e);
            r[x + 2] == buf[x + 2] + 7 * e &&
            r[w + x] == buf[w + x] + 3 * e &&
            r[w + x + 1] == buf[w + x + 1] + 5 * e &&
            r[w + x + 2] == buf[w + x + 2] + e &&
            forall k :: 0 <= k < 2 * w && k != x + 2 && k != w + x && k != w + x + 1 && k != w + x + 2 ==>
              r[k] == buf[k]
  {
  }

  /** The weights 7, 3, 5 and 1 sum to 16: one call adds exactly 16 times the
      error to the buffer, the amount the /16 of later reads divides out. */
  lemma DiffuseConservesError(buf: seq<int>, w: nat, x: nat, e: int)
    requires |buf| == 2 * w && x + 2 < w
    ensures Sum(Diffuse(buf, w, x, e)) == Sum(buf) + 16 * e
  {
    var b1 := buf[x + 2 := buf[x + 2] + e * 7];
    var b2 := b1[w + x := buf[w + x] + e * 3];
    var b3 := b2[w + x + 1 := buf[w + x + 1] + e * 5];
    var b4 := b3[w + x + 2 := buf[w + x + 2] + e * 1];
    assert Diffuse(buf, w, x, e) == b4;
    SumFromBump(buf, 0, x + 2, e * 7);
    assert b1[w + x] == buf[w + x];
    SumFromBump(b1, 0, w + x, e * 3);
    assert b2[w + x + 1] == buf[w + x + 1];
    SumFromBump(b2, 0, w + x + 1, e * 5);
    assert b3[w + x + 2] == buf[w + x + 2];
    SumFromBump(b3, 0, w + x + 2, e * 1);
  }

  /** The roll-over rule: on a new row every channel's current row takes the
      old next row and the next row is zero; on the same row the buffers are
      used as they are. */
  lemma RollOverRule(bufs: seq<seq<int>>, w: nat, lastY: int, y: int, i: nat)
    requires Shaped(bufs, w) && i < CHANNELS
    ensures y == lastY ==> RowBase(bufs, w, lastY, y) == bufs
    ensures y != lastY ==> forall k :: 0 <= k < w ==> RowBase(bufs, w, lastY, y)[i][k] == bufs[i][w + k]
    ensures y != lastY ==> forall k :: w <= k < 2 * w ==> RowBase(bufs, w, lastY, y)[i][k] == 0
  {
    if y != lastY {
      assert RowBase(bufs, w, lastY, y)[i] == Rolled(bufs[i], w);
    }
  }

  /** Diffusion into all four channels: per channel the four kernel cells
      gain 7, 3, 5 and 1 times that channel's error, the buffer's sum gains
      16 times it, and every other cell is left as it was. */
  lemma DiffuseAllNewState(base: seq<seq<int>>, w: nat, x: nat, q: seq<int>)
    requires Shaped(base, w) && x + 2 < w && |q| == CHANNELS
    ensures var r := DiffuseAll(base, w, x, q);
            forall i :: 0 <= i < CHANNELS ==>
              r[i][x + 2] == base[i][x + 2] + 7 * q[i] &&
              r[i][w + x] == base[i][w + x] + 3 * q[i] &&
              r[i][w + x + 1] == base[i][w + x + 1] + 5 * q[i] &&
              r[i][w + x + 2] == base[i][w + x + 2] + q[i] &&
              Sum(r[i]) == Sum(base[i]) + 16 * q[i] &&
              forall k :: 0 <= k < 2 * w && k != x + 2 && k != w + x && k != w + x + 1 && k != w + x + 2 ==>
                r[i][k] == base[i][k]
  {
    var r := DiffuseAll(base, w, x, q);
    forall i | 0 <= i < CHANNELS
      ensures r[i] == Diffuse(base[i], w, x, q[i])
      ensures Sum(r[i]) == Sum(base[i]) + 16 * q[i]
    {
      DiffuseConservesError(base[i], w, x, q[i]);
    }
  }

  /** The whole new state after one call: the buffers are those the call
      works on (rolled over on a new row, see RollOverRule) with this pixel's
      error diffused into them as DiffuseAllNewState describes, and the row
      cursor is y. */
  lemma StepNewState(bufs: seq<seq<int>>, w: nat, lastY: int, transparentIndex: int, pixel: Color,
                     x: nat, y: int, rgbmap: Option<RgbMap>, palette: Palette)
    requires Shaped(bufs, w) && x + 2 < w
    ensures var s := Step(bufs, w, lastY, transparentIndex, pixel, x, y, rgbmap, palette);
            var base := RowBase(bufs, w, lastY, y);
            var q := StepError(base, w, transparentIndex, pixel, x, rgbmap, palette);
            s.lastY == y &&
            forall i :: 0 <= i < CHANNELS ==>
              s.bufs[i][x + 2] == base[i][x + 2] + 7 * q[i] &&
              s.bufs[i][w + x] == base[i][w + x] + 3 * q[i] &&
              s.bufs[i][w + x + 1] == base[i][w + x + 1] + 5 * q[i] &&
              s.bufs[i][w + x + 2] == base[i][w + x + 2] + q[i] &&
              Sum(s.bufs[i]) == Sum(base[i]) + 16 * q[i] &&
              forall k :: 0 <= k < 2 * w && k != x + 2 && k != w + x && k != w + x + 1 && k != w + x + 2 ==>
                s.bufs[i][k] == base[i][k]
  {
    var base := RowBase(bufs, w, lastY, y);
    var q := StepError(base, w, transparentIndex, pixel, x, rgbmap, palette);
    DiffuseAllNewState(base, w, x, q);
  }

  /** The next pixel of the same row (which SameRowKeepsBuffers shows is not
      rolled over) reads the cell this pixel gave 7/16 of its error: its
      working value is its source value plus that cell, including the 7q just
      added, divided by 16. */
  lemma NextPixelReadsRightError(bufs: seq<seq<int>>, w: nat, lastY: int, transparentIndex: int, pixel: Color,
                                 next: Color, x: nat, y: int, rgbmap: Option<RgbMap>, palette: Palette, i: nat)
    requires Shaped(bufs, w) && x + 3 < w && i < CHANNELS
    ensures var s := Step(bufs, w, lastY, transparentIndex, pixel, x, y, rgbmap, palette);
            var base := RowBase(bufs, w, lastY, y);
            var q := StepError(base, w, transparentIndex, pixel, x, rgbmap, palette);
            Working(next, s.bufs, w, x + 1)[i] == Channel(next, i) + TruncDiv(base[i][x + 2] + 7 * q[i], 16)
  {
    var s := Step(bufs, w, lastY, transparentIndex, pixel, x, y, rgbmap, palette);
    var base := RowBase(bufs, w, lastY, y);
    var q := StepError(base, w, transparentIndex, pixel, x, rgbmap, palette);
    assert s.bufs[i][x + 2] == base[i][x + 2] + 7 * q[i] by {
      assert s.bufs[i] == Diffuse(base[i], w, x, q[i]);
      DiffuseChangesFourCells(base[i], w, x, q[i]);
    }
    assert Working(next, s.bufs, w, x + 1)[i] == Channel(next, i) + TruncDiv(s.bufs[i][x + 2], 16);
  }

  /** A second call on the same row does not roll the buffers over. */
  lemma SameRowKeepsBuffers(bufs: seq<seq<int>>, w: nat, lastY: int, transparentIndex: int, pixel: Color,
                            x: nat, y: int, rgbmap: Option<RgbMap>, palette: Palette)
    requires Shaped(bufs, w) && x + 2 < w
    ensures var s := Step(bufs, w, lastY, transparentIndex, pixel, x, y, rgbmap, palette);
            RowBase(s.bufs, w, s.lastY, y) == s.bufs
  {
  }

  /** The working value of a channel moves the source value by at most a
      sixteenth of the accumulated error, toward the error's sign. */
  lemma WorkingCarriesSixteenth(pixel: Color, bufs: seq<seq<int>>, w: nat, x: nat, i: nat)
    requires Shaped(bufs, w) && x + 2 < w && i < CHANNELS
    ensures var v := Working(pixel, bufs, w, x);
            var cell := bufs[i][x + 1];
            16 * Dist(v[i], Channel(pixel, i)) <= Dist(cell, 0) &&
            (cell >= 0 ==> v[i] >= Channel(pixel, i)) &&
            (cell <= 0 ==> v[i] <= Channel(pixel, i))
  {
    var cell := bufs[i][x + 1];
    var t := TruncDiv(cell, 16);
    assert Working(pixel, bufs, w, x)[i] == Channel(pixel, i) + t;
  }

  /** Each channel of the lookup colour is the nearest byte to the working
      value, and equals it when that is already a byte. */
  lemma LookupIsClampedWorking(v: seq<int>, i: nat)
    requires |v| == CHANNELS && i < CHANNELS
    ensures 0 <= v[i] < 256 ==> Channel(Lookup(v), i) == v[i]
    ensures forall b: Byte :: Dist(v[i], Channel(Lookup(v), i)) <= Dist(v[i], b)
  {
    ClampIsNearestByte(v[i]);
    assert Channel(Lookup(v), i) == ClampByte(v[i]);
  }

  /** The index comes from the mapper when there is one and otherwise from
      the palette's best fit, asked with the transparent index as a hint. */
  lemma IndexSource(u: Color, rgbmap: Option<RgbMap>, palette: Palette, transparentIndex: int)
    ensures rgbmap.Some? ==> ResolveIndex(u, rgbmap, palette, transparentIndex) == ToColorT(rgbmap.value.mapColor(u))
    ensures rgbmap.None? ==> ResolveIndex(u, rgbmap, palette, transparentIndex) == ToColorT(palette.findBestfit(u, transparentIndex))
  {
  }

  /** The comparison with the transparent index is on 32-bit unsigned values:
      an index in range matches only itself, and -1 matches only 0xFFFFFFFF. */
  lemma TransparentSlotMatching(transparentIndex: int, index: ColorT)
    ensures 0 <= transparentIndex < 0x1_0000_0000 ==> (IsTransparentSlot(transparentIndex, index) <==> index == transparentIndex)
    ensures transparentIndex == -1 ==> (IsTransparentSlot(transparentIndex, index) <==> index == 0xFFFF_FFFF)
  {
  }

  /** The transparent-slot rule: when the index is the transparent slot or
      its entry has alpha 0, the red, green and blue errors are just the
      carried error of the pixel (its own channels cancel) and the alpha error
      is the whole working alpha. */
  lemma TransparentErrorIsCarriedError(pixel: Color, base: seq<seq<int>>, w: nat, x: nat,
                                       index: ColorT, palette: Palette, transparentIndex: int)
    requires Shaped(base, w) && x + 2 < w
    requires IsTransparentSlot(transparentIndex, index) || palette.getEntry(index).a == 0
    ensures var v := Working(pixel, base, w, x);
            var q := QuantError(v, ErrorReference(index, palette, pixel, transparentIndex));
            (forall i :: 0 <= i < 3 ==> q[i] == TruncDiv(base[i][x + 1], 16)) && q[3] == v[3]
  {
    var v := Working(pixel, base, w, x);
    var q := QuantError(v, ErrorReference(index, palette, pixel, transparentIndex));
    assert ErrorReference(index, palette, pixel, transparentIndex) == WithoutAlpha(pixel);
    assert q[0] == TruncDiv(base[0][x + 1], 16);
    assert q[1] == TruncDiv(base[1][x + 1], 16);
    assert q[2] == TruncDiv(base[2][x + 1], 16);
  }

  /** The other case: the error is the working value minus the palette entry. */
  lemma OpaqueErrorAgainstEntry(pixel: Color, base: seq<seq<int>>, w: nat, x: nat,
                                index: ColorT, palette: Palette, transparentIndex: int)
    requires Shaped(base, w) && x + 2 < w
    requires !IsTransparentSlot(transparentIndex, index) && palette.getEntry(index).a != 0
    ensures var v := Working(pixel, base, w, x);
            var q := QuantError(v, ErrorReference(index, palette, pixel, transparentIndex));
            forall i :: 0 <= i < CHANNELS ==> q[i] == v[i] - Channel(palette.getEntry(index), i)
  {
    var q := QuantError(Working(pixel, base, w, x), ErrorReference(index, palette, pixel, transparentIndex));
    assert |q| == CHANNELS;
  }

  /** The error is taken from the unclamped working value: an overshoot past
      255 always propagates a positive error and an undershoot below 0 a
      negative one, whatever colour was chosen. */
  lemma SaturatedErrorKeepsSign(v: seq<int>, ref: Color, i: nat)
    requires |v| == CHANNELS && i < CHANNELS
    ensures var q := QuantError(v, ref);
            q[i] - (Channel(Lookup(v), i) - Channel(ref, i)) == v[i] - ClampByte(v[i]) &&
            (v[i] > 255 ==> q[i] >= v[i] - 255 > 0) &&
            (v[i] < 0 ==> q[i] <= v[i] < 0)
  {
    var q := QuantError(v, ref);
    assert q[i] == v[i] - Channel(ref, i);
    assert Channel(Lookup(v), i) == ClampByte(v[i]);
  }

  /** Start does not clear the buffers: starting again on an image of the
      same width keeps every cell, so the first call of the new pass rolls
      the old next row (the error left under the last row of the previous
      pass) into the current row. */
  lemma RestartKeepsPendingError(buf: seq<int>, w: nat)
    requires |buf| == 2 * w
    ensures Resized(buf, 2 * w) == buf
    ensures forall k :: 0 <= k < w ==> Rolled(Resized(buf, 2 * w), w)[k] == buf[w + k]
  {
  }

  /** Zero buffers of `cells` cells per channel. */
  function Zeros(cells: nat): (bufs: seq<seq<int>>)
    ensures |bufs| == CHANNELS
    ensures forall i :: 0 <= i < CHANNELS ==> bufs[i] == seq(cells, _ => 0)
  {
    seq(CHANNELS, _ => seq(cells, _ => 0))
  }

  /** Rolling zero buffers over leaves them zero. */
  lemma ZerosRollToZeros(w: nat, lastY: int, y: int)
    ensures Shaped(Zeros(2 * w), w) && RowBase(Zeros(2 * w), w, lastY, y) == Zeros(2 * w)
  {
    var z := Zeros(2 * w);
    var base := RowBase(z, w, lastY, y);
    forall i | 0 <= i < CHANNELS
      ensures base[i] == z[i]
    {
      assert forall k :: 0 <= k < 2 * w ==> base[i][k] == 0;
    }
  }

  /** A pixel whose error is zero in every channel leaves the buffers as they are. */
  lemma ZeroErrorLeavesBuffers(bufs: seq<seq<int>>, w: nat, x: nat)
    requires Shaped(bufs, w) && x + 2 < w
    ensures DiffuseAll(bufs, w, x, [0, 0, 0, 0]) == bufs
  {
    var r := DiffuseAll(bufs, w, x, [0, 0, 0, 0]);
    forall i | 0 <= i < CHANNELS
      ensures r[i] == bufs[i]
    {
      DiffuseChangesFourCells(bufs[i], w, x, 0);
    }
  }

  /** The palette and the exact mapper of a two-colour example: entry 0 is
      opaque red, entry 1 opaque green. */
  function RedGreenPalette(): (p: Palette)
  {
    Palette((i: ColorT) => if i == 0 then Color(255, 0, 0, 255) else Color(0, 255, 0, 255), (c: Color, t: int) => 0)
  }

  function RedGreenMap(): (m: RgbMap)
  {
    RgbMap((c: Color) => if c == Color(255, 0, 0, 255) then 0 else 1)
  }

  /** A pixel that the mapper matches exactly, on zero buffers: whenever the
      mapper's index names an opaque palette entry equal to the pixel and is
      not the transparent slot, that index is returned and no error is
      propagated anywhere. */
  lemma ExactMatchPropagatesNothing(pixel: Color, rgbmap: RgbMap, palette: Palette, transparentIndex: int,
                                    w: nat, x: nat, lastY: int, y: int)
    requires x + 2 < w
    requires palette.getEntry(ToColorT(rgbmap.mapColor(pixel))) == pixel && pixel.a != 0
    requires !IsTransparentSlot(transparentIndex, ToColorT(rgbmap.mapColor(pixel)))
    ensures var s := Step(Zeros(2 * w), w, lastY, transparentIndex, pixel, x, y, Some(rgbmap), palette);
            s.index == ToColorT(rgbmap.mapColor(pixel)) && s.bufs == Zeros(2 * w)
  {
    var z := Zeros(2 * w);
    ZerosRollToZeros(w, lastY, y);
    var v := Working(pixel, z, w, x);
    assert v == [pixel.r, pixel.g, pixel.b, pixel.a];
    assert Lookup(v) == pixel;
    assert StepIndex(z, w, transparentIndex, pixel, x, Some(rgbmap), palette) == ToColorT(rgbmap.mapColor(pixel));
    assert StepError(z, w, transparentIndex, pixel, x, Some(rgbmap), palette) == [0, 0, 0, 0];
    ZeroErrorLeavesBuffers(z, w, x);
  }

  /** Two exact matches on a 2x1 image with an exact mapper, red then green:
      indices 0 and 1 and no error propagated anywhere. */
  lemma ExactMatchesPropagateNothing()
    ensures var s1 := Step(Zeros(8), 4, -1, -1, Color(255, 0, 0, 255), 0, 0, Some(RedGreenMap()), RedGreenPalette());
            var s2 := Step(s1.bufs, 4, s1.lastY, -1, Color(0, 255, 0, 255), 1, 0, Some(RedGreenMap()), RedGreenPalette());
            s1.index == 0 && s2.index == 1 && s2.bufs == Zeros(8)
  {
    ExactMatchPropagatesNothing(Color(255, 0, 0, 255), RedGreenMap(), RedGreenPalette(), -1, 4, 0, -1, 0);
    ExactMatchPropagatesNothing(Color(0, 255, 0, 255), RedGreenMap(), RedGreenPalette(), -1, 4, 1, 0, 0);
  }

  /** The palette of a black-or-red example: entry 0 is opaque black, every
      other entry opaque red, and the best fit always answers 0. */
  function BlackRedPalette(): (p: Palette)
  {
    Palette((i: ColorT) => if i == 0 then Color(0, 0, 0, 255) else Color(255, 0, 0, 255), (c: Color, t: int) => 0)
  }

  /** A 1x1 image whose red 128 is mapped to black: the red error 128 is
      spread as 896 to the right, 384 down-left, 640 down and 128 down-right,
      and the other channels carry no error. */
  lemma QuantizationErrorSpreads()
    ensures var s := Step(Zeros(6), 3, -1, -1, Color(128, 0, 0, 255), 0, 0, None, BlackRedPalette());
            s.index == 0 && s.bufs[0] == [0, 0, 896, 384, 640, 128] &&
            s.bufs[1] == s.bufs[2] == s.bufs[3] == [0, 0, 0, 0, 0, 0]
  {
    var z := Zeros(6);
    ZerosRollToZeros(3, -1, 0);
    BlackForRed128();
    var r := DiffuseAll(z, 3, 0, [128, 0, 0, 0]);
    assert r[0] == [0, 0, 896, 384, 640, 128];
    ZeroErrorLeavesBuffers(z, 3, 0);
    assert DiffuseAll(z, 3, 0, [0, 0, 0, 0]) == z;
    assert r[1] == r[2] == r[3] == [0, 0, 0, 0, 0, 0];
  }

  /** On zero buffers the pixel (128, 0, 0, 255) gets index 0 (black) and
      the error (128, 0, 0, 0). */
  lemma BlackForRed128()
    ensures StepIndex(Zeros(6), 3, -1, Color(128, 0, 0, 255), 0, None, BlackRedPalette()) == 0
    ensures StepError(Zeros(6), 3, -1, Color(128, 0, 0, 255), 0, None, BlackRedPalette()) == [128, 0, 0, 0]
  {
    assert Working(Color(128, 0, 0, 255), Zeros(6), 3, 0) == [128, 0, 0, 255];
  }
}
