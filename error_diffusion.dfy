/** The error-diffusion ditherer (render::ErrorDiffusionDither): it turns an
    RGBA image into palette indices one pixel at a time, keeping four
    per-channel error buffers of two rows each between calls.

    The first half of the functions below is the specification of one call
    (Step and its parts); the class at the end is the ditherer itself, whose
    methods are proved to follow that specification. */
module ErrorDiffusion {
  import opened Channels

  datatype Option<T> = None | Some(value: T)

  /** doc::color_t, a 32-bit unsigned integer; palette indices have this type. */
  type ColorT = n: int | 0 <= n < 0x1_0000_0000

  /** The C++ conversion of an int to doc::color_t (reduction modulo 2^32). */
  function ToColorT(n: int): (c: ColorT)
    ensures 0 <= n < 0x1_0000_0000 ==> c == n
    ensures (n - c) % 0x1_0000_0000 == 0
  {
    n % 0x1_0000_0000
  }

  /** The source image: `width` columns and one sequence of pixels per row.
      Only its size and a pixel read at (x, y) are used. */
  datatype Image = Image(width: nat, rows: seq<seq<Color>>) {
    predicate WellFormed()
    {
      forall y :: 0 <= y < |rows| ==> |rows[y]| == width
    }

    function Height(): (h: nat)
    {
      |rows|
    }

    /** doc::get_pixel_fast at (x, y). */
    function Pixel(x: nat, y: nat): (p: Color)
      requires WellFormed() && x < width && y < Height()
      ensures p in rows[y]
    {
      rows[y][x]
    }
  }

  /** doc::Palette, kept uninterpreted: getEntry and the nearest-colour search
      findBestfit(r, g, b, a, transparentIndex). */
  datatype Palette = Palette(getEntry: ColorT -> Color, findBestfit: (Color, int) -> int)

  /** doc::RgbMap, kept uninterpreted: mapColor(r, g, b, a). */
  datatype RgbMap = RgbMap(mapColor: Color -> int)

  /** Four error buffers, one per channel, each of two rows of w cells:
      cells [0, w) are the current row and cells [w, 2w) the next row. */
  predicate Shaped(bufs: seq<seq<int>>, w: nat)
  {
    |bufs| == CHANNELS && forall i :: 0 <= i < CHANNELS ==> |bufs[i]| == 2 * w
  }

  /** std::vector<int>::resize(n, 0): cells below the old length keep their
      values, new cells are 0. */
  function Resized(buf: seq<int>, n: nat): (r: seq<int>)
    ensures |r| == n
    ensures forall k :: 0 <= k < n ==> r[k] == if k < |buf| then buf[k] else 0
  {
    if n <= |buf| then buf[..n] else buf + seq(n - |buf|, _ => 0)
  }

  /** The row roll-over of one buffer: the next row becomes the current row
      and the next row is cleared. */
  function Rolled(buf: seq<int>, w: nat): (r: seq<int>)
    requires |buf| == 2 * w
    ensures |r| == 2 * w
    ensures forall k :: 0 <= k < w ==> r[k] == buf[w + k]
    ensures forall k :: w <= k < 2 * w ==> r[k] == 0
  {
    buf[w..] + seq(w, _ => 0)
  }

  /** The buffers a call works on: rolled over when the row changes. */
  function RowBase(bufs: seq<seq<int>>, w: nat, lastY: int, y: int): (r: seq<seq<int>>)
    requires Shaped(bufs, w)
    ensures Shaped(r, w)
    ensures forall i :: 0 <= i < CHANNELS ==> r[i] == if y != lastY then Rolled(bufs[i], w) else bufs[i]
  {
    if y != lastY then seq(CHANNELS, i requires 0 <= i < CHANNELS => Rolled(bufs[i], w)) else bufs
  }

  /** The working values v: each source channel plus the error accumulated in
      the current-row cell x + 1 of its buffer, divided by 16 with truncation. */
  function Working(pixel: Color, bufs: seq<seq<int>>, w: nat, x: nat): (v: seq<int>)
    requires Shaped(bufs, w) && x + 2 < w
    ensures |v| == CHANNELS
  {
    seq(CHANNELS, i requires 0 <= i < CHANNELS => Channel(pixel, i) + TruncDiv(bufs[i][x + 1], 16))
  }

  /** The lookup colour u: each working value clamped to [0, 255]. */
  function Lookup(v: seq<int>): (u: Color)
    requires |v| == CHANNELS
    ensures forall i :: 0 <= i < CHANNELS ==> 0 <= v[i] < 256 ==> Channel(u, i) == v[i]
    ensures forall i :: 0 <= i < CHANNELS ==> v[i] < 0 ==> Channel(u, i) == 0
    ensures forall i :: 0 <= i < CHANNELS ==> v[i] > 255 ==> Channel(u, i) == 255
  {
    Color(ClampByte(v[0]), ClampByte(v[1]), ClampByte(v[2]), ClampByte(v[3]))
  }

  /** The chosen index: the mapper's answer when there is a mapper, otherwise
      the palette's best fit with the transparent index as a hint. */
  function ResolveIndex(u: Color, rgbmap: Option<RgbMap>, palette: Palette, transparentIndex: int): (index: ColorT)
  {
    ToColorT(if rgbmap.Some? then rgbmap.value.mapColor(u) else palette.findBestfit(u, transparentIndex))
  }

  /** `m_transparentIndex == index`: the int is converted to color_t first. */
  predicate IsTransparentSlot(transparentIndex: int, index: ColorT)
  {
    ToColorT(transparentIndex) == index
  }

  /** The colour the error is measured against: the palette entry, or the
      original pixel without alpha when the index is the transparent slot or
      the entry is fully transparent. */
  function ErrorReference(index: ColorT, palette: Palette, pixel: Color, transparentIndex: int): (ref: Color)
  {
    var palColor := palette.getEntry(index);
    if IsTransparentSlot(transparentIndex, index) || palColor.a == 0 then WithoutAlpha(pixel) else palColor
  }

  /** The quantization error per channel, from the unclamped working values. */
  function QuantError(v: seq<int>, ref: Color): (q: seq<int>)
    requires |v| == CHANNELS
    ensures |q| == CHANNELS
    ensures forall i :: 0 <= i < CHANNELS ==> q[i] == v[i] - Channel(ref, i)
  {
    [v[0] - ref.r, v[1] - ref.g, v[2] - ref.b, v[3] - ref.a]
  }

  /** The Floyd-Steinberg propagation of error e from pixel x into one buffer.
      Pixel x sits at cell x + 1, so the four cells are its right neighbour in
      the current row and its down-left, down and down-right neighbours. */
  function Diffuse(buf: seq<int>, w: nat, x: nat, e: int): (r: seq<int>)
    requires |buf| == 2 * w && x + 2 < w
    ensures |r| == 2 * w
  {
    buf[x + 2 := buf[x + 2] + e * 7]
       [w + x := buf[w + x] + e * 3]
       [w + x + 1 := buf[w + x + 1] + e * 5]
       [w + x + 2 := buf[w + x + 2] + e * 1]
  }

  /** Diffuse applied to every channel with that channel's error. */
  function DiffuseAll(bufs: seq<seq<int>>, w: nat, x: nat, q: seq<int>): (r: seq<seq<int>>)
    requires Shaped(bufs, w) && x + 2 < w && |q| == CHANNELS
    ensures Shaped(r, w)
    ensures forall i :: 0 <= i < CHANNELS ==> r[i] == Diffuse(bufs[i], w, x, q[i])
  {
    seq(CHANNELS, i requires 0 <= i < CHANNELS => Diffuse(bufs[i], w, x, q[i]))
  }

  /** The index chosen for pixel x when the buffers are `base`. */
  function StepIndex(base: seq<seq<int>>, w: nat, transparentIndex: int, pixel: Color, x: nat,
                     rgbmap: Option<RgbMap>, palette: Palette): (index: ColorT)
    requires Shaped(base, w) && x + 2 < w
  {
    ResolveIndex(Lookup(Working(pixel, base, w, x)), rgbmap, palette, transparentIndex)
  }

  /** The error propagated from pixel x when the buffers are `base`. */
  function StepError(base: seq<seq<int>>, w: nat, transparentIndex: int, pixel: Color, x: nat,
                     rgbmap: Option<RgbMap>, palette: Palette): (q: seq<int>)
    requires Shaped(base, w) && x + 2 < w
    ensures |q| == CHANNELS
  {
    var index := StepIndex(base, w, transparentIndex, pixel, x, rgbmap, palette);
    QuantError(Working(pixel, base, w, x), ErrorReference(index, palette, pixel, transparentIndex))
  }

  /** What one call of ditherRgbToIndex2D returns and leaves behind. */
  datatype StepResult = StepResult(index: ColorT, bufs: seq<seq<int>>, lastY: int)

  /** One call of ditherRgbToIndex2D for the pixel at (x, y) of colour `pixel`,
      on buffers `bufs` of row width w after row `lastY`. */
  function Step(bufs: seq<seq<int>>, w: nat, lastY: int, transparentIndex: int, pixel: Color,
                x: nat, y: int, rgbmap: Option<RgbMap>, palette: Palette): (s: StepResult)
    requires Shaped(bufs, w) && x + 2 < w
    ensures Shaped(s.bufs, w) && s.lastY == y
  {
    var base := RowBase(bufs, w, lastY, y);
    StepResult(StepIndex(base, w, transparentIndex, pixel, x, rgbmap, palette),
               DiffuseAll(base, w, x, StepError(base, w, transparentIndex, pixel, x, rgbmap, palette)),
               y)
  }

  /** The row roll-over of one buffer, done in place as std::copy of the next
      row onto the current row followed by std::fill of the next row with 0. */
  method RollRow(row: seq<int>, w: nat) returns (r: seq<int>)
    requires |row| == 2 * w
    ensures r == Rolled(row, w)
  {
    r := row;
    for k := 0 to w
      invariant |r| == 2 * w
      invariant forall m :: 0 <= m < k ==> r[m] == row[w + m]
      invariant forall m :: k <= m < 2 * w ==> r[m] == row[m]
    {
      r := r[k := r[w + k]];
    }
    for k := w to 2 * w
      invariant |r| == 2 * w
      invariant forall m :: 0 <= m < w ==> r[m] == row[w + m]
      invariant forall m :: w <= m < k ==> r[m] == 0
      invariant forall m :: k <= m < 2 * w ==> r[m] == row[m]
    {
      r := r[k := 0];
    }
  }

  /** The channel loop of ditherRgbToIndex2D: each working value v[i] is the
      source channel plus the carried error over 16, and u[i] is v[i]
      clamped to a byte. */
  method WorkingValues(color: Color, base: seq<seq<int>>, w: nat, x: nat) returns (v: seq<int>, u: seq<Byte>)
    requires Shaped(base, w) && x + 2 < w
    ensures v == Working(color, base, w, x)
    ensures |u| == CHANNELS && forall j :: 0 <= j < CHANNELS ==> u[j] == ClampByte(v[j])
  {
    v := [color.r, color.g, color.b, color.a];
    u := [0, 0, 0, 0];
    ghost var working := Working(color, base, w, x);
    for i := 0 to CHANNELS
      invariant |v| == |u| == CHANNELS
      invariant forall j :: 0 <= j < i ==> v[j] == working[j] && u[j] == ClampByte(v[j])
      invariant forall j :: i <= j < CHANNELS ==> v[j] == Channel(color, j)
    {
      v := v[i := v[i] + TruncDiv(base[i][x + 1], 16)];
      u := u[i := ClampByte(v[i])];
    }
  }

  /** The per-pixel part of ditherRgbToIndex2D, on buffers already rolled
      over: working values, clamped lookup, index, reference colour and
      quantization error. */
  method QuantizePixel(color: Color, base: seq<seq<int>>, w: nat, x: nat, transparentIndex: int,
                       rgbmap: Option<RgbMap>, palette: Palette) returns (index: ColorT, quantError: seq<int>)
    requires Shaped(base, w) && x + 2 < w
    ensures index == StepIndex(base, w, transparentIndex, color, x, rgbmap, palette)
    ensures quantError == StepError(base, w, transparentIndex, color, x, rgbmap, palette)
  {
    var v, u := WorkingValues(color, base, w, x);
    var lookup := Color(u[0], u[1], u[2], u[3]);
    assert lookup == Lookup(v);

    var found := if rgbmap.Some? then rgbmap.value.mapColor(lookup)
                 else palette.findBestfit(lookup, transparentIndex);
    index := ToColorT(found);

    var palColor := palette.getEntry(index);
    if IsTransparentSlot(transparentIndex, index) || palColor.a == 0 {
      palColor := WithoutAlpha(color);
    }
    quantError := [v[0] - palColor.r, v[1] - palColor.g, v[2] - palColor.b, v[3] - palColor.a];
  }

  class ErrorDiffusionDither {
    /** m_transparentIndex, fixed at construction. */
    const transparentIndex: int
    /** m_srcImage, bound by Start. */
    var srcImage: Option<Image>
    /** m_width: the image width plus two cells of padding. */
    var width: int
    /** m_lastY: the row of the previous call, -1 after Start. */
    var lastY: int
    /** m_err[kChannels]: one error buffer per channel. */
    const err: array<seq<int>>

    /** The state between Start and the end of the pass. */
    ghost predicate Valid()
      reads this, err
    {
      err.Length == CHANNELS &&
      srcImage.Some? && srcImage.value.WellFormed() &&
      width == srcImage.value.width + 2 &&
      Shaped(err[..], width)
    }

    /** The four buffers start out as empty vectors; the other fields are not
        initialised until Start. */
    constructor (transparentIndex: int)
      ensures this.transparentIndex == transparentIndex
      ensures srcImage == None
      ensures fresh(err) && err.Length == CHANNELS
      ensures forall i :: 0 <= i < CHANNELS ==> err[i] == []
    {
      this.transparentIndex := transparentIndex;
      srcImage := None;
      err := new seq<int>[CHANNELS](_ => []);
    }

    /** start: bind the image, set the padded width, resize every buffer to
        two rows (keeping old cells, zero-filling new ones), reset the row. */
    method Start(src: Image)
      requires err.Length == CHANNELS && src.WellFormed()
      modifies this, err
      ensures Valid()
      ensures srcImage == Some(src) && width == src.width + 2 && lastY == -1
      ensures forall i :: 0 <= i < CHANNELS ==> err[i] == Resized(old(err[i]), 2 * width)
    {
      srcImage := Some(src);
      width := 2 + src.width;
      for i := 0 to CHANNELS
        modifies err
        invariant forall j :: 0 <= j < i ==> err[j] == Resized(old(err[j]), 2 * width)
        invariant forall j :: i <= j < CHANNELS ==> err[j] == old(err[j])
      {
        err[i] := Resized(err[i], width * 2);
      }
      lastY := -1;
    }

    /** ditherRgbToIndex2D: the palette index for the pixel at (x, y), with
        the buffers rolled over if the row changed and the pixel's error
        propagated into them. */
    method DitherRgbToIndex2D(x: int, y: int, rgbmap: Option<RgbMap>, palette: Palette) returns (index: ColorT)
      requires Valid()
      requires 0 <= x < srcImage.value.width && 0 <= y < srcImage.value.Height()
      modifies this`lastY, err
      ensures Valid() && srcImage == old(srcImage) && width == old(width)
      ensures var s := Step(old(err[..]), width, old(lastY), transparentIndex,
                            srcImage.value.Pixel(x, y), x, y, rgbmap, palette);
              index == s.index && err[..] == s.bufs && lastY == s.lastY
    {
      RollOverOnNewRow(y);
      ghost var base := err[..];

      var color := srcImage.value.Pixel(x, y);
      var quantError;
      index, quantError := QuantizePixel(color, err[..], width, x, transparentIndex, rgbmap, palette);
      assert err[..] == base;
      Propagate(x, quantError);
      assert Step(old(err[..]), width, old(lastY), transparentIndex, color, x, y, rgbmap, palette)
          == StepResult(index, DiffuseAll(base, width, x, quantError), y);
    }

    /** The roll-over on a row change: the buffers become RowBase of the old
        ones and the row cursor becomes y. */
    method RollOverOnNewRow(y: int)
      requires Valid()
      modifies this`lastY, err
      ensures Valid() && srcImage == old(srcImage) && width == old(width)
      ensures err[..] == RowBase(old(err[..]), width, old(lastY), y) && lastY == y
    {
      if y != lastY {
        RollOver();
        lastY := y;
        assert forall i :: 0 <= i < CHANNELS ==> err[..][i] == RowBase(old(err[..]), width, old(lastY), y)[i];
      }
    }

    /** The roll-over of every channel's buffer. */
    method RollOver()
      requires Valid()
      modifies err
      ensures Valid()
      ensures forall i :: 0 <= i < CHANNELS ==> err[i] == Rolled(old(err[i]), width)
    {
      for i := 0 to CHANNELS
        invariant forall j :: 0 <= j < i ==> err[j] == Rolled(old(err[j]), width)
        invariant forall j :: i <= j < CHANNELS ==> err[j] == old(err[j])
      {
        err[i] := RollRow(err[i], width);
      }
    }

    /** The in-place `+=` of each channel's error into its four cells. */
    method Propagate(x: nat, quantError: seq<int>)
      requires Valid() && x + 2 < width && |quantError| == CHANNELS
      modifies err
      ensures Valid()
      ensures err[..] == DiffuseAll(old(err[..]), width, x, quantError)
    {
      for i := 0 to CHANNELS
        invariant forall j :: 0 <= j < i ==> err[j] == Diffuse(old(err[j]), width, x, quantError[j])
        invariant forall j :: i <= j < CHANNELS ==> err[j] == old(err[j])
      {
        var e := err[i];
        e := e[x + 2 := e[x + 2] + quantError[i] * 7];
        e := e[width + x := e[width + x] + quantError[i] * 3];
        e := e[width + x + 1 := e[width + x + 1] + quantError[i] * 5];
        e := e[width + x + 2 := e[width + x + 2] + quantError[i] * 1];
        err[i] := e;
      }
      assert forall j :: 0 <= j < CHANNELS ==> err[..][j] == DiffuseAll(old(err[..]), width, x, quantError)[j];
    }
  }
}
