/**
 * Slicing the ghost sprite sheet into the three flap frames of the bird.
 *
 * The sheet is a grid of 3 columns by 4 rows; the frames are the three
 * cells of row 1 (the front view). Each cell is cut out, its background is
 * keyed out against the colour of its top-left pixel, and it is saved under
 * the frame's file name. Image decoding, cropping and saving belong to an
 * imaging library: cropping is a parameter here, and the trimming, resizing
 * and saving steps are not modelled.
 */
module ImageCropper {

  const Cols: nat := 3
  const Rows: nat := 4

  /** The row holding the front view of the ghost. */
  const TargetRow: nat := 1

  /** Colour distance, per channel, below which a pixel counts as background. */
  const Tolerance: int := 30

  /** The (column, row) cell of each frame, in frame order. */
  const FrameCells: seq<(nat, nat)> := [(0, TargetRow), (1, TargetRow), (2, TargetRow)]

  /** The file name of each frame, in frame order. */
  const FrameFilenames: seq<string> := ["ghostbird-downflap.png", "ghostbird-midflap.png", "ghostbird-upflap.png"]

  const AssetsDir: string := "assets/"

  /** A crop box: left and top inclusive, right and bottom exclusive. */
  datatype Box = Box(left: int, top: int, right: int, bottom: int)

  /** An RGBA pixel. */
  datatype Pixel = Pixel(r: int, g: int, b: int, a: int)

  const Transparent: Pixel := Pixel(0, 0, 0, 0)

  datatype Option<T> = None | Some(value: T)

  /** One saved frame: where it goes, which cell it came from, and its
      pixels after background removal. */
  datatype SavedFrame = SavedFrame(path: string, box: Box, pixels: seq<Pixel>)

  /** Width of one grid cell: the sheet width divided by 3, rounded down. */
  function CellWidth(w: nat): (sw: nat)
    ensures Cols * sw <= w < Cols * sw + Cols
  {
    w / Cols
  }

  /** Height of one grid cell: the sheet height divided by 4, rounded down. */
  function CellHeight(h: nat): (sh: nat)
    ensures Rows * sh <= h < Rows * sh + Rows
  {
    h / Rows
  }

  /** The crop box of the grid cell in column c and row `row`. */
  function CellBox(w: nat, h: nat, c: nat, row: nat): (b: Box)
    ensures b.right - b.left == CellWidth(w)
    ensures b.bottom - b.top == CellHeight(h)
  {
    var sw, sh := CellWidth(w), CellHeight(h);
    Box(c * sw, row * sh, c * sw + sw, row * sh + sh)
  }

  /** The box lies within a sheet of width w and height h. */
  predicate InsideSheet(b: Box, w: nat, h: nat)
  {
    0 <= b.left <= b.right <= w && 0 <= b.top <= b.bottom <= h
  }

  /** Every cell of the 3 by 4 grid lies within the sheet. */
  lemma CellInsideSheet(w: nat, h: nat, c: nat, row: nat)
    requires c < Cols && row < Rows
    ensures InsideSheet(CellBox(w, h, c, row), w, h)
  {
  }

  /** The crop box of frame i. */
  function FrameBox(w: nat, h: nat, i: nat): Box
    requires i < |FrameCells|
  {
    CellBox(w, h, FrameCells[i].0, FrameCells[i].1)
  }

  /** Frame i is column i of row 1: its box spans columns i*sw to (i+1)*sw
      and rows sh to 2*sh, and it lies within the sheet. */
  lemma FrameBoxShape(w: nat, h: nat, i: nat)
    requires i < |FrameCells|
    ensures FrameBox(w, h, i) == Box(i * CellWidth(w), CellHeight(h), (i + 1) * CellWidth(w), 2 * CellHeight(h))
    ensures InsideSheet(FrameBox(w, h, i), w, h)
  {
  }

  /** Consecutive frames abut: each frame's right edge is the next frame's
      left edge, and they share the same rows. */
  lemma FramesAbut(w: nat, h: nat, i: nat)
    requires i + 1 < |FrameCells|
    ensures FrameBox(w, h, i).right == FrameBox(w, h, i + 1).left
    ensures FrameBox(w, h, i).top == FrameBox(w, h, i + 1).top
    ensures FrameBox(w, h, i).bottom == FrameBox(w, h, i + 1).bottom
  {
  }

  /** A sheet at least 3 pixels wide and 4 pixels high gives frames of at
      least one pixel each way. */
  lemma FrameBoxNonEmpty(w: nat, h: nat, i: nat)
    requires i < |FrameCells|
    requires w >= Cols && h >= Rows
    ensures FrameBox(w, h, i).left < FrameBox(w, h, i).right
    ensures FrameBox(w, h, i).top < FrameBox(w, h, i).bottom
  {
  }

  function Abs(x: int): nat
  {
    if x < 0 then -x else x
  }

  /** The pixel's red, green and blue channels are each within the tolerance
      of the background colour's; alpha is not compared. */
  predicate NearBackground(p: Pixel, bg: Pixel)
  {
    Abs(p.r - bg.r) < Tolerance && Abs(p.g - bg.g) < Tolerance && Abs(p.b - bg.b) < Tolerance
  }

  /** The output pixel for p against background colour bg. */
  function KeyPixel(p: Pixel, bg: Pixel): (q: Pixel)
    ensures q == p || q == Transparent
    ensures NearBackground(p, bg) ==> q == Transparent
    ensures !NearBackground(p, bg) ==> q == p
  {
    if NearBackground(p, bg) then Transparent else p
  }

  /** Alpha plays no part in the comparison, on either side. */
  lemma NearBackgroundIgnoresAlpha(p: Pixel, bg: Pixel, pa: int, bga: int)
    ensures NearBackground(p.(a := pa), bg.(a := bga)) == NearBackground(p, bg)
  {
  }

  /** Keying against the same background twice changes nothing more. */
  lemma KeyPixelIdempotent(p: Pixel, bg: Pixel)
    ensures KeyPixel(KeyPixel(p, bg), bg) == KeyPixel(p, bg)
  {
  }

  /** The sprite data with its background keyed out against the top-left
      pixel; None when there is no pixel to take the background from. */
  function BackgroundRemoved(datas: seq<Pixel>): (r: Option<seq<Pixel>>)
    ensures r.Some? <==> |datas| > 0
    ensures r.Some? ==> |r.value| == |datas| && r.value[0] == Transparent
    ensures r.Some? ==> forall i :: 0 <= i < |datas| ==> r.value[i] == KeyPixel(datas[i], datas[0])
  {
    if |datas| == 0 then None
    else Some(seq(|datas|, i requires 0 <= i < |datas| => KeyPixel(datas[i], datas[0])))
  }

  /** Background removal as a loop over the sprite's pixels, appending one
      output pixel per input pixel. An empty sprite has no top-left pixel,
      which is an error. */
  method RemoveBackground(datas: seq<Pixel>) returns (res: Option<seq<Pixel>>)
    ensures res == BackgroundRemoved(datas)
  {
    if |datas| == 0 {
      return None;
    }
    var bgColor := datas[0];
    var newData: seq<Pixel> := [];
    for i := 0 to |datas|
      invariant |newData| == i
      invariant forall k :: 0 <= k < i ==> newData[k] == KeyPixel(datas[k], bgColor)
    {
      var pixel := datas[i];
      if Abs(pixel.r - bgColor.r) < Tolerance
        && Abs(pixel.g - bgColor.g) < Tolerance
        && Abs(pixel.b - bgColor.b) < Tolerance
      {
        newData := newData + [Transparent];
      } else {
        newData := newData + [pixel];
      }
    }
    assert newData == BackgroundRemoved(datas).value;
    res := Some(newData);
  }

  /** Cuts the three frames out of a w by h sheet, in frame order, keys out
      each frame's background and pairs it with its save path. `crop` gives
      the pixel data of a box. A frame with no pixels raises an error that
      ends the run: the frames before it are saved, the rest are not. */
  method ProcessSheet(w: nat, h: nat, crop: Box -> seq<Pixel>) returns (saved: seq<SavedFrame>, completed: bool)
    ensures |saved| <= |FrameCells|
    ensures completed <==> |saved| == |FrameCells|
    ensures forall i :: 0 <= i < |saved| ==>
      && saved[i].path == AssetsDir + FrameFilenames[i]
      && saved[i].box == FrameBox(w, h, i)
      && BackgroundRemoved(crop(saved[i].box)) == Some(saved[i].pixels)
    ensures !completed ==> crop(FrameBox(w, h, |saved|)) == []
  {
    var sw := w / Cols;
    var sh := h / Rows;
    saved := [];
    for i := 0 to |FrameCells|
      invariant |saved| == i
      invariant forall k :: 0 <= k < i ==>
        && saved[k].path == AssetsDir + FrameFilenames[k]
        && saved[k].box == FrameBox(w, h, k)
        && BackgroundRemoved(crop(saved[k].box)) == Some(saved[k].pixels)
    {
      var (c, r) := FrameCells[i];
      var left := c * sw;
      var top := r * sh;
      var right := left + sw;
      var bottom := top + sh;
      var box := Box(left, top, right, bottom);
      var keyed := RemoveBackground(crop(box));
      if keyed.None? {
        completed := false;
        return;
      }
      saved := saved + [SavedFrame(AssetsDir + FrameFilenames[i], box, keyed.value)];
    }
    completed := true;
  }
}
