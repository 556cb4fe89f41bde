/**
 * The viewport `double[] size = {originX, originY, width, height}` and the affine
 * map from pixels to the complex plane. `double` is idealised as `real`.
 */
module Viewport {

  /** The fixed canvas dimensions, `WIDTH` and `HEIGHT`. */
  const WIDTH: nat := 1000
  const HEIGHT: nat := 1000

  /** The four-entry `size` array: origin x, origin y, width, height. */
  type Size = s: seq<real> | |s| == 4 witness [0.0, 0.0, 0.0, 0.0]

  /** A fresh `new double[4]`. */
  const ZEROES: Size := [0.0, 0.0, 0.0, 0.0]

  /** `loadCoordinates`: four element-wise stores into the existing array. */
  function LoadCoordinates(size: Size, xs: real, ys: real, width: real, height: real): (r: Size)
    ensures r == [xs, ys, width, height]
  {
    size[0 := xs][1 := ys][2 := width][3 := height]
  }

  /** The viewport loaded at start-up, `loadCoordinates(-2, -2, 4, 4)`. */
  function InitialSize(): (r: Size)
    ensures r[0] == -2.0 && r[1] == -2.0 && r[2] == 4.0 && r[3] == 4.0
  {
    LoadCoordinates(ZEROES, -2.0, -2.0, 4.0, 4.0)
  }

  /** Real part of the plane point under pixel column `px`: `px / WIDTH * size[2] + size[0]`. */
  function Re(size: Size, px: real): (re: real)
    ensures px == 0.0 ==> re == size[0]
    ensures px == WIDTH as real ==> re == size[0] + size[2]
  {
    px / WIDTH as real * size[2] + size[0]
  }

  /** Imaginary part of the plane point under pixel row `py`. */
  function Im(size: Size, py: real): (im: real)
    ensures py == 0.0 ==> im == size[1]
    ensures py == HEIGHT as real ==> im == size[1] + size[3]
  {
    py / HEIGHT as real * size[3] + size[1]
  }

  /**
   * The map sends the left and right canvas edges to the viewport's edges, and
   * moving `d` pixels moves `d / WIDTH` of the viewport's width.
   */
  lemma ReSpansViewport(size: Size, px: real, d: real)
    ensures Re(size, 0.0) == size[0]
    ensures Re(size, WIDTH as real) == size[0] + size[2]
    ensures Re(size, px + d) - Re(size, px) == d / WIDTH as real * size[2]
  {
  }

  lemma ImSpansViewport(size: Size, py: real, d: real)
    ensures Im(size, 0.0) == size[1]
    ensures Im(size, HEIGHT as real) == size[1] + size[3]
    ensures Im(size, py + d) - Im(size, py) == d / HEIGHT as real * size[3]
  {
  }

  /** Pixel positions of the initial view: corner, centre and last pixel. */
  lemma InitialViewBoundary()
    ensures Re(InitialSize(), 0.0) == -2.0 && Im(InitialSize(), 0.0) == -2.0
    ensures Re(InitialSize(), 500.0) == 0.0 && Im(InitialSize(), 500.0) == 0.0
    ensures Re(InitialSize(), 999.0) == 1.996 && Im(InitialSize(), 999.0) == 1.996
  {
  }

  /**
   * The viewport a release derives from a drag from pixel `(sx, sy)` to `(ex, ey)`:
   * origin at the mapped start point, extent the mapped end minus the mapped start.
   */
  function Zoom(size: Size, sx: int, sy: int, ex: int, ey: int): (r: Size)
    ensures Re(r, 0.0) == Re(size, sx as real) && Im(r, 0.0) == Im(size, sy as real)
    ensures Re(r, WIDTH as real) == Re(size, ex as real)
    ensures Im(r, HEIGHT as real) == Im(size, ey as real)
  {
    var xs := Re(size, sx as real);
    var ys := Im(size, sy as real);
    var xe := Re(size, ex as real);
    var ye := Im(size, ey as real);
    LoadCoordinates(size, xs, ys, xe - xs, ye - ys)
  }

  /** The new origin and the signed extent of a zoom, entry by entry. */
  lemma ZoomOriginAndExtent(size: Size, sx: int, sy: int, ex: int, ey: int)
    ensures Zoom(size, sx, sy, ex, ey)[0] == sx as real / WIDTH as real * size[2] + size[0]
    ensures Zoom(size, sx, sy, ex, ey)[1] == sy as real / HEIGHT as real * size[3] + size[1]
    ensures Zoom(size, sx, sy, ex, ey)[2] == (ex - sx) as real / WIDTH as real * size[2]
    ensures Zoom(size, sx, sy, ex, ey)[3] == (ey - sy) as real / HEIGHT as real * size[3]
  {
    ReSpansViewport(size, sx as real, (ex - sx) as real);
    ImSpansViewport(size, sy as real, (ey - sy) as real);
  }

  /**
   * The new view shows exactly the selected rectangle: pixel `(qx, qy)` of the new
   * view lands where the point `start + q / DIM * (end - start)` of the old view did.
   */
  lemma ZoomShowsSelection(size: Size, sx: int, sy: int, ex: int, ey: int, qx: real, qy: real)
    ensures Re(Zoom(size, sx, sy, ex, ey), qx)
         == Re(size, sx as real + qx / WIDTH as real * (ex - sx) as real)
    ensures Im(Zoom(size, sx, sy, ex, ey), qy)
         == Im(size, sy as real + qy / HEIGHT as real * (ey - sy) as real)
  {
    var z := Zoom(size, sx, sy, ex, ey);
    ZoomOriginAndExtent(size, sx, sy, ex, ey);
    ReSpansViewport(size, sx as real, qx / WIDTH as real * (ex - sx) as real);
    ImSpansViewport(size, sy as real, qy / HEIGHT as real * (ey - sy) as real);
  }

  /**
   * Extents are not normalised: with a positive width, the new width is negative
   * exactly when the drag went left, and zero when it was purely vertical.
   */
  lemma ZoomWidthSign(size: Size, sx: int, sy: int, ex: int, ey: int)
    requires size[2] > 0.0
    ensures Zoom(size, sx, sy, ex, ey)[2] < 0.0 <==> ex < sx
    ensures Zoom(size, sx, sy, ex, ey)[2] == 0.0 <==> ex == sx
  {
    ZoomOriginAndExtent(size, sx, sy, ex, ey);
  }

  lemma ZoomHeightSign(size: Size, sx: int, sy: int, ex: int, ey: int)
    requires size[3] > 0.0
    ensures Zoom(size, sx, sy, ex, ey)[3] < 0.0 <==> ey < sy
    ensures Zoom(size, sx, sy, ex, ey)[3] == 0.0 <==> ey == sy
  {
    ZoomOriginAndExtent(size, sx, sy, ex, ey);
  }

  /** A drag from (100, 100) to (300, 300) on the initial view. */
  lemma ZoomExample()
    ensures Zoom(InitialSize(), 100, 100, 300, 300) == [-1.6, -1.6, 0.8, 0.8]
  {
    ZoomOriginAndExtent(InitialSize(), 100, 100, 300, 300);
  }
}
