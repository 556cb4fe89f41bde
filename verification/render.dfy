/**
 * The colouring loop of `drawMandelbrot`: every pixel takes the palette entry of
 * its iteration count. The counts come from the escape-time kernel, which is given
 * the cap `iterations - 1`, so each count indexes the palette.
 */
module Render {
  import opened JavaInt
  import Palette

  /** Every count below `bound` is a valid palette index. */
  predicate CountsInRange(counts: seq<int>, bound: int, n: int)
    requires n <= |counts|
  {
    forall i :: 0 <= i < n ==> 0 <= counts[i] < bound
  }

  /** The pixel buffer a palette and a count buffer determine (reference definition). */
  function Shade(colors: seq<Int32>, counts: seq<int>): (pixels: seq<Int32>)
    requires CountsInRange(counts, |colors|, |counts|)
    ensures |pixels| == |counts|
    ensures forall i :: 0 <= i < |counts| ==> pixels[i] == colors[counts[i]]
    decreases |counts|
  {
    if counts == [] then []
    else [colors[counts[0]]] + Shade(colors, counts[1..])
  }

  /**
   * `for (i = 0; i < pixels.length; i++) pixels[i] = colors[iters[i]];` over the
   * existing pixel buffer. The result does not depend on the buffer's old contents,
   * so running the loop twice on the same counts leaves the same pixels.
   */
  method DrawPixels(colors: seq<Int32>, iters: seq<int>, pixels: seq<Int32>) returns (drawn: seq<Int32>)
    requires |pixels| <= |iters|
    requires CountsInRange(iters, |colors|, |pixels|)
    ensures |drawn| == |pixels|
    ensures forall i :: 0 <= i < |pixels| ==> drawn[i] == colors[iters[i]]
  {
    drawn := pixels;
    var i := 0;
    while i < |drawn|
      invariant 0 <= i <= |drawn| == |pixels|
      invariant forall j :: 0 <= j < i ==> drawn[j] == colors[iters[j]]
    {
      drawn := drawn[i := colors[iters[i]]];
      i := i + 1;
    }
  }

  /**
   * A fill that meets the loop's contract is the reference buffer, whatever the
   * buffer held before: two runs on the same counts agree.
   */
  lemma {:induction false} FillIsShade(colors: seq<Int32>, counts: seq<int>, drawn: seq<Int32>)
    requires CountsInRange(counts, |colors|, |counts|)
    requires |drawn| == |counts|
    requires forall i :: 0 <= i < |counts| ==> drawn[i] == colors[counts[i]]
    ensures drawn == Shade(colors, counts)
  {
    var shaded := Shade(colors, counts);
    assert forall i :: 0 <= i < |drawn| ==> drawn[i] == shaded[i];
  }

  /**
   * A pixel whose count reached the cap handed to the kernel is opaque black,
   * whichever entry function built the table: the as-written one included.
   */
  lemma CappedPixelIsBlack(iterations: nat, ramp: nat -> Rgb24, entry: Rgb24 -> Int32, counts: seq<int>, i: nat)
    requires iterations >= 1
    requires CountsInRange(counts, iterations, |counts|)
    requires i < |counts| && counts[i] == iterations - 1
    ensures Shade(Palette.TableOf(iterations, ramp, entry), counts)[i] == OPAQUE_BLACK
  {
  }

  /**
   * Every pixel coloured from the table is opaque, and a pixel is black exactly
   * when its count is the cap or the ramp colour of its count is black (as it is
   * at count 0, where the brightness is 0).
   */
  lemma {:induction false} ShadedPixelsOpaque(iterations: nat, ramp: nat -> Rgb24, counts: seq<int>)
    requires iterations >= 1
    requires CountsInRange(counts, iterations, |counts|)
    ensures forall i :: 0 <= i < |counts| ==> Alpha(Shade(Palette.Table(iterations, ramp), counts)[i]) == 0xff
    ensures forall i :: 0 <= i < |counts| ==>
      ((Shade(Palette.Table(iterations, ramp), counts)[i] == OPAQUE_BLACK) <==>
       (counts[i] == iterations - 1 || ramp(counts[i]) == 0))
  {
    var colors := Palette.Table(iterations, ramp);
    OpaqueBlackBytes();
    forall i | 0 <= i < |counts|
      ensures Shade(colors, counts)[i] == OPAQUE_BLACK <==> counts[i] == iterations - 1 || ramp(counts[i]) == 0
    {
      var c := counts[i];
      if c != iterations - 1 {
        assert Channels(colors[c]) == ramp(c) && Alpha(colors[c]) == 0xff;
        if ramp(c) == 0 {
          assert colors[c] == Palette.Entry(0) == OPAQUE_BLACK;
        }
      }
    }
  }
}
