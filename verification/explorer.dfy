/**
 * The viewer as a whole: the listener state, the colour table built once, and the
 * image's pixel buffer. A release that zooms re-runs the kernel on the new
 * viewport and recolours every pixel; every other event leaves the image alone.
 *
 * The escape-time kernel runs on the OpenCL device and its source is not part of
 * this model: it is a parameter, a deterministic function from the viewport to
 * one count per pixel in `[0, ITERATIONS)`.
 */
module Explorer {
  import opened JavaInt
  import opened Viewport
  import opened Selection
  import Palette
  import Render

  /** `iterations`; the kernel is handed `iterations - 1` as its cap. */
  const ITERATIONS: nat := 16384
  const PIXELS: nat := WIDTH * HEIGHT

  type Kernel = Size -> seq<int>

  /** The kernel's output always fills the image with palette indices. */
  ghost predicate KernelFits(kernel: Kernel) {
    forall v: Size :: |kernel(v)| == PIXELS && Render.CountsInRange(kernel(v), ITERATIONS, PIXELS)
  }

  datatype Session = Session(ctl: Controller, colors: seq<Int32>, pixels: seq<Int32>)

  /**
   * The palette is a start-up table (as written or corrected, by `entry`) and the
   * image has one entry per pixel.
   */
  predicate WellFormed(app: Session, ramp: nat -> Rgb24, entry: Rgb24 -> Int32) {
    && app.colors == Palette.TableOf(ITERATIONS, ramp, entry)
    && |app.pixels| == PIXELS
    && Valid(app.ctl)
  }

  /** The image of viewport `size`: the kernel's counts through the palette. */
  function Frame(colors: seq<Int32>, kernel: Kernel, size: Size): (pixels: seq<Int32>)
    requires |colors| == ITERATIONS && KernelFits(kernel)
    ensures |pixels| == PIXELS
    ensures forall i :: 0 <= i < PIXELS ==> pixels[i] == colors[kernel(size)[i]]
  {
    Render.Shade(colors, kernel(size))
  }

  /**
   * The constructor: load `(-2, -2, 4, 4)`, build the palette, draw once.
   */
  function Boot(ramp: nat -> Rgb24, kernel: Kernel): (app: Session)
    requires KernelFits(kernel)
    ensures WellFormed(app, ramp, Palette.Entry)
    ensures app.ctl == Initial()
    ensures app.pixels == Frame(app.colors, kernel, [-2.0, -2.0, 4.0, 4.0])
  {
    var colors := Palette.Table(ITERATIONS, ramp);
    Session(Initial(), colors, Frame(colors, kernel, InitialSize()))
  }

  /** One mouse event: the listener step, then a redraw if the step asked for one. */
  function Handle(app: Session, e: Event, kernel: Kernel): (r: Session)
    requires |app.colors| == ITERATIONS && KernelFits(kernel)
    ensures r.colors == app.colors
    ensures r.ctl == Step(app.ctl, e).next
    ensures Step(app.ctl, e).effect == Redraw ==> r.pixels == Frame(app.colors, kernel, r.ctl.size)
    ensures Step(app.ctl, e).effect != Redraw ==> r.pixels == app.pixels && r.ctl.size == app.ctl.size
  {
    var t := Step(app.ctl, e);
    if t.effect == Redraw then Session(t.next, app.colors, Frame(app.colors, kernel, t.next.size))
    else Session(t.next, app.colors, app.pixels)
  }

  /** Handling an event AWT can deliver keeps the session well formed. */
  lemma HandleKeepsWellFormed(app: Session, e: Event, ramp: nat -> Rgb24, entry: Rgb24 -> Int32, kernel: Kernel)
    requires WellFormed(app, ramp, entry) && KernelFits(kernel)
    requires e.Dragged? ==> app.ctl.start.Some?
    ensures WellFormed(Handle(app, e, kernel), ramp, entry)
  {
    StepKeepsValid(app.ctl, e);
  }

  /**
   * The image always shows the current viewport: if it did before an event, it
   * does after it, whether or not the event zoomed.
   */
  lemma HandleKeepsImageCurrent(app: Session, e: Event, kernel: Kernel)
    requires |app.colors| == ITERATIONS && KernelFits(kernel)
    requires app.pixels == Frame(app.colors, kernel, app.ctl.size)
    ensures Handle(app, e, kernel).pixels == Frame(app.colors, kernel, Handle(app, e, kernel).ctl.size)
  {
  }

  /** A click without a drag changes neither the viewport nor the image. */
  lemma ClickKeepsImage(app: Session, p: Point, kernel: Kernel)
    requires |app.colors| == ITERATIONS && KernelFits(kernel)
    requires !app.ctl.dragging
    ensures Handle(Handle(app, Pressed(p), kernel), Released(p), kernel).pixels == app.pixels
    ensures Handle(Handle(app, Pressed(p), kernel), Released(p), kernel).ctl.size == app.ctl.size
  {
  }
}
