# Mandelbrot explorer: selection, viewport and colouring

A Dafny model of the sequential logic inside the Mandelbrot viewer
(`src/com/camoga/mandelbrot/Mandelbrot.java`). The viewer shows the
escape-time image of a rectangle of the complex plane on a 1000×1000 canvas;
the user drags a selection rectangle, and on release the rectangle becomes the
new viewport and the image is recomputed on the OpenCL device.

Three pieces are modelled:

- **Drag selection** (`Selection`): the mouse listener's fields `start`, `end`,
  `dragging` and the viewport, as a datatype with a pure `Step(state, event)`.
  Press records `start`; drag sets `dragging` and `end`; release overwrites
  `end`, and if a drag happened, zooms and redraws, then clears `dragging`.
  The red selection overlay drawn while dragging is `Overlay`.
- **Viewport** (`Viewport`): the four-entry `size` array
  `{originX, originY, width, height}`, `loadCoordinates`, the pixel-to-plane map
  `px / WIDTH * size[2] + size[0]` (`Re`, `Im`), and the zoom a release derives
  from the start and release pixels (`Zoom`). Extents are signed: a drag up or
  left gives a negative width or height, and the model states this rather than
  forbidding it.
- **Palette and colouring** (`Palette`, `Render`): the colour table of
  `iterations` entries whose last entry is opaque black `0xff000000`, and the loop
  `pixels[i] = colors[iters[i]]`.

`Explorer` puts them together: a `Session` holds the listener state, the colour
table and the pixel buffer; `Boot` is the constructor and `Handle` one mouse
event, redrawing only when the step asks for it.

Modelling choices:

- `double` is idealised as `real`, so equalities such as "the new origin is the
  mapped start point" hold exactly.
- `Color.HSBtoRGB(i/512f, 1f, i/(i+10f))` is the parameter `ramp: nat -> Rgb24`,
  the 24-bit colour the library computes for count `i`. The library returns it
  as `0xff000000 | rgb`, with the alpha byte set, as the JDK implementation does.
- The escape-time kernel (`/mandelbrot.cl`, not part of this model) is the
  parameter `kernel: Size -> seq<int>`. It must return one count per pixel, each
  in `[0, iterations)`; it is handed the cap `iterations - 1` at line 142.
- Java `int` colours are `Int32` (two's complement in `[-2^31, 2^31)`);
  `Alpha` is `c >>> 24` and `Channels` is `c & 0xffffff`.
- Each listener call is one atomic step of `Step`; the render thread observes
  the state only between steps.
- A release while `dragging` with `start` still `null` would throw a
  `NullPointerException` inside the handler: `end` has been overwritten,
  `dragging` stays true and the viewport is untouched. `Step` reports this as the
  effect `Fault`. AWT delivers a drag only after a press, and `RunNeverFaults`
  shows that under that order no fault happens.

## Model

| member | source | states |
|---|---|---|
| JavaInt.Wrap32 | src/com/camoga/mandelbrot/Mandelbrot.java:63 | Java `int` addition: the result lies in the 32-bit range, is congruent to the exact sum modulo 2^32, and equals it when the sum fits |
| Palette.LibraryColor | src/com/camoga/mandelbrot/Mandelbrot.java:63 | the library's colour carries alpha 0xff and the computed 24-bit channels |
| Palette.AsWrittenEntry | src/com/camoga/mandelbrot/Mandelbrot.java:63 | the entry as written, `0xff000000 + HSBtoRGB(...)` in Java `int`, has alpha 0xfe and the computed channels |
| Palette.AsWrittenEntryIsNotOpaque | src/com/camoga/mandelbrot/Mandelbrot.java:63 | for every colour the as-written entry differs from the opaque one; the entry for black is 0xfe000000 |
| Palette.Entry | src/com/camoga/mandelbrot/Mandelbrot.java:63 | the corrected entry is fully opaque and keeps the computed channels |
| Palette.TableOf | src/com/camoga/mandelbrot/Mandelbrot.java:62-66 | a table for entry function `entry` has exactly `iterations` entries, the last `0xff000000`, and entry `i < iterations-1` is `entry` of the ramp colour of `i` |
| Palette.AsWrittenTable | src/com/camoga/mandelbrot/Mandelbrot.java:62-66 | the table as the constructor writes it: `iterations` entries, the last `0xff000000`, every entry below it with the ramp channels of its index and alpha 0xfe |
| Palette.Table | src/com/camoga/mandelbrot/Mandelbrot.java:62-66 | the corrected table: `iterations` entries, the last `0xff000000`, every entry below it with the ramp channels of its index, and all opaque |
| Palette.TablesDifferOnlyInAlpha | src/com/camoga/mandelbrot/Mandelbrot.java:62-66 | the as-written and corrected tables agree in length, last entry and every entry's channels, and below the last entry differ only in alpha, 0xfe against 0xff |
| Palette.BuildPalette | src/com/camoga/mandelbrot/Mandelbrot.java:62-66 | the fill loop over `new int[iterations]` gives length `iterations`, entry `i < iterations-1` made by the entry function from the ramp of `i`, last entry opaque black; with `AsWrittenEntry` it is the loop as written |
| Palette.BuildIsTable | src/com/camoga/mandelbrot/Mandelbrot.java:62-66 | any output meeting the loop's contract is the reference table, so the loop's result is unique |
| Palette.TableDeterministic | src/com/camoga/mandelbrot/Mandelbrot.java:62-66 | the table depends only on the cap and the ramp values below it, so building it twice gives the same table |
| Viewport.LoadCoordinates | src/com/camoga/mandelbrot/Mandelbrot.java:162-166 | the four stores replace the whole array: the result is exactly `[xs, ys, width, height]`, whatever it held before |
| Viewport.InitialSize | src/com/camoga/mandelbrot/Mandelbrot.java:158 | the start-up viewport is origin (-2, -2), extent 4 × 4 |
| Viewport.Re | src/com/camoga/mandelbrot/Mandelbrot.java:96-99 | the x map `px / WIDTH * size[2] + size[0]` sends column 0 to the origin and column WIDTH to origin + width |
| Viewport.Im | src/com/camoga/mandelbrot/Mandelbrot.java:97-100 | the y map `py / HEIGHT * size[3] + size[1]` sends row 0 to the origin and row HEIGHT to origin + height |
| Viewport.ReSpansViewport | src/com/camoga/mandelbrot/Mandelbrot.java:96-99 | the x map sends column 0 to the origin and column WIDTH to origin + width, and is affine with slope width / WIDTH |
| Viewport.ImSpansViewport | src/com/camoga/mandelbrot/Mandelbrot.java:97-100 | the y map sends row 0 to the origin and row HEIGHT to origin + height, and is affine with slope height / HEIGHT |
| Viewport.InitialViewBoundary | src/com/camoga/mandelbrot/Mandelbrot.java:96-100 | on the start-up view pixel (0,0) is (-2,-2), pixel (500,500) is (0,0) and pixel (999,999) is (1.996,1.996) |
| Viewport.Zoom | src/com/camoga/mandelbrot/Mandelbrot.java:96-103 | the new view's top-left corner is the old plane point under the start pixel and its far corner the old plane point under the release pixel |
| Viewport.ZoomOriginAndExtent | src/com/camoga/mandelbrot/Mandelbrot.java:96-103 | new origin = start pixel mapped through the old viewport; new width/height = mapped end minus mapped start, i.e. pixel delta / DIM × old extent |
| Viewport.ZoomShowsSelection | src/com/camoga/mandelbrot/Mandelbrot.java:96-103 | every pixel q of the new view shows the old view's point at start + q / DIM × (end − start): the selection fills the canvas |
| Viewport.ZoomWidthSign | src/com/camoga/mandelbrot/Mandelbrot.java:99-103 | with a positive width, the new width is negative iff the drag went left and zero iff it was purely vertical (no normalisation) |
| Viewport.ZoomHeightSign | src/com/camoga/mandelbrot/Mandelbrot.java:100-103 | with a positive height, the new height is negative iff the drag went up and zero iff it was purely horizontal |
| Viewport.ZoomExample | src/com/camoga/mandelbrot/Mandelbrot.java:96-103 | a drag from (100,100) to (300,300) on the start-up view gives origin (-1.6,-1.6) and extent 0.8 × 0.8 |
| Selection.Initial | src/com/camoga/mandelbrot/Mandelbrot.java:71-72 | before any event `start` and `end` are null, `dragging` is false and the viewport is the start-up one |
| Selection.Step | src/com/camoga/mandelbrot/Mandelbrot.java:89-112 | a redraw happens iff a release follows a drag (with `start` set); otherwise the viewport is unchanged; the zoom uses the recorded start and the release point; a press changes only `start`; a drag always sets `dragging` and `end`; a completed release clears `dragging`; a faulting release keeps `dragging` set and the viewport unchanged; a release always overwrites `end` |
| Selection.Run | src/com/camoga/mandelbrot/Mandelbrot.java:88-113 | over a sequence of events there is one effect per event, and only releases have effects |
| Selection.StepKeepsValid | src/com/camoga/mandelbrot/Mandelbrot.java:89-112 | if `dragging` implies non-null `start` and `end` before an event (drags only after a press), it does after, and no release faults |
| Selection.RunNeverFaults | src/com/camoga/mandelbrot/Mandelbrot.java:93-112 | under AWT's order (no drag before the first press), no release in any run throws and the state stays valid |
| Selection.NoDragNoZoom | src/com/camoga/mandelbrot/Mandelbrot.java:93-106 | with no drag event, any run of presses and releases leaves the viewport unchanged and never redraws |
| Selection.ClickIsNoOp | src/com/camoga/mandelbrot/Mandelbrot.java:89-106 | press then release at one point, with no drag, keeps the viewport and redraws nothing |
| Selection.GestureZooms | src/com/camoga/mandelbrot/Mandelbrot.java:89-112 | press, drag, release redraws once, zooms onto the press point and the release point (not the drag point), and ends not dragging |
| Selection.Overlay | src/com/camoga/mandelbrot/Mandelbrot.java:187-189 | the overlay is drawn iff `dragging`; its rectangle runs from `start` to `end` |
| Selection.OverlayTracksGesture | src/com/camoga/mandelbrot/Mandelbrot.java:187-189 | after a drag the overlay spans `start` to the drag point; after a release there is none |
| Render.Shade | src/com/camoga/mandelbrot/Mandelbrot.java:178-180 | the pixel buffer a palette and count buffer determine has one pixel per count, pixel i = colors[counts[i]] |
| Render.DrawPixels | src/com/camoga/mandelbrot/Mandelbrot.java:178-180 | with every count a palette index, the loop sets pixel i to colors[iters[i]] for every i; the result ignores the old contents, so a second run gives the same pixels |
| Render.FillIsShade | src/com/camoga/mandelbrot/Mandelbrot.java:178-180 | any buffer the loop can leave equals the reference buffer for the counts, so running the fill twice on the same counts gives the same pixels |
| Render.CappedPixelIsBlack | src/com/camoga/mandelbrot/Mandelbrot.java:178-180 | a pixel whose count is the kernel's cap `iterations - 1` is opaque black, for a table built with any entry function, so for the constructor's as-written table as well as the corrected one |
| Render.ShadedPixelsOpaque | src/com/camoga/mandelbrot/Mandelbrot.java:178-180 | with the corrected table every coloured pixel is opaque, and a pixel is black iff its count is the cap or the ramp colour of its count is black (as at count 0) |
| Explorer.Frame | src/com/camoga/mandelbrot/Mandelbrot.java:171-180 | a redraw fills the whole canvas, pixel i taking the palette entry of the kernel's count i for the viewport |
| Explorer.Boot | src/com/camoga/mandelbrot/Mandelbrot.java:56-68 | start-up yields the initial listener state, the corrected colour table and the image of the (-2,-2,4,4) view |
| Explorer.Handle | src/com/camoga/mandelbrot/Mandelbrot.java:93-107 | the palette never changes; a zooming release recomputes the image for the new viewport; any other event leaves image and viewport unchanged |
| Explorer.HandleKeepsWellFormed | src/com/camoga/mandelbrot/Mandelbrot.java:89-112 | events AWT can deliver keep the palette (as-written or corrected table alike), the image size and the listener invariant |
| Explorer.HandleKeepsImageCurrent | src/com/camoga/mandelbrot/Mandelbrot.java:93-107 | if the image shows the current viewport before an event, it does after it |
| Explorer.ClickKeepsImage | src/com/camoga/mandelbrot/Mandelbrot.java:89-107 | a click without a drag leaves both the viewport and the pixel buffer unchanged |

## Findings

| source | as written | input that shows it | evidently intended | confidence | as-written member | corrected member |
|---|---|---|---|---|---|---|
| src/com/camoga/mandelbrot/Mandelbrot.java:63 | `0xff000000 + Color.HSBtoRGB(...)` adds a second alpha to a value whose alpha byte is already 0xff, so every palette entry but the last has alpha 0xfe | count 0 (HSB brightness 0, colour 0x000000): entry 0xfe000000, not the opaque 0xff000000 | every entry fully opaque, like the last entry `0xff000000` | medium, not executed (relies on the library setting alpha 0xff) | Palette.AsWrittenEntry | Palette.Entry |

The rest of the model builds the table from `Palette.Entry`.

## Left out

- OpenCL: context and device selection, program build, buffers, kernel launch,
  read-back and release (`createContext`, `init`, `clean`, the enqueue calls in
  `loadCoordinates` and `drawMandelbrot`). These are calls into the GPU backend.
- The escape-time kernel `/mandelbrot.cl`, which is not part of this model; it is
  a parameter whose counts are assumed to lie in `[0, iterations)`.
- `Color.HSBtoRGB` and the float hue/brightness arithmetic: a library call on
  floats, abstracted as the parameter `ramp`.
- The render thread with its 50 ms sleep loop, and the sharing of `dragging`,
  `start` and `end` between the event thread and the render thread: concurrency.
- `JFrame`, `Canvas`, `BufferStrategy` drawing, the window listener, `loadSrc`
  resource loading and `System.out` logging: UI and I/O.
- Exact `double` rounding in the coordinate map: the model uses `real`.
- Selection.Overlay: `end.x - start.x` is unbounded integer subtraction, not Java
  `int` wrap-around, because mouse coordinates are bounded by the screen size.
  AWT keeps delivering drags and the release to the pressed canvas while the
  pointer is outside it, so points may be negative or at least 1000; `Step`,
  `Zoom` and `Overlay` accept any point, and a release outside the canvas gives a
  selection that extends past it, which `Zoom` takes as it is.
- Interleaving of the render thread with a handler: each handler is modelled as
  one atomic step. `mouseDragged` stores `dragging = true` (line 110) before
  `end` (line 111), so on a drag before any release a render tick between the
  two stores reads a null `end` and throws at line 189; the loop at lines 122-131
  catches only `InterruptedException`, so the render thread would end. `Overlay`
  requires the listener invariant, which holds between handler calls
  (`RunNeverFaults`), not inside them; this window is concurrency and is not
  modelled.
- Palette.Table: states every entry opaque, which holds for the corrected table
  only; the constructor's own table is `Palette.AsWrittenTable` (alpha 0xfe below
  the last entry), see "## Findings".
- Explorer.Boot: builds the session from the corrected table, so its image is
  opaque where the program's pixels carry alpha 0xfe.
- Render.ShadedPixelsOpaque: states opacity for pixels coloured from the
  corrected table only.
- A failing OpenCL call during a redraw (exceptions are enabled at line 223): it
  would throw out of the release handler after `loadCoordinates`, leaving
  `dragging` set; the OpenCL calls are outside the model, so this path is too.
- Render.DrawPixels: an out-of-range count would throw mid-loop and leave the
  buffer partly overwritten; the model requires every count to be a palette index.
