/**
 * The colour table built once in the constructor: one entry per iteration count,
 * the last one forced to opaque black.
 *
 * `Color.HSBtoRGB(i/512f, 1f, i/(i+10f))` is float arithmetic followed by a library
 * call; it is abstracted as `ramp(i)`, the 24-bit colour the library computes for
 * count `i`. The library returns that colour with its alpha byte set to 0xff.
 */
module Palette {
  import opened JavaInt

  /** The value `Color.HSBtoRGB` returns for a computed colour `rgb`: `0xff000000 | rgb`. */
  function LibraryColor(rgb: Rgb24): (c: Int32)
    ensures Alpha(c) == 0xff && Channels(c) == rgb
  {
    rgb - TWO_24
  }

  /**
   * A palette entry as the constructor writes it: `0xff000000 + HSBtoRGB(...)`.
   * The library result already carries alpha 0xff, so the Java `int` sum carries
   * alpha 0xfe: the entry is not opaque.
   */
  function AsWrittenEntry(rgb: Rgb24): (c: Int32)
    ensures Alpha(c) == 0xfe && Channels(c) == rgb
  {
    Wrap32(OPAQUE_BLACK + LibraryColor(rgb))
  }

  /** The entry the constructor evidently means: the colour `rgb`, fully opaque. */
  function Entry(rgb: Rgb24): (c: Int32)
    ensures Alpha(c) == 0xff && Channels(c) == rgb
  {
    LibraryColor(rgb)
  }

  /** Every colour ramp value yields a translucent entry as written; black shows it. */
  lemma AsWrittenEntryIsNotOpaque(rgb: Rgb24)
    ensures AsWrittenEntry(rgb) != Entry(rgb)
    ensures AsWrittenEntry(0) == -2 * TWO_24
  {
  }

  /**
   * The colour table for an iteration cap of `iterations` whose entries below the
   * last are made by `entry` from the ramp colour (reference definition).
   */
  function TableOf(iterations: nat, ramp: nat -> Rgb24, entry: Rgb24 -> Int32): (colors: seq<Int32>)
    requires iterations >= 1
    ensures |colors| == iterations
    ensures colors[iterations - 1] == OPAQUE_BLACK
    ensures forall i :: 0 <= i < iterations - 1 ==> colors[i] == entry(ramp(i))
  {
    seq(iterations, i requires 0 <= i < iterations => TableEntry(iterations, ramp, entry, i))
  }

  function TableEntry(iterations: nat, ramp: nat -> Rgb24, entry: Rgb24 -> Int32, i: nat): Int32 {
    if i == iterations - 1 then OPAQUE_BLACK else entry(ramp(i))
  }

  /** The table the constructor builds, entries `0xff000000 + HSBtoRGB(...)`. */
  function AsWrittenTable(iterations: nat, ramp: nat -> Rgb24): (colors: seq<Int32>)
    requires iterations >= 1
    ensures |colors| == iterations
    ensures colors[iterations - 1] == OPAQUE_BLACK
    ensures forall i :: 0 <= i < iterations - 1 ==> Channels(colors[i]) == ramp(i) && Alpha(colors[i]) == 0xfe
  {
    TableOf(iterations, ramp, AsWrittenEntry)
  }

  /** The corrected table, every entry opaque; the rest of the model uses this one. */
  function Table(iterations: nat, ramp: nat -> Rgb24): (colors: seq<Int32>)
    requires iterations >= 1
    ensures |colors| == iterations
    ensures colors[iterations - 1] == OPAQUE_BLACK
    ensures forall i :: 0 <= i < iterations - 1 ==> Channels(colors[i]) == ramp(i)
    ensures forall i :: 0 <= i < iterations ==> Alpha(colors[i]) == 0xff
  {
    OpaqueBlackBytes();
    TableOf(iterations, ramp, Entry)
  }

  /**
   * The as-written and the corrected tables agree in length, in the last entry and
   * in every entry's colour channels; below the last entry they differ exactly in
   * the alpha byte, 0xfe against 0xff.
   */
  lemma TablesDifferOnlyInAlpha(iterations: nat, ramp: nat -> Rgb24)
    requires iterations >= 1
    ensures |AsWrittenTable(iterations, ramp)| == |Table(iterations, ramp)|
    ensures AsWrittenTable(iterations, ramp)[iterations - 1] == Table(iterations, ramp)[iterations - 1]
    ensures forall i :: 0 <= i < iterations ==>
      Channels(AsWrittenTable(iterations, ramp)[i]) == Channels(Table(iterations, ramp)[i])
    ensures forall i :: 0 <= i < iterations - 1 ==>
      Alpha(AsWrittenTable(iterations, ramp)[i]) == 0xfe && Alpha(Table(iterations, ramp)[i]) == 0xff
  {
  }

  /**
   * The constructor's loop: `colors = new int[iterations]`, entries `0 .. iterations-2`
   * from the ramp through `entry`, then the last entry set to `0xff000000`. With
   * `AsWrittenEntry` it is the loop as written, with `Entry` the corrected one.
   */
  method BuildPalette(iterations: nat, ramp: nat -> Rgb24, entry: Rgb24 -> Int32) returns (colors: seq<Int32>)
    requires iterations >= 1
    ensures |colors| == iterations && colors[iterations - 1] == OPAQUE_BLACK
    ensures forall i :: 0 <= i < iterations - 1 ==> colors[i] == entry(ramp(i))
  {
    colors := seq(iterations, _ => 0);
    var i := 0;
    while i < iterations - 1
      invariant 0 <= i <= iterations - 1
      invariant |colors| == iterations
      invariant forall j :: 0 <= j < i ==> colors[j] == entry(ramp(j))
    {
      colors := colors[i := entry(ramp(i))];
      i := i + 1;
    }
    colors := colors[iterations - 1 := OPAQUE_BLACK];
  }

  /** Any result of the loop is the reference table, so the loop's output is unique. */
  lemma {:induction false} BuildIsTable(iterations: nat, ramp: nat -> Rgb24, entry: Rgb24 -> Int32, colors: seq<Int32>)
    requires iterations >= 1
    requires |colors| == iterations && colors[iterations - 1] == OPAQUE_BLACK
    requires forall i :: 0 <= i < iterations - 1 ==> colors[i] == entry(ramp(i))
    ensures colors == TableOf(iterations, ramp, entry)
  {
    var t := TableOf(iterations, ramp, entry);
    assert forall i :: 0 <= i < iterations ==> colors[i] == t[i];
  }

  /** Building the table twice with the same cap gives identical tables. */
  lemma TableDeterministic(iterations: nat, ramp: nat -> Rgb24, other: nat -> Rgb24)
    requires iterations >= 1
    requires forall i :: 0 <= i < iterations - 1 ==> ramp(i) == other(i)
    ensures Table(iterations, ramp) == Table(iterations, other)
  {
  }
}
