/** The image views over a cube (peppy/hsi/view.py): which bands (or, in the
    focal-plane view, which line) are on display, the bands loaded for them
    and their combined value range.  Bitmaps, colour filters and contrast
    stretching are not part of this model. */
module View {
  import opened Base
  import C = Cube

  /** `CubeView` shows one or three bands as an image; `FocalPlaneView` shows
      one line as a samples x bands image. */
  datatype ViewKind = ImageView | FocalPlaneView

  /** One entry of `self.bands`: the band number, its image and the image's
      minimum and maximum. */
  datatype LoadedBand = LoadedBand(index: int, raw: seq<seq<int>>, minval: int, maxval: int)

  /** `setIndexes` accepts a band when it lies in `[0, max_index]`; a view
      whose `max_index` was never assigned (`None`) accepts nothing. */
  predicate InRange(b: int, maxIndex: Option<int>)
  {
    maxIndex.Some? && 0 <= b <= maxIndex.value
  }

  /** The comparison of `setIndexes` that answers False. */
  predicate Rejects(b: int, maxIndex: Option<int>)
  {
    b < 0 || (maxIndex.Some? && b > maxIndex.value)
  }

  predicate AllInRange(s: seq<int>, maxIndex: Option<int>)
  {
    forall i :: 0 <= i < |s| ==> InRange(s[i], maxIndex)
  }

  /** `setIndexes(newbands)` on `n` displayed indexes succeeds. */
  predicate Accepts(n: int, newbands: seq<int>, maxIndex: Option<int>)
  {
    n <= |newbands| && forall i :: 0 <= i < n ==> InRange(newbands[i], maxIndex)
  }

  /** The check loop of `setIndexes` stops with False at position `i`. */
  predicate RejectsAt(n: int, newbands: seq<int>, maxIndex: Option<int>, i: int)
  {
    0 <= i < n && i < |newbands| && Rejects(newbands[i], maxIndex)
    && forall j :: 0 <= j < i ==> InRange(newbands[j], maxIndex)
  }

  /** Every displayed index moved by `d`. */
  function Shifted(s: seq<int>, d: int): (r: seq<int>)
    ensures |r| == |s|
    ensures forall i :: 0 <= i < |s| ==> r[i] - s[i] == d
  {
    seq(|s|, i requires 0 <= i < |s| => s[i] + d)
  }

  /** The loop of `nextIndex`/`prevIndex` that builds the shifted list. */
  method ShiftAll(indexes: seq<int>, d: int) returns (newbands: seq<int>)
    ensures newbands == Shifted(indexes, d)
  {
    newbands := [];
    var i := 0;
    while i < |indexes|
      invariant 0 <= i <= |indexes|
      invariant newbands == Shifted(indexes[..i], d)
    {
      newbands := newbands + [indexes[i] + d];
      i := i + 1;
    }
    assert indexes[..i] == indexes;
  }

  /** Shifting forward and back again restores the indexes; when they were
      all acceptable before, they still are afterwards. */
  lemma {:induction false} ShiftRoundTrip(s: seq<int>, d: int, maxIndex: Option<int>)
    ensures Shifted(Shifted(s, d), -d) == s
    ensures AllInRange(s, maxIndex) ==> Accepts(|s|, Shifted(Shifted(s, d), -d), maxIndex)
  {
    var t := Shifted(Shifted(s, d), -d);
    assert forall i :: 0 <= i < |s| ==> t[i] == s[i];
  }

  /** The band numbers of the loaded bands differ from the displayed indexes
      (the `refresh` test of `show`, which only looks when indexes exist). */
  predicate IndexListDiffers(indexes: seq<int>, bands: seq<LoadedBand>)
  {
    |indexes| > 0 && (|indexes| != |bands| || exists i :: 0 <= i < |indexes| && indexes[i] != bands[i].index)
  }

  /** The loop of `show` that decides whether the loaded bands are stale. */
  method RefreshNeeded(indexes: seq<int>, bands: seq<LoadedBand>) returns (refresh: bool)
    ensures refresh <==> IndexListDiffers(indexes, bands)
  {
    refresh := false;
    if |indexes| > 0 {
      if |indexes| != |bands| {
        refresh := true;
      } else {
        var i := 0;
        while i < |indexes|
          invariant 0 <= i <= |indexes|
          invariant forall j :: 0 <= j < i ==> indexes[j] == bands[j].index
        {
          if indexes[i] != bands[i].index {
            refresh := true;
            break;
          }
          i := i + 1;
        }
      }
    }
  }

  function Minima(bs: seq<LoadedBand>): (r: seq<int>)
    ensures |r| == |bs| && forall k :: 0 <= k < |bs| ==> r[k] == bs[k].minval
  {
    seq(|bs|, k requires 0 <= k < |bs| => bs[k].minval)
  }

  function Maxima(bs: seq<LoadedBand>): (r: seq<int>)
    ensures |r| == |bs| && forall k :: 0 <= k < |bs| ==> r[k] == bs[k].maxval
  {
    seq(|bs|, k requires 0 <= k < |bs| => bs[k].maxval)
  }

  /** What `loadBands` leaves in `self.extrema`: the smallest band minimum and
      the largest band maximum, `(None, None)` when no band is displayed. */
  function BandsRange(bs: seq<LoadedBand>): C.Extrema
  {
    if |bs| == 0 then C.Extrema(None, None) else C.Extrema(Some(Min(Minima(bs))), Some(Max(Maxima(bs))))
  }

  /** Every pixel of the loaded band images, band after band. */
  function AllPixels(bs: seq<LoadedBand>): seq<int>
  {
    if |bs| == 0 then [] else AllPixels(bs[..|bs| - 1]) + C.Flatten(bs[|bs| - 1].raw)
  }

  /** One more band folded into the running minimum and maximum. */
  lemma {:induction false} AppendRange(bs: seq<LoadedBand>)
    requires |bs| > 1
    ensures Min(Minima(bs)) ==
      var m := Min(Minima(bs[..|bs| - 1])); if bs[|bs| - 1].minval < m then bs[|bs| - 1].minval else m
    ensures Max(Maxima(bs)) ==
      var m := Max(Maxima(bs[..|bs| - 1])); if bs[|bs| - 1].maxval > m then bs[|bs| - 1].maxval else m
  {
    var prev := bs[..|bs| - 1];
    assert Minima(bs) == Minima(prev) + [bs[|bs| - 1].minval];
    assert Maxima(bs) == Maxima(prev) + [bs[|bs| - 1].maxval];
    C.MinAppend(Minima(prev), [bs[|bs| - 1].minval]);
    C.MinAppend(Maxima(prev), [bs[|bs| - 1].maxval]);
  }

  /** One pass of the `emin`/`emax` update in `loadBands`. */
  function RangeStep(e: C.Extrema, b: LoadedBand): C.Extrema
  {
    C.Extrema(if e.lo.None? || b.minval < e.lo.value then Some(b.minval) else e.lo,
              if e.hi.None? || b.maxval > e.hi.value then Some(b.maxval) else e.hi)
  }

  /** `(emin, emax)` after the loop of `loadBands` has seen `bs`. */
  function RunningRange(bs: seq<LoadedBand>): C.Extrema
  {
    if |bs| == 0 then C.Extrema(None, None) else RangeStep(RunningRange(bs[..|bs| - 1]), bs[|bs| - 1])
  }

  /** The cube's extrema after `getBandInPlace` has run for each of `bs`. */
  function CubeRange(e0: C.Extrema, bs: seq<LoadedBand>): C.Extrema
  {
    if |bs| == 0 then e0
    else
      var prev := CubeRange(e0, bs[..|bs| - 1]);
      var flat := C.Flatten(bs[|bs| - 1].raw);
      if |flat| == 0 then prev else C.Widened(prev, flat)
  }

  /** The recorded minimum and maximum are those of the band image. */
  predicate Ranged(b: LoadedBand)
  {
    |C.Flatten(b.raw)| > 0 && b.minval == Min(C.Flatten(b.raw)) && b.maxval == Max(C.Flatten(b.raw))
  }

  /** `b` is the entry `loadBands` appends for band `index`: the band image
      from `getBand`, with its minimum and maximum. */
  predicate IsBandEntry(layout: C.Interleave, lines: int, samples: int, bands: int, raw: seq<int>, index: int, b: LoadedBand)
  {
    C.Shaped(lines, samples, bands, raw) && 0 <= index < bands
    && b.index == index && b.raw == C.BandRaw(layout, lines, samples, bands, raw, index) && Ranged(b)
  }

  /** What `loadBands` needs of the cube and the displayed indexes. */
  predicate Loadable(lines: int, samples: int, bands: int, raw: seq<int>, indexes: seq<int>)
  {
    C.Shaped(lines, samples, bands, raw)
    && forall i :: 0 <= i < |indexes| ==> 0 <= indexes[i] < bands
  }

  /** `loadBands` gets through its loop: there is nothing to load, or the
      band images are not empty.  On an empty image the first `getBand`
      raises, from numpy's `min` inside `updateExtrema`. */
  predicate LoadSucceeds(lines: int, samples: int, indexes: seq<int>)
  {
    |indexes| == 0 || (lines > 0 && samples > 0)
  }

  /** `loaded` is `self.bands` after `loadBands`: one entry per displayed index, in order. */
  predicate LoadedFrom(layout: C.Interleave, lines: int, samples: int, bands: int, raw: seq<int>, indexes: seq<int>, loaded: seq<LoadedBand>)
  {
    |loaded| == |indexes|
    && forall k :: 0 <= k < |loaded| ==> IsBandEntry(layout, lines, samples, bands, raw, indexes[k], loaded[k])
  }

  /** One step of `loadBands`: `getBand(i)` and the image's minimum and
      maximum; `None` is the error `getBand` raises on an empty image,
      before anything is recorded. */
  method LoadOne(cube: C.Cube, index: int) returns (entry: Option<LoadedBand>)
    requires cube.IsShaped() && 0 <= index < cube.bands
    modifies cube`spectraExtrema
    ensures entry.Some? <==> cube.lines > 0 && cube.samples > 0
    ensures entry.Some? ==> IsBandEntry(cube.layout, cube.lines, cube.samples, cube.bands, cube.raw, index, entry.value)
    ensures entry.Some? ==> cube.spectraExtrema == C.Widened(old(cube.spectraExtrema), C.Flatten(entry.value.raw))
    ensures entry.None? ==> cube.spectraExtrema == old(cube.spectraExtrema)
  {
    var img := cube.GetBandInPlace(index);
    if img.None? {
      return None;
    }
    var raw := img.value;
    var flat := C.Flatten(raw);
    C.FlattenMember(raw, 0, 0);
    entry := Some(LoadedBand(index, raw, Min(flat), Max(flat)));
  }

  /** The loop of `loadBands`: every band image in turn, with the running
      minimum and maximum of the band ranges. */
  method LoadAll(cube: C.Cube, indexes: seq<int>) returns (ok: bool, loaded: seq<LoadedBand>, emin: Option<int>, emax: Option<int>)
    requires Loadable(cube.lines, cube.samples, cube.bands, cube.raw, indexes)
    modifies cube`spectraExtrema
    ensures ok <==> LoadSucceeds(cube.lines, cube.samples, indexes)
    ensures ok ==> LoadedFrom(cube.layout, cube.lines, cube.samples, cube.bands, cube.raw, indexes, loaded)
    ensures forall k :: 0 <= k < |loaded| ==> Ranged(loaded[k])
    ensures ok ==> C.Extrema(emin, emax) == RunningRange(loaded)
    ensures ok ==> cube.spectraExtrema == CubeRange(old(cube.spectraExtrema), loaded)
    ensures !ok ==> loaded == [] && cube.spectraExtrema == old(cube.spectraExtrema)
  {
    loaded := [];
    emin := None;
    emax := None;
    ghost var layout, lines, samples, bands, payload := cube.layout, cube.lines, cube.samples, cube.bands, cube.raw;
    var i := 0;
    while i < |indexes|
      invariant 0 <= i <= |indexes| && |loaded| == i
      invariant i > 0 ==> lines > 0 && samples > 0
      invariant forall k :: 0 <= k < i ==> IsBandEntry(layout, lines, samples, bands, payload, indexes[k], loaded[k])
      invariant C.Extrema(emin, emax) == RunningRange(loaded)
      invariant cube.spectraExtrema == CubeRange(old(cube.spectraExtrema), loaded)
    {
      var got := LoadOne(cube, indexes[i]);
      if got.None? {
        return false, [], emin, emax;
      }
      var entry := got.value;
      var next := loaded + [entry];
      assert next[..|next| - 1] == loaded && next[i] == entry;
      assert IsBandEntry(layout, lines, samples, bands, payload, indexes[i], entry);
      forall k | 0 <= k < i + 1
        ensures IsBandEntry(layout, lines, samples, bands, payload, indexes[k], next[k])
      {
        if k < i {
          assert next[k] == loaded[k];
        }
      }
      assert RunningRange(next) == RangeStep(C.Extrema(emin, emax), entry);
      assert CubeRange(old(cube.spectraExtrema), next) == C.Widened(CubeRange(old(cube.spectraExtrema), loaded), C.Flatten(entry.raw));
      if emin.None? || entry.minval < emin.value {
        emin := Some(entry.minval);
      }
      if emax.None? || entry.maxval > emax.value {
        emax := Some(entry.maxval);
      }
      loaded := next;
      i := i + 1;
    }
    ok := true;
  }

  /** The running range of `loadBands` is the smallest minimum and the
      largest maximum of the loaded bands. */
  lemma {:induction false} RunningRangeIsBandsRange(bs: seq<LoadedBand>)
    ensures RunningRange(bs) == BandsRange(bs)
  {
    if |bs| > 1 {
      RunningRangeIsBandsRange(bs[..|bs| - 1]);
      AppendRange(bs);
    }
  }

  /** After `loadBands` the cube's extrema are widened over every loaded pixel. */
  lemma {:induction false} CubeRangeIsWidened(bs: seq<LoadedBand>, e0: C.Extrema)
    requires forall k :: 0 <= k < |bs| ==> |C.Flatten(bs[k].raw)| > 0
    ensures |bs| > 0 ==> |AllPixels(bs)| > 0 && CubeRange(e0, bs) == C.Widened(e0, AllPixels(bs))
    ensures |bs| == 0 ==> CubeRange(e0, bs) == e0
  {
    if |bs| > 0 {
      var prev := bs[..|bs| - 1];
      var flat := C.Flatten(bs[|bs| - 1].raw);
      CubeRangeIsWidened(prev, e0);
      assert AllPixels(bs) == AllPixels(prev) + flat;
      if |prev| > 0 {
        C.WidenedTwice(e0, AllPixels(prev), flat);
      } else {
        assert AllPixels(prev) + flat == flat;
      }
    }
  }

  /** The two folds of `loadBands` in closed form. */
  lemma LoadedRanges(bs: seq<LoadedBand>, e0: C.Extrema)
    requires forall k :: 0 <= k < |bs| ==> Ranged(bs[k])
    ensures RunningRange(bs) == BandsRange(bs)
    ensures |bs| > 0 ==> |AllPixels(bs)| > 0 && CubeRange(e0, bs) == C.Widened(e0, AllPixels(bs))
    ensures |bs| == 0 ==> CubeRange(e0, bs) == e0
  {
    RunningRangeIsBandsRange(bs);
    CubeRangeIsWidened(bs, e0);
  }

  class CubeView {
    const kind: ViewKind
    const displayRgb: bool
    /** `mode.classprefs.band_number_offset`: how band numbers are shown to the user. */
    const bandNumberOffset: int
    var cube: C.Cube?
    var width: int
    var height: int
    var indexes: seq<int>
    /** `None` until `initDisplayIndexes` assigns `max_index`. */
    var maxIndex: Option<int>
    var bands: seq<LoadedBand>
    var extrema: C.Extrema

    /** The attributes before `setCube` runs; `NewView` performs the whole `__init__`. */
    constructor (kind: ViewKind, displayRgb: bool, bandNumberOffset: int)
      ensures this.kind == kind && this.displayRgb == displayRgb && this.bandNumberOffset == bandNumberOffset
      ensures cube == null && indexes == [] && maxIndex.None? && bands == []
      ensures extrema == C.Extrema(Some(0), Some(1))
    {
      this.kind := kind;
      this.displayRgb := displayRgb;
      this.bandNumberOffset := bandNumberOffset;
      cube := null;
      width := 128;
      height := 128;
      indexes := [];
      maxIndex := None;
      bands := [];
      extrema := C.Extrema(Some(0), Some(1));
    }

    /** The cube's metadata is good enough for `guessDisplayBands`. */
    predicate CubeReady(scale: string -> real)
      reads this, cube
    {
      cube != null ==>
        C.BandsIndexable(cube.wavelengths, cube.bbl, cube.bands)
        && (C.HasUnits(cube.wavelengthUnits) ==> scale(cube.wavelengthUnits.value) != 0.0)
    }

    /** `initDisplayIndexes`; `ok` is false for the `IndexError` that
        `guessDisplayBands` raises, in which case nothing is assigned. */
    method InitDisplayIndexes(scale: string -> real) returns (ok: bool)
      requires CubeReady(scale)
      modifies this`indexes, this`maxIndex
      ensures kind == ImageView && cube == null ==> ok && indexes == [0] && maxIndex == Some(0)
      ensures kind == ImageView && cube != null ==>
        var d := C.DisplayBands(cube.wavelengths, cube.bbl, cube.bands, cube.wavelengthUnits, scale);
        (ok <==> d.Some?)
        && (d.Some? ==> indexes == (if !displayRgb && |d.value| > 1 then [d.value[0]] else d.value))
        && (d.Some? ==> maxIndex == Some(cube.bands - 1))
      ensures kind == ImageView && ok ==> (|indexes| == 1 || |indexes| == 3) && (!displayRgb ==> |indexes| == 1)
      ensures kind == ImageView && ok && (cube == null || cube.bands > 0) ==> AllInRange(indexes, maxIndex)
      ensures kind == FocalPlaneView ==> ok && indexes == [0]
      ensures kind == FocalPlaneView ==> maxIndex == if cube != null then Some(cube.lines - 1) else old(maxIndex)
      ensures !ok ==> indexes == old(indexes) && maxIndex == old(maxIndex)
    {
      ok := true;
      if kind == ImageView {
        if cube != null {
          var d := cube.GuessDisplayBands(scale);
          if d.None? {
            return false;
          }
          C.DisplayBandsValid(cube.wavelengths, cube.bbl, cube.bands, cube.wavelengthUnits, scale);
          var ix := d.value;
          if !displayRgb && |ix| > 1 {
            ix := [ix[0]];
          }
          indexes := ix;
          maxIndex := Some(cube.bands - 1);
        } else {
          indexes := [0];
          maxIndex := Some(0);
        }
      } else {
        indexes := [0];
        if cube != null {
          maxIndex := Some(cube.lines - 1);
        }
      }
    }

    /** `setCube`: forget the loaded bands, size the bitmap and choose the
        display indexes; `ok` is false when `initDisplayIndexes` raises. */
    method SetCube(c: C.Cube?, scale: string -> real) returns (ok: bool)
      requires c != null ==>
        C.BandsIndexable(c.wavelengths, c.bbl, c.bands)
        && (C.HasUnits(c.wavelengthUnits) ==> scale(c.wavelengthUnits.value) != 0.0)
      modifies this
      ensures cube == c && bands == [] && extrema == C.Extrema(Some(0), Some(1))
      ensures c == null ==> width == 128 && height == 128
      ensures c != null && kind == ImageView ==> width == c.samples && height == c.lines
      ensures c != null && kind == FocalPlaneView ==>
        width == c.samples && height == if c.samples != 0 then c.bands else c.lines
      ensures kind == ImageView ==> (ok <==> c == null || C.DisplayBands(c.wavelengths, c.bbl, c.bands, c.wavelengthUnits, scale).Some?)
      ensures kind == ImageView && ok ==> (|indexes| == 1 || |indexes| == 3) && (!displayRgb ==> |indexes| == 1)
      ensures kind == ImageView && ok && c != null ==> maxIndex == Some(c.bands - 1)
      ensures kind == ImageView && ok && (c == null || c.bands > 0) ==> AllInRange(indexes, maxIndex)
      ensures kind == FocalPlaneView ==> ok && indexes == [0]
      ensures kind == FocalPlaneView ==> maxIndex == if c != null then Some(c.lines - 1) else old(maxIndex)
    {
      bands := [];
      extrema := C.Extrema(Some(0), Some(1));
      cube := c;
      // `initBitmap`: the focal-plane view passes (samples, bands), which
      // the base class only uses when the width is non-zero.
      if c == null {
        width, height := 128, 128;
      } else if kind == FocalPlaneView && c.samples != 0 {
        width, height := c.samples, c.bands;
      } else {
        width, height := c.samples, c.lines;
      }
      ok := InitDisplayIndexes(scale);
    }

    /** `setIndexes(newbands)`: all-or-nothing.  `None` stands for the
        exception the check loop raises: an `IndexError` when `newbands` is
        shorter than the displayed list, an `AttributeError` when `max_index`
        was never assigned. */
    method SetIndexes(newbands: seq<int>) returns (r: Option<bool>)
      modifies this`indexes
      ensures r == Some(true) <==> Accepts(|old(indexes)|, newbands, maxIndex)
      ensures r == Some(false) <==> exists i :: RejectsAt(|old(indexes)|, newbands, maxIndex, i)
      ensures r == Some(true) ==> indexes == newbands[..|old(indexes)|]
      ensures r != Some(true) ==> indexes == old(indexes)
      ensures r.None? ==> |newbands| < |old(indexes)| || maxIndex.None?
    {
      var n := |indexes|;
      var display := true;
      var i := 0;
      while i < n
        invariant 0 <= i <= n
        invariant 0 < i ==> i <= |newbands|
        invariant forall j :: 0 <= j < i ==> j < |newbands| && InRange(newbands[j], maxIndex)
      {
        if i >= |newbands| {
          return None;
        }
        if newbands[i] < 0 {
          assert RejectsAt(n, newbands, maxIndex, i);
          display := false;
          break;
        }
        if maxIndex.None? {
          return None;
        }
        if newbands[i] > maxIndex.value {
          assert RejectsAt(n, newbands, maxIndex, i);
          display := false;
          break;
        }
        i := i + 1;
      }
      if display {
        i := 0;
        while i < n
          invariant 0 <= i <= n <= |newbands| && |indexes| == n
          invariant forall k :: 0 <= k < i ==> indexes[k] == newbands[k]
          invariant forall k :: i <= k < n ==> indexes[k] == old(indexes)[k]
        {
          indexes := indexes[i := newbands[i]];
          i := i + 1;
        }
      }
      r := Some(display);
    }

    /** `nextIndex`: move every displayed index one band (or line) on. */
    method NextIndex() returns (r: Option<bool>)
      modifies this`indexes
      ensures r == Some(true) <==> AllInRange(Shifted(old(indexes), 1), maxIndex)
      ensures r == Some(true) ==> indexes == Shifted(old(indexes), 1)
      ensures r != Some(true) ==> indexes == old(indexes)
      ensures r.None? ==> maxIndex.None?
    {
      var newbands := ShiftAll(indexes, 1);
      r := SetIndexes(newbands);
      assert newbands[..|newbands|] == newbands;
    }

    /** `prevIndex`: move every displayed index one band (or line) back. */
    method PrevIndex() returns (r: Option<bool>)
      modifies this`indexes
      ensures r == Some(true) <==> AllInRange(Shifted(old(indexes), -1), maxIndex)
      ensures r == Some(true) ==> indexes == Shifted(old(indexes), -1)
      ensures r != Some(true) ==> indexes == old(indexes)
      ensures r.None? ==> maxIndex.None?
    {
      var newbands := ShiftAll(indexes, -1);
      r := SetIndexes(newbands);
      assert newbands[..|newbands|] == newbands;
    }

    /** `getIndex(band, user)`: a number the user typed counts from
        `band_number_offset`, the way `getBandLegend` shows it. */
    function GetIndex(band: int, user: bool): (r: int)
      ensures user ==> r + bandNumberOffset == band
      ensures !user ==> r == band
    {
      if user then band - bandNumberOffset else band
    }

    /** `gotoIndex(band, user)`: only a view with one displayed index can
        jump; with more, the one-element list makes `setIndexes` fail. */
    method GotoIndex(band: int, user: bool) returns (r: Option<bool>)
      modifies this`indexes
      ensures |old(indexes)| == 1 ==>
        (r == Some(true) <==> InRange(GetIndex(band, user), maxIndex))
        && (r == Some(true) ==> indexes == [GetIndex(band, user)])
      ensures |old(indexes)| > 1 ==> r != Some(true)
      ensures |old(indexes)| > 1 && Rejects(GetIndex(band, user), maxIndex) ==> r == Some(false)
      ensures r != Some(true) ==> indexes == old(indexes)
    {
      var target := GetIndex(band, user);
      r := SetIndexes([target]);
      if |old(indexes)| == 1 {
        assert [target][0] == target && [target][..1] == [target];
        if InRange(target, maxIndex) {
          assert Accepts(1, [target], maxIndex);
        }
      } else if |old(indexes)| > 1 && Rejects(target, maxIndex) {
        assert RejectsAt(|old(indexes)|, [target], maxIndex, 0);
      }
    }

    /** `getCoords(x, y)`: the cube location under display point (x, y). */
    function GetCoords(x: int, y: int): (r: C.Location)
      requires |indexes| > 0
      reads this
      ensures kind == ImageView ==> r.line == y && r.sample == x && r.band == indexes[0]
      ensures kind == FocalPlaneView ==> r.line == indexes[0] && r.sample == x && r.band == y
    {
      match kind
      case ImageView => C.Location(y, x, indexes[0])
      case FocalPlaneView => C.Location(indexes[0], x, y)
    }

    /** `self.bands` holds, in order, the image of every displayed band. */
    predicate Loaded()
      reads this, cube
    {
      cube != null && Loadable(cube.lines, cube.samples, cube.bands, cube.raw, indexes)
      && LoadedFrom(cube.layout, cube.lines, cube.samples, cube.bands, cube.raw, indexes, bands)
    }

    /** What `loadBands` needs: an image view (`FocalPlaneView.getBand` calls
        a cube method that does not exist), a shaped payload, and valid band
        numbers on display. */
    predicate CanLoad()
      reads this, cube
    {
      cube != null ==> kind == ImageView && Loadable(cube.lines, cube.samples, cube.bands, cube.raw, indexes)
    }

    /** `loadBands`: fetch every displayed band with `getBandInPlace`, which
        also widens the cube's running extrema, and record the range of the
        loaded bands.  `ok` is false for the error an empty image raises:
        `self.bands` has already been emptied, and neither range changes. */
    method LoadBands() returns (ok: bool)
      requires CanLoad()
      modifies this`bands, this`extrema, (if cube == null then {} else {cube})`spectraExtrema
      ensures ok <==> cube == null || LoadSucceeds(cube.lines, cube.samples, indexes)
      ensures cube == null ==> bands == old(bands) && extrema == old(extrema)
      ensures cube != null && ok ==> Loaded() && extrema == BandsRange(bands)
      ensures cube != null && ok && |indexes| > 0 ==> |AllPixels(bands)| > 0
      ensures cube != null && ok && |indexes| > 0 ==>
        cube.spectraExtrema == C.Widened(old(cube.spectraExtrema), AllPixels(bands))
      ensures cube != null && |indexes| == 0 ==> cube.spectraExtrema == old(cube.spectraExtrema)
      ensures !ok ==> bands == [] && extrema == old(extrema) && cube.spectraExtrema == old(cube.spectraExtrema)
    {
      ok := true;
      if cube != null {
        ok := LoadFrom(cube);
      }
    }

    /** The body of `loadBands` once a cube is set. */
    method LoadFrom(c: C.Cube) returns (ok: bool)
      requires c == cube && Loadable(c.lines, c.samples, c.bands, c.raw, indexes)
      modifies this`bands, this`extrema, c`spectraExtrema
      ensures ok <==> LoadSucceeds(c.lines, c.samples, indexes)
      ensures ok ==> Loaded() && extrema == BandsRange(bands)
      ensures ok && |indexes| > 0 ==> |AllPixels(bands)| > 0 && c.spectraExtrema == C.Widened(old(c.spectraExtrema), AllPixels(bands))
      ensures |indexes| == 0 ==> c.spectraExtrema == old(c.spectraExtrema)
      ensures !ok ==> bands == [] && extrema == old(extrema) && c.spectraExtrema == old(c.spectraExtrema)
    {
      ghost var e0 := c.spectraExtrema;
      var loaded, emin, emax;
      ok, loaded, emin, emax := LoadAll(c, indexes);
      if ok {
        LoadedRanges(loaded, e0);
        Keep(loaded, emin, emax);
      } else {
        bands := [];
      }
    }

    /** The end of a successful `loadBands`: the entries become `self.bands`
        and the running range `self.extrema`. */
    method Keep(loaded: seq<LoadedBand>, emin: Option<int>, emax: Option<int>)
      requires cube != null && Loadable(cube.lines, cube.samples, cube.bands, cube.raw, indexes)
      requires LoadedFrom(cube.layout, cube.lines, cube.samples, cube.bands, cube.raw, indexes, loaded)
      requires C.Extrema(emin, emax) == RunningRange(loaded) == BandsRange(loaded)
      modifies this`bands, this`extrema
      ensures bands == loaded && Loaded() && extrema == BandsRange(bands)
    {
      bands := loaded;
      extrema := C.Extrema(emin, emax);
    }

    /** The displayed indexes and the band numbers of the loaded bands
        disagree, or nothing is loaded: `show` calls `loadBands`. */
    predicate NeedsReload()
      reads this
    {
      bands == [] || IndexListDiffers(indexes, bands)
    }

    /** The band-loading part of `show`; `ok` is false when the reload
        raises on an empty image. */
    method Show() returns (ok: bool)
      requires CanLoad()
      modifies this`bands, this`extrema, (if cube == null then {} else {cube})`spectraExtrema
      ensures ok <==> cube == null || !old(NeedsReload()) || LoadSucceeds(cube.lines, cube.samples, indexes)
      ensures cube != null && old(NeedsReload()) && ok ==> Loaded() && extrema == BandsRange(bands)
      ensures cube != null && old(NeedsReload()) && ok && |indexes| > 0 ==>
        |AllPixels(bands)| > 0 && cube.spectraExtrema == C.Widened(old(cube.spectraExtrema), AllPixels(bands))
      ensures cube != null && old(NeedsReload()) && |indexes| == 0 ==> cube.spectraExtrema == old(cube.spectraExtrema)
      ensures !ok ==> bands == [] && extrema == old(extrema) && cube.spectraExtrema == old(cube.spectraExtrema)
      ensures cube == null || !old(NeedsReload()) ==>
        bands == old(bands) && extrema == old(extrema)
        && (cube != null ==> cube.spectraExtrema == old(cube.spectraExtrema))
    {
      ok := true;
      if cube == null {
        return;
      }
      var refresh := RefreshNeeded(indexes, bands);
      if refresh || bands == [] {
        ok := LoadBands();
      }
    }

    /** Once the displayed bands are loaded, a second `show` loads nothing. */
    lemma {:induction false} ShowSettles()
      requires Loaded() && |indexes| > 0
      ensures !NeedsReload()
    {
      assert forall i :: 0 <= i < |indexes| ==> bands[i].index == indexes[i];
    }

    /** `extrema` after `loadBands` bounds every pixel of every loaded band. */
    lemma {:induction false} LoadedRangeBoundsPixels(k: int, l: int, s: int)
      requires Loaded() && 0 <= k < |bands| && 0 <= l < |bands[k].raw| && 0 <= s < |bands[k].raw[l]|
      ensures BandsRange(bands).lo.Some? && BandsRange(bands).hi.Some?
      ensures BandsRange(bands).lo.value <= bands[k].raw[l][s] <= BandsRange(bands).hi.value
    {
      var b := bands[k];
      var flat := C.Flatten(b.raw);
      C.FlattenMember(b.raw, l, s);
      assert Min(Minima(bands)) <= Minima(bands)[k] == b.minval;
      assert Max(Maxima(bands)) >= Maxima(bands)[k] == b.maxval;
    }

    /** In the image view the point (x, y) of the first displayed band's
        loaded image is the cube's pixel at `getCoords(x, y)`. */
    lemma {:induction false} CoordsShowLoadedPixel(x: int, y: int)
      requires kind == ImageView && Loaded() && |indexes| > 0
      requires 0 <= y < cube.lines && 0 <= x < cube.samples
      ensures |bands| > 0 && |bands[0].raw| == cube.lines && |bands[0].raw[y]| == cube.samples
      ensures var loc := GetCoords(x, y);
        C.InCube(cube.lines, cube.samples, cube.bands, loc)
        && bands[0].raw[y][x] == C.GetPixel(cube.layout, cube.lines, cube.samples, cube.bands, cube.raw, loc)
    {
      assert IsBandEntry(cube.layout, cube.lines, cube.samples, cube.bands, cube.raw, indexes[0], bands[0]);
      C.BandRawPixel(cube.layout, cube.lines, cube.samples, cube.bands, cube.raw, indexes[0], y, x);
    }
  }

  /** A view as `__init__` leaves it: `null` when `setCube` raises. */
  method NewView(kind: ViewKind, c: C.Cube?, displayRgb: bool, bandNumberOffset: int, scale: string -> real)
    returns (v: CubeView?)
    requires c != null ==>
      C.BandsIndexable(c.wavelengths, c.bbl, c.bands)
      && (C.HasUnits(c.wavelengthUnits) ==> scale(c.wavelengthUnits.value) != 0.0)
    ensures v != null ==> fresh(v) && v.kind == kind && v.cube == c && v.bands == []
    ensures v != null ==> (|v.indexes| == 1 || |v.indexes| == 3) && (!displayRgb ==> |v.indexes| == 1)
    ensures v != null && (c == null || c.bands > 0) && kind == ImageView ==> AllInRange(v.indexes, v.maxIndex)
    ensures kind == FocalPlaneView ==> v != null && v.indexes == [0]
    ensures kind == ImageView ==> (v != null <==> c == null || C.DisplayBands(c.wavelengths, c.bbl, c.bands, c.wavelengthUnits, scale).Some?)
  {
    v := new CubeView(kind, displayRgb, bandNumberOffset);
    var ok := v.SetCube(c, scale);
    if !ok {
      v := null;
    }
  }
}
