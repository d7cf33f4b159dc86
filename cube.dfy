/** A hyperspectral datacube: a raster of lines x samples x bands held as one
    flat payload, in one of three interleaves (BIP, BIL, BSQ), together with
    the metadata the reader fills in, the running range of the values seen,
    and wavelength-driven band selection. */
module Cube {
  import opened Base
  import Strings

  // ---------------------------------------------------------------------
  // Layouts and addresses
  // ---------------------------------------------------------------------

  /** BIP stores (line, sample, band), BIL (line, band, sample) and BSQ
      (band, line, sample), the last index varying fastest. */
  datatype Interleave = BIP | BIL | BSQ

  datatype Location = Location(line: int, sample: int, band: int)

  lemma FloorDivMod(a: int, d: int)
    requires d != 0
    ensures a == d * FloorDiv(a, d) + FloorMod(a, d)
  {
    if d < 0 {
      var e, b := -d, -a;
      assert b == e * (b / e) + b % e;
    }
  }

  lemma MulAtLeast(a: int, d: int)
    requires a >= 1 && d > 0
    ensures a * d >= d
  {
    assert a * d == (a - 1) * d + d;
  }

  lemma DivModUnique(a: int, d: int, q: int, r: int)
    requires d > 0 && 0 <= r < d && a == q * d + r
    ensures a / d == q && a % d == r
  {
    var q0, r0 := a / d, a % d;
    assert (q0 - q) * d == r - r0;
    if q0 > q {
      MulAtLeast(q0 - q, d);
    } else if q0 < q {
      MulAtLeast(q - q0, d);
    }
  }

  /** The mixed-radix split the three `flatToLocation`s perform. */
  lemma {:induction false} Radix3Split(i: int, j: int, k: int, d2: int, d3: int)
    requires d2 > 0 && d3 > 0 && 0 <= j < d2 && 0 <= k < d3
    ensures d2 * d3 > 0
    ensures FloorDiv(i * (d2 * d3) + j * d3 + k, d2 * d3) == i
    ensures FloorMod(i * (d2 * d3) + j * d3 + k, d2 * d3) == j * d3 + k
    ensures FloorDiv(j * d3 + k, d3) == j && FloorMod(j * d3 + k, d3) == k
  {
    MulAtLeast(d2, d3);
    DivModUnique(j * d3 + k, d3, j, k);
    assert j * d3 + k < d2 * d3 by {
      assert j * d3 + k <= (d2 - 1) * d3 + (d3 - 1);
      assert (d2 - 1) * d3 == d2 * d3 - d3;
    }
    assert 0 <= j * d3 + k;
    DivModUnique(i * (d2 * d3) + j * d3 + k, d2 * d3, i, j * d3 + k);
  }

  /** Below `m` blocks of `n`, the block number is below `m`. */
  lemma DivBelow(x: int, n: int, m: int)
    requires n > 0 && 0 <= x < m * n
    ensures 0 <= x / n < m
  {
  }

  /** For a position inside the cube the three digits are in range. */
  lemma {:induction false} Radix3Range(pos: int, d1: int, d2: int, d3: int)
    requires d1 > 0 && d2 > 0 && d3 > 0 && 0 <= pos < d1 * (d2 * d3)
    ensures d2 * d3 > 0
    ensures 0 <= FloorDiv(pos, d2 * d3) < d1
    ensures 0 <= FloorMod(pos, d2 * d3) < d2 * d3
    ensures 0 <= FloorDiv(FloorMod(pos, d2 * d3), d3) < d2
    ensures 0 <= FloorMod(FloorMod(pos, d2 * d3), d3) < d3
  {
    MulAtLeast(d2, d3);
    var n := d2 * d3;
    DivBelow(pos, n, d1);
    DivBelow(pos % n, d3, d2);
  }

  /** Generic recombination: split then recombine gives the position back. */
  lemma Radix3Join(pos: int, d2: int, d3: int)
    requires d3 != 0 && d2 * d3 != 0
    ensures pos == FloorDiv(pos, d2 * d3) * (d2 * d3)
                   + FloorDiv(FloorMod(pos, d2 * d3), d3) * d3
                   + FloorMod(FloorMod(pos, d2 * d3), d3)
  {
    FloorDivMod(pos, d2 * d3);
    FloorDivMod(FloorMod(pos, d2 * d3), d3);
  }

  /** `locationToFlat` of each layout (cube.py BIPCube, BILCube, BSQCube). */
  function LocationToFlat(layout: Interleave, lines: int, samples: int, bands: int, loc: Location): int
  {
    match layout
    case BIP => loc.line * bands * samples + loc.sample * bands + loc.band
    case BIL => loc.line * bands * samples + loc.band * samples + loc.sample
    case BSQ => loc.band * lines * samples + loc.line * samples + loc.sample
  }

  /** `flatToLocation` of each layout; `None` where Python would divide by zero. */
  function FlatToLocation(layout: Interleave, lines: int, samples: int, bands: int, pos: int): Option<Location>
  {
    match layout
    case BIP =>
      if bands * samples == 0 then None
      else
        var temp := FloorMod(pos, bands * samples);
        Some(Location(FloorDiv(pos, bands * samples), FloorDiv(temp, bands), FloorMod(temp, bands)))
    case BIL =>
      if bands * samples == 0 then None
      else
        var temp := FloorMod(pos, bands * samples);
        Some(Location(FloorDiv(pos, bands * samples), FloorMod(temp, samples), FloorDiv(temp, samples)))
    case BSQ =>
      if lines * samples == 0 then None
      else
        var temp := FloorMod(pos, lines * samples);
        Some(Location(FloorDiv(temp, samples), FloorMod(temp, samples), FloorDiv(pos, lines * samples)))
  }

  predicate InCube(lines: int, samples: int, bands: int, loc: Location)
  {
    0 <= loc.line < lines && 0 <= loc.sample < samples && 0 <= loc.band < bands
  }

  lemma BipSplit(l: int, s: int, b: int, samples: int, bands: int)
    requires 0 <= s < samples && 0 <= b < bands
    ensures bands * samples != 0
    ensures var pos := l * bands * samples + s * bands + b;
            FloorDiv(pos, bands * samples) == l
            && FloorDiv(FloorMod(pos, bands * samples), bands) == s
            && FloorMod(FloorMod(pos, bands * samples), bands) == b
  {
    var n := bands * samples;
    assert n == samples * bands;
    assert l * bands * samples == l * n;
    Radix3Split(l, s, b, samples, bands);
  }

  lemma BilSplit(l: int, s: int, b: int, samples: int, bands: int)
    requires 0 <= s < samples && 0 <= b < bands
    ensures bands * samples != 0
    ensures var pos := l * bands * samples + b * samples + s;
            FloorDiv(pos, bands * samples) == l
            && FloorDiv(FloorMod(pos, bands * samples), samples) == b
            && FloorMod(FloorMod(pos, bands * samples), samples) == s
  {
    var n := bands * samples;
    assert l * bands * samples == l * n;
    Radix3Split(l, b, s, bands, samples);
  }

  lemma BsqSplit(l: int, s: int, b: int, lines: int, samples: int)
    requires 0 <= l < lines && 0 <= s < samples
    ensures lines * samples != 0
    ensures var pos := b * lines * samples + l * samples + s;
            FloorDiv(pos, lines * samples) == b
            && FloorDiv(FloorMod(pos, lines * samples), samples) == l
            && FloorMod(FloorMod(pos, lines * samples), samples) == s
  {
    var n := lines * samples;
    assert b * lines * samples == b * n;
    Radix3Split(b, l, s, lines, samples);
  }

  /** flatToLocation(locationToFlat(l, s, b)) == (l, s, b) inside the cube. */
  lemma {:induction false} FlatOfLocationInverts(layout: Interleave, lines: int, samples: int, bands: int, loc: Location)
    requires InCube(lines, samples, bands, loc)
    ensures FlatToLocation(layout, lines, samples, bands, LocationToFlat(layout, lines, samples, bands, loc)) == Some(loc)
  {
    match layout
    case BIP => BipSplit(loc.line, loc.sample, loc.band, samples, bands);
    case BIL => BilSplit(loc.line, loc.sample, loc.band, samples, bands);
    case BSQ => BsqSplit(loc.line, loc.sample, loc.band, lines, samples);
  }

  lemma BipJoin(pos: int, samples: int, bands: int)
    requires bands * samples != 0
    ensures var temp := FloorMod(pos, bands * samples);
            FloorDiv(pos, bands * samples) * bands * samples + FloorDiv(temp, bands) * bands + FloorMod(temp, bands) == pos
  {
    var n := bands * samples;
    assert n == samples * bands;
    Radix3Join(pos, samples, bands);
    var q := FloorDiv(pos, n);
    assert q * bands * samples == q * n;
  }

  lemma BilJoin(pos: int, samples: int, bands: int)
    requires bands * samples != 0
    ensures var temp := FloorMod(pos, bands * samples);
            FloorDiv(pos, bands * samples) * bands * samples + FloorDiv(temp, samples) * samples + FloorMod(temp, samples) == pos
  {
    var n := bands * samples;
    Radix3Join(pos, bands, samples);
    var q := FloorDiv(pos, n);
    assert q * bands * samples == q * n;
  }

  lemma BsqJoin(pos: int, lines: int, samples: int)
    requires lines * samples != 0
    ensures var temp := FloorMod(pos, lines * samples);
            FloorDiv(pos, lines * samples) * lines * samples + FloorDiv(temp, samples) * samples + FloorMod(temp, samples) == pos
  {
    var n := lines * samples;
    Radix3Join(pos, lines, samples);
    var q := FloorDiv(pos, n);
    assert q * lines * samples == q * n;
  }

  /** locationToFlat(flatToLocation(pos)) == pos whenever the split is defined. */
  lemma {:induction false} LocationOfFlatInverts(layout: Interleave, lines: int, samples: int, bands: int, pos: int)
    requires FlatToLocation(layout, lines, samples, bands, pos).Some?
    ensures LocationToFlat(layout, lines, samples, bands, FlatToLocation(layout, lines, samples, bands, pos).value) == pos
  {
    match layout
    case BIP => BipJoin(pos, samples, bands);
    case BIL => BilJoin(pos, samples, bands);
    case BSQ => BsqJoin(pos, lines, samples);
  }

  /** Every position of a non-empty cube's payload names a location inside the cube. */
  lemma {:induction false} FlatToLocationInCube(layout: Interleave, lines: int, samples: int, bands: int, pos: int)
    requires lines > 0 && samples > 0 && bands > 0 && 0 <= pos < lines * samples * bands
    ensures FlatToLocation(layout, lines, samples, bands, pos).Some?
    ensures InCube(lines, samples, bands, FlatToLocation(layout, lines, samples, bands, pos).value)
  {
    match layout
    case BIP =>
      assert lines * samples * bands == lines * (samples * bands);
      Radix3Range(pos, lines, samples, bands);
      assert bands * samples == samples * bands;
    case BIL =>
      assert lines * samples * bands == lines * (bands * samples);
      Radix3Range(pos, lines, bands, samples);
    case BSQ =>
      assert lines * samples * bands == bands * (lines * samples);
      Radix3Range(pos, bands, lines, samples);
  }

  /** `getBandBoundary`: how far apart two neighbouring bands of a pixel lie. */
  function BandBoundary(layout: Interleave, lines: int, samples: int, bands: int): int
  {
    match layout
    case BIP => 1
    case BIL => samples
    case BSQ => samples * lines
  }

  lemma {:induction false} BandBoundaryIsBandStep(layout: Interleave, lines: int, samples: int, bands: int, l: int, s: int, b: int)
    ensures LocationToFlat(layout, lines, samples, bands, Location(l, s, b + 1))
            - LocationToFlat(layout, lines, samples, bands, Location(l, s, b))
            == BandBoundary(layout, lines, samples, bands)
  {
    match layout
    case BIP =>
    case BIL =>
      assert (b + 1) * samples == b * samples + samples;
    case BSQ =>
      assert (b + 1) * lines * samples == b * lines * samples + lines * samples;
  }

  // ---------------------------------------------------------------------
  // The reshaped payload
  // ---------------------------------------------------------------------

  /** `shape()` reshapes the payload to (lines, samples, bands) for BIP,
      (lines, bands, samples) for BIL and (bands, lines, samples) for BSQ. */

  /** A payload that `numpy.reshape` accepts for the cube's dimensions. */
  predicate Shaped(lines: int, samples: int, bands: int, raw: seq<int>)
  {
    lines >= 0 && samples >= 0 && bands >= 0 && |raw| == lines * samples * bands
  }

  lemma {:induction false} RowMajorBound(i: int, j: int, k: int, d1: int, d2: int, d3: int)
    requires 0 <= i < d1 && 0 <= j < d2 && 0 <= k < d3
    ensures 0 <= (i * d2 + j) * d3 + k < d1 * d2 * d3
    ensures (i * d2 + j) * d3 + k == i * (d2 * d3) + j * d3 + k
  {
    assert 0 <= i * d2 + j < d1 * d2 by {
      MulAtLeast(d1 - i, d2);
      assert (d1 - i) * d2 == d1 * d2 - i * d2;
    }
    MulAtLeast(d1 * d2 - (i * d2 + j), d3);
    assert (d1 * d2 - (i * d2 + j)) * d3 == d1 * d2 * d3 - (i * d2 + j) * d3;
    assert (i * d2 + j) * d3 == i * d2 * d3 + j * d3;
  }

  /** `raw[i][j][k]` of the array reshaped to (d1, d2, d3), read row-major. */
  function At3(raw: seq<int>, d1: int, d2: int, d3: int, i: int, j: int, k: int): (r: int)
    requires |raw| == d1 * d2 * d3 && 0 <= i < d1 && 0 <= j < d2 && 0 <= k < d3
  {
    RowMajorBound(i, j, k, d1, d2, d3);
    raw[(i * d2 + j) * d3 + k]
  }

  lemma BipShapeIndex(l: int, s: int, b: int, lines: int, samples: int, bands: int)
    requires 0 <= l < lines && 0 <= s < samples && 0 <= b < bands
    ensures 0 <= (l * samples + s) * bands + b < lines * samples * bands
    ensures (l * samples + s) * bands + b == l * bands * samples + s * bands + b
  {
    RowMajorBound(l, s, b, lines, samples, bands);
    assert l * (samples * bands) == l * bands * samples;
  }

  lemma BilShapeIndex(l: int, s: int, b: int, lines: int, samples: int, bands: int)
    requires 0 <= l < lines && 0 <= s < samples && 0 <= b < bands
    ensures lines * bands * samples == lines * samples * bands
    ensures 0 <= (l * bands + b) * samples + s < lines * samples * bands
    ensures (l * bands + b) * samples + s == l * bands * samples + b * samples + s
  {
    RowMajorBound(l, b, s, lines, bands, samples);
    assert lines * bands * samples == lines * samples * bands;
    assert l * (bands * samples) == l * bands * samples;
  }

  lemma BsqShapeIndex(l: int, s: int, b: int, lines: int, samples: int, bands: int)
    requires 0 <= l < lines && 0 <= s < samples && 0 <= b < bands
    ensures bands * lines * samples == lines * samples * bands
    ensures 0 <= (b * lines + l) * samples + s < lines * samples * bands
    ensures (b * lines + l) * samples + s == b * lines * samples + l * samples + s
  {
    RowMajorBound(b, l, s, bands, lines, samples);
    assert bands * lines * samples == lines * samples * bands;
    assert b * (lines * samples) == b * lines * samples;
  }

  /** `getPixel(line, sample, band)` on the reshaped payload: the element at
      the location's flat address. */
  function GetPixel(layout: Interleave, lines: int, samples: int, bands: int, raw: seq<int>, loc: Location): (r: int)
    requires Shaped(lines, samples, bands, raw) && InCube(lines, samples, bands, loc)
    ensures 0 <= LocationToFlat(layout, lines, samples, bands, loc) < |raw|
    ensures r == raw[LocationToFlat(layout, lines, samples, bands, loc)]
  {
    match layout
    case BIP =>
      BipShapeIndex(loc.line, loc.sample, loc.band, lines, samples, bands);
      At3(raw, lines, samples, bands, loc.line, loc.sample, loc.band)
    case BIL =>
      BilShapeIndex(loc.line, loc.sample, loc.band, lines, samples, bands);
      At3(raw, lines, bands, samples, loc.line, loc.band, loc.sample)
    case BSQ =>
      BsqShapeIndex(loc.line, loc.sample, loc.band, lines, samples, bands);
      At3(raw, bands, lines, samples, loc.band, loc.line, loc.sample)
  }

  /** The example at the end of cube.py: a 4 x 5 x 3 BIP cube holding 0..59. */
  lemma ArangeExample(b: int)
    requires 0 <= b < 3
    ensures GetPixel(BIP, 4, 5, 3, seq(60, i => i), Location(0, 0, b)) == b
  {
  }

  /** On a payload holding 0, 1, 2, ... every pixel reads its own flat address. */
  lemma ArangePixel(layout: Interleave, lines: int, samples: int, bands: int, loc: Location)
    requires lines >= 0 && samples >= 0 && bands >= 0 && InCube(lines, samples, bands, loc)
    ensures GetPixel(layout, lines, samples, bands, seq(lines * samples * bands, i => i), loc)
            == LocationToFlat(layout, lines, samples, bands, loc)
  {
  }

  /** Line `l` of the image of one band (`raw[l,:,band]`, `raw[l,band,:]`, `raw[band,l,:]`). */
  function BandRow(layout: Interleave, lines: int, samples: int, bands: int, raw: seq<int>, band: int, l: int): (r: seq<int>)
    requires Shaped(lines, samples, bands, raw) && 0 <= band < bands && 0 <= l < lines
    ensures |r| == samples
    ensures forall s :: 0 <= s < samples ==> r[s] == GetPixel(layout, lines, samples, bands, raw, Location(l, s, band))
  {
    match layout
    case BIP =>
      seq(samples, s requires 0 <= s < samples => At3(raw, lines, samples, bands, l, s, band))
    case BIL =>
      assert lines * bands * samples == lines * samples * bands;
      seq(samples, s requires 0 <= s < samples => At3(raw, lines, bands, samples, l, band, s))
    case BSQ =>
      assert bands * lines * samples == lines * samples * bands;
      seq(samples, s requires 0 <= s < samples => At3(raw, bands, lines, samples, band, l, s))
  }

  /** The first `n` lines of the image of one band. */
  function BandRows(layout: Interleave, lines: int, samples: int, bands: int, raw: seq<int>, band: int, n: int): (r: seq<seq<int>>)
    requires Shaped(lines, samples, bands, raw) && 0 <= band < bands && 0 <= n <= lines
    ensures |r| == n
    ensures forall l :: 0 <= l < n ==> |r[l]| == samples
  {
    if n == 0 then []
    else BandRows(layout, lines, samples, bands, raw, band, n - 1) + [BandRow(layout, lines, samples, bands, raw, band, n - 1)]
  }

  /** `getBandRaw(band)`: the lines x samples image of one band, sliced out
      of the reshaped payload. */
  function BandRaw(layout: Interleave, lines: int, samples: int, bands: int, raw: seq<int>, band: int): (r: seq<seq<int>>)
    requires Shaped(lines, samples, bands, raw) && 0 <= band < bands
    ensures |r| == lines
    ensures forall l :: 0 <= l < lines ==> |r[l]| == samples
  {
    BandRows(layout, lines, samples, bands, raw, band, lines)
  }

  lemma {:induction false} BandRowsAt(layout: Interleave, lines: int, samples: int, bands: int, raw: seq<int>, band: int, n: int, l: int)
    requires Shaped(lines, samples, bands, raw) && 0 <= band < bands && 0 <= l < n <= lines
    ensures BandRows(layout, lines, samples, bands, raw, band, n)[l] == BandRow(layout, lines, samples, bands, raw, band, l)
  {
    if l < n - 1 {
      BandRowsAt(layout, lines, samples, bands, raw, band, n - 1, l);
    }
  }

  /** Pixel (l, s) of the band image is the cube's pixel at (l, s, band). */
  lemma BandRawPixel(layout: Interleave, lines: int, samples: int, bands: int, raw: seq<int>, band: int, l: int, s: int)
    requires Shaped(lines, samples, bands, raw) && 0 <= band < bands && 0 <= l < lines && 0 <= s < samples
    ensures BandRaw(layout, lines, samples, bands, raw, band)[l][s] == GetPixel(layout, lines, samples, bands, raw, Location(l, s, band))
  {
    BandRowsAt(layout, lines, samples, bands, raw, band, lines, l);
  }

  /** `getSpectraRaw(line, sample)`: the bands of one pixel, in band order
      (`raw[line,sample,:]`, `raw[line,:,sample]`, `raw[:,line,sample]`). */
  function SpectraRaw(layout: Interleave, lines: int, samples: int, bands: int, raw: seq<int>, line: int, sample: int): (r: seq<int>)
    requires Shaped(lines, samples, bands, raw) && 0 <= line < lines && 0 <= sample < samples
    ensures |r| == bands
    ensures forall b :: 0 <= b < bands ==> r[b] == GetPixel(layout, lines, samples, bands, raw, Location(line, sample, b))
  {
    match layout
    case BIP =>
      seq(bands, b requires 0 <= b < bands => At3(raw, lines, samples, bands, line, sample, b))
    case BIL =>
      assert lines * bands * samples == lines * samples * bands;
      seq(bands, b requires 0 <= b < bands => At3(raw, lines, bands, samples, line, b, sample))
    case BSQ =>
      assert bands * lines * samples == lines * samples * bands;
      seq(bands, b requires 0 <= b < bands => At3(raw, bands, lines, samples, b, line, sample))
  }

  /** `getLineOfSpectraCopy(line)`: samples x bands; BIP slices `raw[line,:,:]`,
      BIL and BSQ transpose `raw[line,:,:]` and `raw[:,line,:]`. */
  function LineOfSpectraRaw(layout: Interleave, lines: int, samples: int, bands: int, raw: seq<int>, line: int): (r: seq<seq<int>>)
    requires Shaped(lines, samples, bands, raw) && 0 <= line < lines
    ensures |r| == samples
    ensures forall s :: 0 <= s < samples ==> r[s] == SpectraRaw(layout, lines, samples, bands, raw, line, s)
  {
    match layout
    case BIP =>
      seq(samples, s requires 0 <= s < samples => seq(bands, b requires 0 <= b < bands =>
        At3(raw, lines, samples, bands, line, s, b)))
    case BIL =>
      assert lines * bands * samples == lines * samples * bands;
      Transpose(seq(bands, b requires 0 <= b < bands => seq(samples, s requires 0 <= s < samples =>
        At3(raw, lines, bands, samples, line, b, s))), samples)
    case BSQ =>
      assert bands * lines * samples == lines * samples * bands;
      Transpose(seq(bands, b requires 0 <= b < bands => seq(samples, s requires 0 <= s < samples =>
        At3(raw, bands, lines, samples, b, line, s))), samples)
  }

  /** `numpy.transpose` of a rows x width array. */
  function Transpose(m: seq<seq<int>>, width: nat): (r: seq<seq<int>>)
    requires forall i :: 0 <= i < |m| ==> |m[i]| == width
    ensures |r| == width
    ensures forall j :: 0 <= j < width ==> |r[j]| == |m|
    ensures forall j, i :: 0 <= j < width && 0 <= i < |m| ==> r[j][i] == m[i][j]
  {
    seq(width, j requires 0 <= j < width => seq(|m|, i requires 0 <= i < |m| => m[i][j]))
  }

  /** Within a BSQ payload a band is one contiguous block of lines*samples values. */
  lemma {:induction false} BsqBandIsContiguous(lines: int, samples: int, bands: int, raw: seq<int>, band: int, l: int, s: int)
    requires Shaped(lines, samples, bands, raw) && 0 <= band < bands && 0 <= l < lines && 0 <= s < samples
    ensures 0 <= band * (lines * samples) + l * samples + s < |raw|
    ensures band * (lines * samples) <= band * (lines * samples) + l * samples + s < (band + 1) * (lines * samples)
    ensures BandRaw(BSQ, lines, samples, bands, raw, band)[l][s] == raw[band * (lines * samples) + l * samples + s]
  {
    BandRawPixel(BSQ, lines, samples, bands, raw, band, l, s);
    BandBlockOffset(band, l, s, lines, samples);
  }

  lemma BandBlockOffset(band: int, l: int, s: int, lines: int, samples: int)
    requires 0 <= band && 0 <= l < lines && 0 <= s < samples
    ensures band * lines * samples == band * (lines * samples)
    ensures band * (lines * samples) <= band * (lines * samples) + l * samples + s < (band + 1) * (lines * samples)
  {
    var n := lines * samples;
    assert 0 <= l * samples + s < n by {
      RowMajorBound(l, s, 0, lines, samples, 1);
    }
    assert (band + 1) * n == band * n + n;
  }

  // ---------------------------------------------------------------------
  // Extrema
  // ---------------------------------------------------------------------

  /** `spectraextrema`: the smallest and largest value seen, `None` until set. */
  datatype Extrema = Extrema(lo: Option<int>, hi: Option<int>)

  /** The recorded range after `updateExtrema(data)`. */
  function Widened(e: Extrema, data: seq<int>): (r: Extrema)
    requires |data| > 0
    ensures r.lo.Some? && r.hi.Some?
  {
    var mn := Min(data);
    var mx := Max(data);
    Extrema(if e.lo.None? || mn < e.lo.value then Some(mn) else e.lo,
            if e.hi.None? || mx > e.hi.value then Some(mx) else e.hi)
  }

  /** The widened range keeps the old bounds, bounds every new value and
      takes each end either from the data or from the old range. */
  lemma WidenedBounds(e: Extrema, data: seq<int>)
    requires |data| > 0
    ensures var r := Widened(e, data);
      && (e.lo.Some? ==> r.lo.value <= e.lo.value)
      && (e.hi.Some? ==> r.hi.value >= e.hi.value)
      && (e.lo.None? ==> r.lo.value == Min(data))
      && (e.hi.None? ==> r.hi.value == Max(data))
      && (forall i :: 0 <= i < |data| ==> r.lo.value <= data[i] <= r.hi.value)
      && (r.lo.value in data || r.lo == e.lo)
      && (r.hi.value in data || r.hi == e.hi)
  {
  }

  lemma {:induction false} MinAppend(a: seq<int>, b: seq<int>)
    requires |a| > 0 && |b| > 0
    ensures Min(a + b) == if Min(a) <= Min(b) then Min(a) else Min(b)
    ensures Max(a + b) == if Max(a) >= Max(b) then Max(a) else Max(b)
  {
    var m := Min(a + b);
    assert forall i :: 0 <= i < |a| ==> a[i] == (a + b)[i];
    assert forall i :: 0 <= i < |b| ==> b[i] == (a + b)[|a| + i];
    var x := Max(a + b);
  }

  /** Reading two pieces one after the other records the same range as
      reading them together: the running extrema are the extrema of all data seen. */
  lemma {:induction false} WidenedTwice(e: Extrema, a: seq<int>, b: seq<int>)
    requires |a| > 0 && |b| > 0
    ensures Widened(Widened(e, a), b) == Widened(e, a + b)
  {
    MinAppend(a, b);
  }

  /** Row-by-row concatenation of a two-dimensional array (numpy's `min()` of
      an array looks at every element). */
  function Flatten(rows: seq<seq<int>>): seq<int>
  {
    if |rows| == 0 then [] else rows[0] + Flatten(rows[1..])
  }

  /** The flattened array is empty exactly when every row is. */
  lemma {:induction false} FlattenEmpty(rows: seq<seq<int>>)
    ensures |Flatten(rows)| == 0 <==> forall i :: 0 <= i < |rows| ==> |rows[i]| == 0
  {
    if |rows| > 0 {
      FlattenEmpty(rows[1..]);
      assert forall i :: 1 <= i < |rows| ==> rows[i] == rows[1..][i - 1];
    }
  }

  lemma {:induction false} FlattenMember(rows: seq<seq<int>>, i: int, j: int)
    requires 0 <= i < |rows| && 0 <= j < |rows[i]|
    ensures rows[i][j] in Flatten(rows)
  {
    if i > 0 {
      FlattenMember(rows[1..], i - 1, j);
    }
  }

  /** `spectra *= self.bbl`: each band multiplied by its bad-band flag. */
  function MaskBands(spectra: seq<int>, bbl: seq<int>): (r: seq<int>)
    requires |spectra| == |bbl|
    ensures |r| == |spectra|
  {
    seq(|spectra|, i requires 0 <= i < |spectra| => spectra[i] * bbl[i])
  }

  lemma MaskBandsKeepsGoodZeroesBad(spectra: seq<int>, bbl: seq<int>, b: int)
    requires |spectra| == |bbl| && 0 <= b < |bbl|
    ensures bbl[b] == 1 ==> MaskBands(spectra, bbl)[b] == spectra[b]
    ensures bbl[b] == 0 ==> MaskBands(spectra, bbl)[b] == 0
  {
  }

  /** The payload after `spectra *= self.bbl` has run on the transposed view
      that BIL and BSQ return for one line: every value of that line
      multiplied by its band's flag, every other value as it was. */
  function MaskedLine(layout: Interleave, lines: int, samples: int, bands: int, raw: seq<int>, line: int, bbl: seq<int>): (r: seq<int>)
    requires Shaped(lines, samples, bands, raw) && 0 <= line < lines && |bbl| == bands
    ensures |r| == |raw|
  {
    seq(|raw|, p requires 0 <= p < |raw| =>
      match FlatToLocation(layout, lines, samples, bands, p)
      case Some(loc) => if loc.line == line && 0 <= loc.band < bands then raw[p] * bbl[loc.band] else raw[p]
      case None => raw[p])
  }

  /** Read back through `getPixel`, the write-back touches exactly the
      pixels of the masked line, each multiplied by its band's flag. */
  lemma MaskedLinePixel(layout: Interleave, lines: int, samples: int, bands: int, raw: seq<int>, line: int, bbl: seq<int>, loc: Location)
    requires Shaped(lines, samples, bands, raw) && 0 <= line < lines && |bbl| == bands
    requires InCube(lines, samples, bands, loc)
    ensures Shaped(lines, samples, bands, MaskedLine(layout, lines, samples, bands, raw, line, bbl))
    ensures GetPixel(layout, lines, samples, bands, MaskedLine(layout, lines, samples, bands, raw, line, bbl), loc)
            == if loc.line == line then GetPixel(layout, lines, samples, bands, raw, loc) * bbl[loc.band]
               else GetPixel(layout, lines, samples, bands, raw, loc)
  {
    FlatOfLocationInverts(layout, lines, samples, bands, loc);
  }

  /** The spectra of one line with the bad bands zeroed, one per sample. */
  function MaskedSpectra(layout: Interleave, lines: int, samples: int, bands: int, raw: seq<int>, line: int, bbl: seq<int>): (r: seq<seq<int>>)
    requires Shaped(lines, samples, bands, raw) && 0 <= line < lines && |bbl| == bands
    ensures |r| == samples
    ensures forall s :: 0 <= s < samples ==> r[s] == MaskBands(SpectraRaw(layout, lines, samples, bands, raw, line, s), bbl)
  {
    var rows := LineOfSpectraRaw(layout, lines, samples, bands, raw, line);
    seq(samples, s requires 0 <= s < samples => MaskBands(rows[s], bbl))
  }

  /** After the write-back, the line read from the payload is the masked line. */
  lemma MaskedLineSpectra(layout: Interleave, lines: int, samples: int, bands: int, raw: seq<int>, line: int, bbl: seq<int>)
    requires Shaped(lines, samples, bands, raw) && 0 <= line < lines && |bbl| == bands
    ensures Shaped(lines, samples, bands, MaskedLine(layout, lines, samples, bands, raw, line, bbl))
    ensures forall s :: 0 <= s < samples ==>
              SpectraRaw(layout, lines, samples, bands, MaskedLine(layout, lines, samples, bands, raw, line, bbl), line, s)
              == MaskBands(SpectraRaw(layout, lines, samples, bands, raw, line, s), bbl)
  {
    var after := MaskedLine(layout, lines, samples, bands, raw, line, bbl);
    forall s | 0 <= s < samples
      ensures SpectraRaw(layout, lines, samples, bands, after, line, s)
              == MaskBands(SpectraRaw(layout, lines, samples, bands, raw, line, s), bbl)
    {
      forall b | 0 <= b < bands
        ensures SpectraRaw(layout, lines, samples, bands, after, line, s)[b]
                == MaskBands(SpectraRaw(layout, lines, samples, bands, raw, line, s), bbl)[b]
      {
        MaskedLinePixel(layout, lines, samples, bands, raw, line, bbl, Location(line, s, b));
      }
    }
  }

  /** A 1 x 2 x 2 BIL cube holding 5, 6, 7, 8 whose second band is bad:
      reading its line zeroes that band in the payload itself. */
  lemma MaskedLineExample()
    ensures MaskedLine(BIL, 1, 2, 2, [5, 6, 7, 8], 0, [1, 0]) == [5, 6, 0, 0]
  {
    var r := MaskedLine(BIL, 1, 2, 2, [5, 6, 7, 8], 0, [1, 0]);
    assert FlatToLocation(BIL, 1, 2, 2, 2) == Some(Location(0, 0, 1));
    assert FlatToLocation(BIL, 1, 2, 2, 3) == Some(Location(0, 1, 1));
  }

  // ---------------------------------------------------------------------
  // Metadata defaults
  // ---------------------------------------------------------------------

  /** The numpy element types a cube may hold. */
  datatype DataType = Int8 | UInt8 | Int16 | UInt16 | Int32 | UInt32 | Int64 | UInt64 | Float32 | Float64

  /** numpy's `itemsize` of each type, in bytes. */
  function ItemSize(t: DataType): nat
  {
    match t
    case Int8 => 1
    case UInt8 => 1
    case Int16 => 2
    case UInt16 => 2
    case Int32 => 4
    case UInt32 => 4
    case Float32 => 4
    case Int64 => 8
    case UInt64 => 8
    case Float64 => 8
  }

  /** `guessScaleFactor`: 10000.0 for the listed integer types, 1.0 for
      every other type (unsigned bytes included) and for an unknown type. */
  function GuessScaleFactor(t: Option<DataType>): (r: real)
    ensures r == 10000.0 <==> t.Some? && t.value in {Int8, Int16, Int32, UInt16, UInt32, Int64, UInt64}
    ensures r == 1.0 || r == 10000.0
  {
    if t.Some? && t.value in {Int8, Int16, Int32, UInt16, UInt32, Int64, UInt64} then 10000.0 else 1.0
  }

  lemma ScaleFactorOfBytesAndFloats()
    ensures GuessScaleFactor(Some(UInt8)) == 1.0
    ensures GuessScaleFactor(Some(Float32)) == 1.0 && GuessScaleFactor(Some(Float64)) == 1.0
    ensures GuessScaleFactor(None) == 1.0
  {
  }

  /** `guessWavelengthUnits`: micrometres when the last wavelength is below
      100, nanometres otherwise. */
  function GuessWavelengthUnits(wavelengths: seq<real>): (r: string)
    requires |wavelengths| > 0
    ensures r == "um" <==> wavelengths[|wavelengths| - 1] < 100.0
    ensures r == "um" || r == "nm"
  {
    if wavelengths[|wavelengths| - 1] < 100.0 then "um" else "nm"
  }

  /** Only the last wavelength decides: a list whose largest entry is in the
      hundreds but ends below 100 is read as micrometres. */
  lemma UnitsFollowLastWavelength()
    ensures GuessWavelengthUnits([450.0, 50.0]) == "um"
  {
  }

  /** Python truthiness of the units attribute: `None` and `''` are unset. */
  predicate HasUnits(u: Option<string>) { u.Some? && u.value != "" }

  /** `normalizeUnits(val, units)`: a value in `units` expressed in the cube's
      units; unchanged when the cube has none.  `scale` stands for the
      units-to-scale table, which is not part of this model. */
  function NormalizeUnits(val: real, units: string, cubeUnits: Option<string>, scale: string -> real): (r: real)
    requires HasUnits(cubeUnits) ==> scale(cubeUnits.value) != 0.0
    ensures !HasUnits(cubeUnits) ==> r == val
    ensures HasUnits(cubeUnits) ==> r * scale(cubeUnits.value) == val * scale(units)
  {
    if !HasUnits(cubeUnits) then val else val * scale(units) / scale(cubeUnits.value)
  }

  lemma NormalizeSameUnits(val: real, units: string, scale: string -> real)
    requires scale(units) != 0.0
    ensures NormalizeUnits(val, units, Some(units), scale) == val
  {
  }

  /** `[1]*n`: every band usable. */
  function Ones(n: int): (r: seq<int>)
    ensures |r| == if n < 0 then 0 else n
    ensures forall i :: 0 <= i < |r| ==> r[i] == 1
  {
    if n <= 0 then [] else Ones(n - 1) + [1]
  }

  /** `numpy.zeros(n)`: the payload of a freshly created cube. */
  function Zeros(n: int): (r: seq<int>)
    ensures |r| == if n < 0 then 0 else n
    ensures forall i :: 0 <= i < |r| ==> r[i] == 0
  {
    if n <= 0 then [] else Zeros(n - 1) + [0]
  }

  // ---------------------------------------------------------------------
  // Band selection by wavelength
  // ---------------------------------------------------------------------

  predicate UsableIn(wl: seq<real>, bbl: seq<int>, lo: real, hi: real, c: int)
    requires 0 <= c < |wl| && c < |bbl|
  {
    bbl[c] == 1 && wl[c] >= lo && wl[c] <= hi
  }

  /** The usable channels below `n` whose wavelength lies in [lo, hi], ascending. */
  function UsableInRange(wl: seq<real>, bbl: seq<int>, lo: real, hi: real, n: int): (r: seq<int>)
    requires 0 <= n <= |wl| && n <= |bbl|
    ensures forall c :: c in r <==> 0 <= c < n && UsableIn(wl, bbl, lo, hi, c)
    ensures forall i, j :: 0 <= i < j < |r| ==> r[i] < r[j]
    ensures forall i :: 0 <= i < |r| ==> 0 <= r[i] < n
    ensures r == [] <==> forall c :: 0 <= c < n ==> !UsableIn(wl, bbl, lo, hi, c)
  {
    if n == 0 then []
    else
      var prev := UsableInRange(wl, bbl, lo, hi, n - 1);
      if UsableIn(wl, bbl, lo, hi, n - 1) then prev + [n - 1] else prev
  }

  /** The first channel in [i, n) whose bad-band flag is 1. */
  function FirstUsable(bbl: seq<int>, i: int, n: int): (r: Option<int>)
    requires 0 <= i && n <= |bbl|
    ensures r.Some? ==> i <= r.value < n && bbl[r.value] == 1 && forall j :: i <= j < r.value ==> bbl[j] != 1
    ensures r.None? ==> forall j :: i <= j < n ==> bbl[j] != 1
    decreases n - i
  {
    if i >= n then None
    else if bbl[i] == 1 then Some(i)
    else FirstUsable(bbl, i + 1, n)
  }

  /** The last channel in [0, i] whose bad-band flag is 1. */
  function LastUsable(bbl: seq<int>, i: int): (r: Option<int>)
    requires i < |bbl|
    ensures r.Some? ==> 0 <= r.value <= i && bbl[r.value] == 1 && forall j :: r.value < j <= i ==> bbl[j] != 1
    ensures r.None? ==> forall j :: 0 <= j <= i ==> bbl[j] != 1
    decreases i + 1
  {
    if i < 0 then None
    else if bbl[i] == 1 then Some(i)
    else LastUsable(bbl, i - 1)
  }

  predicate Brackets(wl: seq<real>, bbl: seq<int>, center: real, c: int)
    requires 0 <= c && c + 1 < |wl| && c < |bbl|
  {
    bbl[c] == 1 && wl[c] < center && wl[c + 1] > center
  }

  /** The first channel c in [i, n-1) that is usable and has center strictly
      between its wavelength and the next one. */
  function Bracket(wl: seq<real>, bbl: seq<int>, center: real, i: int, n: int): (r: Option<int>)
    requires 0 <= i && n <= |wl| && n <= |bbl|
    ensures r.Some? ==> i <= r.value < n - 1 && Brackets(wl, bbl, center, r.value)
    ensures r.Some? ==> forall j :: i <= j < r.value ==> !Brackets(wl, bbl, center, j)
    ensures r.None? ==> forall j :: i <= j < n - 1 ==> !Brackets(wl, bbl, center, j)
    decreases n - i
  {
    if i >= n - 1 then None
    else if Brackets(wl, bbl, center, i) then Some(i)
    else Bracket(wl, bbl, center, i + 1, n)
  }

  function AsList(o: Option<int>): (r: seq<int>)
    ensures |r| <= 1
    ensures o.Some? ==> r == [o.value]
    ensures o.None? ==> r == []
  {
    if o.Some? then [o.value] else []
  }

  /** The band metadata `getBandListByWavelength` can read without an
      `IndexError`: no wavelengths at all, or at most one per listed band
      with a flag for each. */
  predicate BandsIndexable(wl: seq<real>, bbl: seq<int>, bands: int)
  {
    |wl| == 0 || (0 <= bands <= |wl| && bands <= |bbl|)
  }

  /** What `getBandListByWavelength` returns for an already normalized range. */
  function BandList(wl: seq<real>, bbl: seq<int>, bands: int, lo: real, hi: real): seq<int>
    requires BandsIndexable(wl, bbl, bands)
  {
    if |wl| == 0 then []
    else
      var inRange := UsableInRange(wl, bbl, lo, hi, bands);
      if inRange != [] then inRange else Nearest(wl, bbl, bands, (hi + lo) / 2.0)
  }

  /** The fallback when no usable band lies in the range: the first usable
      band below the first wavelength, the last usable band above the last
      one, and otherwise the closer of the first bracketing pair whose lower
      band is usable (the higher one on a tie). */
  function Nearest(wl: seq<real>, bbl: seq<int>, bands: int, center: real): seq<int>
    requires |wl| > 0 && BandsIndexable(wl, bbl, bands)
  {
    if center < wl[0] then AsList(FirstUsable(bbl, 0, bands))
    else if center > wl[if bands > 0 then bands - 1 else |wl| - 1] then AsList(LastUsable(bbl, bands - 1))
    else match Bracket(wl, bbl, center, 0, bands)
      case None => []
      case Some(c) => if center - wl[c] < wl[c + 1] - center then [c] else [c + 1]
  }

  /** Without wavelengths nothing is selected. */
  lemma BandListWithoutWavelengths(bbl: seq<int>, bands: int, lo: real, hi: real)
    ensures BandList([], bbl, bands, lo, hi) == []
  {
  }

  /** When usable bands fall in the range, the result is exactly those bands, ascending. */
  lemma BandListInRange(wl: seq<real>, bbl: seq<int>, bands: int, lo: real, hi: real, c: int)
    requires BandsIndexable(wl, bbl, bands) && |wl| > 0
    requires 0 <= c < bands && UsableIn(wl, bbl, lo, hi, c)
    ensures var r := BandList(wl, bbl, bands, lo, hi);
            (forall x :: x in r <==> 0 <= x < bands && UsableIn(wl, bbl, lo, hi, x))
            && (forall i, j :: 0 <= i < j < |r| ==> r[i] < r[j])
  {
    assert c in UsableInRange(wl, bbl, lo, hi, bands);
  }

  /** Otherwise at most one band comes back: the nearest usable one. */
  lemma BandListFallback(wl: seq<real>, bbl: seq<int>, bands: int, lo: real, hi: real)
    requires BandsIndexable(wl, bbl, bands) && |wl| > 0
    requires forall c :: 0 <= c < bands ==> !UsableIn(wl, bbl, lo, hi, c)
    ensures var r := BandList(wl, bbl, bands, lo, hi);
            var center := (hi + lo) / 2.0;
            |r| <= 1
            && (center < wl[0] ==> r == AsList(FirstUsable(bbl, 0, bands)))
            && (forall i :: 0 <= i < |r| ==> 0 <= r[i] < bands)
  {
  }

  /** A query exactly half-way between two bracketing bands picks the higher one. */
  lemma BandListTieGoesHigher(wl: seq<real>, bbl: seq<int>, bands: int, lo: real, hi: real, c: int)
    requires BandsIndexable(wl, bbl, bands) && |wl| > 0 && bands > 0
    requires forall x :: 0 <= x < bands ==> !UsableIn(wl, bbl, lo, hi, x)
    requires wl[0] <= (hi + lo) / 2.0 <= wl[bands - 1]
    requires Bracket(wl, bbl, (hi + lo) / 2.0, 0, bands) == Some(c)
    requires (hi + lo) / 2.0 - wl[c] == wl[c + 1] - (hi + lo) / 2.0
    ensures BandList(wl, bbl, bands, lo, hi) == [c + 1]
  {
  }

  /** Bands at 450, 550 and 650 nm queried at 500 nm give band 1, not band 0. */
  lemma BandListExample()
    ensures BandList([450.0, 550.0, 650.0], [1, 1, 1], 3, 500.0, 500.0) == [1]
  {
    var wl, bbl := [450.0, 550.0, 650.0], [1, 1, 1];
    assert !UsableIn(wl, bbl, 500.0, 500.0, 0) && !UsableIn(wl, bbl, 500.0, 500.0, 1) && !UsableIn(wl, bbl, 500.0, 500.0, 2);
    assert UsableInRange(wl, bbl, 500.0, 500.0, 3) == [];
    assert Brackets(wl, bbl, 500.0, 0);
    assert Bracket(wl, bbl, 500.0, 0, 3) == Some(0);
  }

  /** Only the lower bracketing band's flag is consulted: the upper one may be bad. */
  lemma BandListUpperBracketUnchecked()
    ensures BandList([400.0, 500.0], [1, 0], 2, 490.0, 490.0) == [1]
  {
    var wl, bbl := [400.0, 500.0], [1, 0];
    assert !UsableIn(wl, bbl, 490.0, 490.0, 0) && !UsableIn(wl, bbl, 490.0, 490.0, 1);
    assert UsableInRange(wl, bbl, 490.0, 490.0, 2) == [];
    assert Bracket(wl, bbl, 490.0, 0, 2) == Some(0);
  }

  /** Every band `getBandListByWavelength` returns is a valid band index. */
  lemma {:induction false} BandListBounded(wl: seq<real>, bbl: seq<int>, bands: int, lo: real, hi: real)
    requires BandsIndexable(wl, bbl, bands)
    ensures forall i :: 0 <= i < |BandList(wl, bbl, bands, lo, hi)| ==> 0 <= BandList(wl, bbl, bands, lo, hi)[i] < bands
  {
  }

  /** The bands `getBandListByWavelength` selects for one wavelength in nm. */
  function SelectNear(wl: seq<real>, bbl: seq<int>, bands: int, cubeUnits: Option<string>, scale: string -> real, target: real): seq<int>
    requires BandsIndexable(wl, bbl, bands)
    requires HasUnits(cubeUnits) ==> scale(cubeUnits.value) != 0.0
  {
    var w := NormalizeUnits(target, "nm", cubeUnits, scale);
    BandList(wl, bbl, bands, w, w)
  }

  /** What `guessDisplayBands` returns: the first bands selected for 660, 550
      and 440 nm (a single band when the three coincide), band 0 without
      enough metadata, and `None` for the `IndexError` of an empty selection. */
  function DisplayBands(wl: seq<real>, bbl: seq<int>, bands: int, cubeUnits: Option<string>, scale: string -> real): Option<seq<int>>
    requires BandsIndexable(wl, bbl, bands)
    requires HasUnits(cubeUnits) ==> scale(cubeUnits.value) != 0.0
  {
    if bands >= 3 && |wl| > 0 then
      var red := SelectNear(wl, bbl, bands, cubeUnits, scale, 660.0);
      var green := SelectNear(wl, bbl, bands, cubeUnits, scale, 550.0);
      var blue := SelectNear(wl, bbl, bands, cubeUnits, scale, 440.0);
      if |red| == 0 || |green| == 0 || |blue| == 0 then None
      else if red[0] == green[0] && green[0] == blue[0] then Some([red[0]])
      else Some([red[0], green[0], blue[0]])
    else Some([0])
  }

  /** The display bands are one or three valid band indexes, never three equal ones. */
  lemma {:induction false} DisplayBandsValid(wl: seq<real>, bbl: seq<int>, bands: int, cubeUnits: Option<string>, scale: string -> real)
    requires BandsIndexable(wl, bbl, bands)
    requires HasUnits(cubeUnits) ==> scale(cubeUnits.value) != 0.0
    ensures var r := DisplayBands(wl, bbl, bands, cubeUnits, scale);
            (bands < 3 || |wl| == 0 ==> r == Some([0]))
            && (r.Some? ==> |r.value| == 1 || |r.value| == 3)
            && (r.Some? && |r.value| == 3 ==> !(r.value[0] == r.value[1] == r.value[2]))
            && (r.Some? && bands >= 3 ==> forall i :: 0 <= i < |r.value| ==> 0 <= r.value[i] < bands)
  {
    if bands >= 3 && |wl| > 0 {
      var w1 := NormalizeUnits(660.0, "nm", cubeUnits, scale);
      var w2 := NormalizeUnits(550.0, "nm", cubeUnits, scale);
      var w3 := NormalizeUnits(440.0, "nm", cubeUnits, scale);
      BandListBounded(wl, bbl, bands, w1, w1);
      BandListBounded(wl, bbl, bands, w2, w2);
      BandListBounded(wl, bbl, bands, w3, w3);
    }
  }

  /** `getBadBandList(other)`: flag 1 exactly where both masks are non-zero. */
  function AndMasks(a: seq<int>, b: seq<int>, n: int): (r: seq<int>)
    requires n <= |a| && n <= |b|
    ensures |r| == if n < 0 then 0 else n
    ensures forall i :: 0 <= i < |r| ==> (r[i] == 1 <==> a[i] != 0 && b[i] != 0) && (r[i] == 0 || r[i] == 1)
  {
    if n <= 0 then [] else AndMasks(a, b, n - 1) + [if a[n - 1] != 0 && b[n - 1] != 0 then 1 else 0]
  }

  lemma {:induction false} AndMasksCommutes(a: seq<int>, b: seq<int>, n: int)
    requires n <= |a| && n <= |b|
    ensures AndMasks(a, b, n) == AndMasks(b, a, n)
  {
    if n > 0 {
      AndMasksCommutes(a, b, n - 1);
    }
  }

  /** Combining a 0/1 mask with itself gives the mask back. */
  lemma {:induction false} AndMasksIdempotent(a: seq<int>, n: int)
    requires 0 <= n <= |a|
    requires forall i :: 0 <= i < n ==> a[i] == 0 || a[i] == 1
    ensures AndMasks(a, a, n) == a[..n]
  {
    if n > 0 {
      AndMasksIdempotent(a, n - 1);
      assert a[..n] == a[..n - 1] + [a[n - 1]];
    }
  }

  lemma AndMasksExample()
    ensures AndMasks([1, 0, 1], [1, 1, 0], 3) == [1, 0, 0]
  {
  }

  // ---------------------------------------------------------------------
  // Interleave names
  // ---------------------------------------------------------------------

  /** The `interleave` text each subclass sets. */
  function InterleaveName(layout: Interleave): string
  {
    match layout
    case BIP => "bip"
    case BIL => "bil"
    case BSQ => "bsq"
  }

  /** `newCube`'s choice of subclass; `None` is its `ValueError`. */
  function ParseInterleave(interleave: string): (r: Option<Interleave>)
    ensures r.Some? <==> Strings.Lower(interleave) in {"bil", "bip", "bsq"}
    ensures r.Some? ==> InterleaveName(r.value) == Strings.Lower(interleave)
  {
    var i := Strings.Lower(interleave);
    if i == "bil" then Some(BIL)
    else if i == "bip" then Some(BIP)
    else if i == "bsq" then Some(BSQ)
    else None
  }

  lemma ParseInterleaveName(layout: Interleave)
    ensures ParseInterleave(InterleaveName(layout)) == Some(layout)
  {
    var n := InterleaveName(layout);
    assert Strings.Lower(n) == n;
  }

  lemma ParseInterleaveIgnoresCase()
    ensures ParseInterleave("BsQ") == Some(BSQ)
    ensures ParseInterleave("bsqx") == None
  {
    assert Strings.Lower("BsQ") == "bsq";
  }

  // ---------------------------------------------------------------------
  // The cube object
  // ---------------------------------------------------------------------

  /** What backs the payload (`mmap`): nothing yet (`None`), an in-memory
      array that `createCube` marks with `True`, or the read-only
      `numpy.memmap(path, mode="r")` that `open` makes of a file. */
  datatype MapState = Unmapped | InMemory | FileMapped

  class Cube {
    const layout: Interleave
    var interleave: string
    var samples: int
    var lines: int
    var bands: int
    var fileOffset: int
    var headerOffset: int
    var dataOffset: int
    var dataBytes: int
    var dataType: Option<DataType>
    var byteOrder: int
    var itemsize: int
    var wavelengths: seq<real>
    var bbl: seq<int>
    var wavelengthUnits: Option<string>
    var scaleFactor: Option<real>
    /** The decoded payload, flat; `shape()` is the view `GetPixel` reads through. */
    var raw: seq<int>
    var spectraExtrema: Extrema
    var mmap: MapState

    /** A fresh `BIPCube`/`BILCube`/`BSQCube` before any header is read. */
    constructor (layout: Interleave, nativeByteOrder: int)
      ensures this.layout == layout && interleave == InterleaveName(layout)
      ensures samples == -1 && lines == -1 && bands == -1
      ensures fileOffset == 0 && headerOffset == 0 && dataOffset == 0 && dataBytes == 0
      ensures dataType == None && byteOrder == nativeByteOrder && itemsize == 0
      ensures wavelengths == [] && bbl == [] && wavelengthUnits == None && scaleFactor == None
      ensures raw == [] && spectraExtrema == Extrema(None, None) && mmap == Unmapped
    {
      this.layout := layout;
      interleave := InterleaveName(layout);
      samples, lines, bands := -1, -1, -1;
      fileOffset, headerOffset, dataOffset, dataBytes := 0, 0, 0, 0;
      dataType := None;
      byteOrder := nativeByteOrder;
      itemsize := 0;
      wavelengths, bbl := [], [];
      wavelengthUnits, scaleFactor := None, None;
      raw := [];
      spectraExtrema := Extrema(None, None);
      mmap := Unmapped;
    }

    predicate IsShaped()
      reads this
    {
      Shaped(lines, samples, bands, raw)
    }

    /** `initializeSizes`: a given type replaces the current one, a non-zero
        byte order replaces the current one, and the payload size is
        computed only when it is still unknown (0). */
    method InitializeSizes(dtype: Option<DataType>, byteorder: int)
      modifies this`dataType, this`byteOrder, this`itemsize, this`dataBytes
      ensures dataType == if dtype.Some? then dtype else old(dataType)
      ensures byteOrder == if byteorder != 0 then byteorder else old(byteOrder)
      ensures itemsize == if dataType.Some? then ItemSize(dataType.value) else old(itemsize)
      ensures dataBytes == if old(dataBytes) == 0 then itemsize * samples * lines * bands else old(dataBytes)
    {
      if dtype.Some? {
        dataType := dtype;
      }
      if byteorder != 0 {
        byteOrder := byteorder;
      }
      if dataType.Some? {
        itemsize := ItemSize(dataType.value);
      }
      if dataBytes == 0 {
        dataBytes := itemsize * samples * lines * bands;
      }
    }

    /** `verifyAttributes`: supply defaults for what is unset and leave what
        is set alone. */
    method VerifyAttributes()
      modifies this`scaleFactor, this`bbl, this`wavelengthUnits, this`dataOffset
      ensures scaleFactor == if old(scaleFactor).None? then Some(GuessScaleFactor(dataType)) else old(scaleFactor)
      ensures bbl == if old(bbl) == [] then Ones(bands) else old(bbl)
      ensures wavelengthUnits == if |wavelengths| > 0 && !HasUnits(old(wavelengthUnits))
                                 then Some(GuessWavelengthUnits(wavelengths)) else old(wavelengthUnits)
      ensures dataOffset == if (headerOffset > 0 || fileOffset > 0) && old(dataOffset) == 0
                            then fileOffset + headerOffset else old(dataOffset)
    {
      if scaleFactor.None? {
        scaleFactor := Some(GuessScaleFactor(dataType));
      }
      if bbl == [] {
        bbl := Ones(bands);
      }
      if |wavelengths| > 0 && !HasUnits(wavelengthUnits) {
        wavelengthUnits := Some(GuessWavelengthUnits(wavelengths));
      }
      if headerOffset > 0 || fileOffset > 0 {
        if dataOffset == 0 {
          dataOffset := fileOffset + headerOffset;
        }
      }
    }

    /** `initialize` without the memory-mapping steps. */
    method Initialize(dtype: Option<DataType>, byteorder: int)
      modifies this`dataType, this`byteOrder, this`itemsize, this`dataBytes
      modifies this`scaleFactor, this`bbl, this`wavelengthUnits, this`dataOffset
      ensures dataType == if dtype.Some? then dtype else old(dataType)
      ensures byteOrder == if byteorder != 0 then byteorder else old(byteOrder)
      ensures itemsize == if dataType.Some? then ItemSize(dataType.value) else old(itemsize)
      ensures dataBytes == if old(dataBytes) == 0 then itemsize * samples * lines * bands else old(dataBytes)
      ensures scaleFactor == if old(scaleFactor).None? then Some(GuessScaleFactor(dataType)) else old(scaleFactor)
      ensures bbl == if old(bbl) == [] then Ones(bands) else old(bbl)
      ensures wavelengthUnits == if |wavelengths| > 0 && !HasUnits(old(wavelengthUnits))
                                 then Some(GuessWavelengthUnits(wavelengths)) else old(wavelengthUnits)
      ensures dataOffset == if (headerOffset > 0 || fileOffset > 0) && old(dataOffset) == 0
                            then fileOffset + headerOffset else old(dataOffset)
    {
      InitializeSizes(dtype, byteorder);
      VerifyAttributes();
    }

    /** `open()` on a `file:` URL: the first call maps the file read-only and
        runs `initialize()`; a cube already backed by something is left as it
        is.  `payload` stands for the values the typed view of the mapped
        bytes holds. */
    method Open(payload: seq<int>)
      modifies this`mmap, this`raw
      modifies this`dataType, this`byteOrder, this`itemsize, this`dataBytes
      modifies this`scaleFactor, this`bbl, this`wavelengthUnits, this`dataOffset
      ensures old(mmap) != Unmapped ==> unchanged(this)
      ensures old(mmap) == Unmapped ==> mmap == FileMapped && raw == payload
      ensures old(mmap) == Unmapped ==> dataType == old(dataType) && byteOrder == old(byteOrder)
      ensures old(mmap) == Unmapped ==> itemsize == if dataType.Some? then ItemSize(dataType.value) else old(itemsize)
      ensures old(mmap) == Unmapped ==> dataBytes == if old(dataBytes) == 0 then itemsize * samples * lines * bands else old(dataBytes)
      ensures old(mmap) == Unmapped ==> scaleFactor == if old(scaleFactor).None? then Some(GuessScaleFactor(dataType)) else old(scaleFactor)
      ensures old(mmap) == Unmapped ==> bbl == if old(bbl) == [] then Ones(bands) else old(bbl)
      ensures old(mmap) == Unmapped ==> wavelengthUnits == if |wavelengths| > 0 && !HasUnits(old(wavelengthUnits))
                                                          then Some(GuessWavelengthUnits(wavelengths)) else old(wavelengthUnits)
      ensures old(mmap) == Unmapped ==> dataOffset == if (headerOffset > 0 || fileOffset > 0) && old(dataOffset) == 0
                                                     then fileOffset + headerOffset else old(dataOffset)
    {
      if mmap == Unmapped {
        mmap := FileMapped;
        raw := payload;
        Initialize(None, 0);
      }
    }

    /** The attribute assignments of `createCube` before `initialize`. */
    method SetDimensions(interleave: string, lines: int, samples: int, bands: int,
                         dtype: Option<DataType>, byteorder: int, scalefactor: Option<real>)
      requires lines >= 0 && samples >= 0 && bands >= 0
      modifies this`interleave, this`lines, this`samples, this`bands
      modifies this`dataType, this`byteOrder, this`scaleFactor, this`raw
      ensures this.interleave == interleave && this.lines == lines && this.samples == samples && this.bands == bands
      ensures dataType == dtype && byteOrder == byteorder && scaleFactor == scalefactor
      ensures raw == Zeros(samples * lines * bands) && IsShaped()
    {
      this.interleave := interleave;
      this.samples := samples;
      this.lines := lines;
      this.bands := bands;
      dataType := dtype;
      byteOrder := byteorder;
      scaleFactor := scalefactor;
      raw := Zeros(samples * lines * bands);
      assert samples * lines * bands == lines * samples * bands;
    }

    /** `updateExtrema(data)`; `false` is numpy's error on an empty array,
        raised before anything is recorded. */
    method UpdateExtrema(data: seq<int>) returns (ok: bool)
      modifies this`spectraExtrema
      ensures ok <==> |data| > 0
      ensures spectraExtrema == if ok then Widened(old(spectraExtrema), data) else old(spectraExtrema)
    {
      if |data| == 0 {
        return false;
      }
      var mn := Min(data);
      var lo := spectraExtrema.lo;
      if lo.None? || mn < lo.value {
        lo := Some(mn);
      }
      var mx := Max(data);
      var hi := spectraExtrema.hi;
      if hi.None? || mx > hi.value {
        hi := Some(mx);
      }
      spectraExtrema := Extrema(lo, hi);
      ok := true;
    }

    /** `getBandInPlace(band)`: the band image, recording its range. */
    method GetBandInPlace(band: int) returns (r: Option<seq<seq<int>>>)
      requires IsShaped() && 0 <= band < bands
      modifies this`spectraExtrema
      ensures r.Some? <==> lines > 0 && samples > 0
      ensures r.Some? ==> r.value == BandRaw(layout, lines, samples, bands, raw, band)
      ensures r.Some? ==> spectraExtrema == Widened(old(spectraExtrema), Flatten(r.value))
      ensures r.None? ==> spectraExtrema == old(spectraExtrema)
    {
      var s := BandRaw(layout, lines, samples, bands, raw, band);
      FlattenEmpty(s);
      var ok := UpdateExtrema(Flatten(s));
      r := if ok then Some(s) else None;
    }

    /** `getBand(band)`: a copy of the band image; the range is recorded too. */
    method GetBand(band: int) returns (r: Option<seq<seq<int>>>)
      requires IsShaped() && 0 <= band < bands
      modifies this`spectraExtrema
      ensures r.Some? <==> lines > 0 && samples > 0
      ensures r.Some? ==> r.value == BandRaw(layout, lines, samples, bands, raw, band)
      ensures r.Some? ==> spectraExtrema == Widened(old(spectraExtrema), Flatten(r.value))
      ensures r.None? ==> spectraExtrema == old(spectraExtrema)
    {
      r := GetBandInPlace(band);
    }

    /** `getSpectraInPlace(line, sample)`: the pixel's bands, nothing recorded. */
    function GetSpectraInPlace(line: int, sample: int): (r: seq<int>)
      reads this
      requires IsShaped() && 0 <= line < lines && 0 <= sample < samples
      ensures |r| == bands
      ensures forall b :: 0 <= b < bands ==> r[b] == GetPixel(layout, lines, samples, bands, raw, Location(line, sample, b))
    {
      SpectraRaw(layout, lines, samples, bands, raw, line, sample)
    }

    /** `getSpectra(line, sample)`: the pixel's bands with the bad ones zeroed,
        recording their range. */
    method GetSpectra(line: int, sample: int) returns (r: Option<seq<int>>)
      requires IsShaped() && 0 <= line < lines && 0 <= sample < samples && |bbl| == bands
      modifies this`spectraExtrema
      ensures r.Some? <==> bands > 0
      ensures r.Some? ==> r.value == MaskBands(GetSpectraInPlace(line, sample), bbl)
      ensures r.Some? ==> spectraExtrema == Widened(old(spectraExtrema), r.value)
      ensures r.None? ==> spectraExtrema == old(spectraExtrema)
    {
      var spectra := GetSpectraInPlace(line, sample);
      spectra := MaskBands(spectra, bbl);
      var ok := UpdateExtrema(spectra);
      r := if ok then Some(spectra) else None;
    }

    /** `getLineOfSpectra(line)`: samples x bands with the bad bands zeroed,
        recording their range.  BIP copies the line; BIL and BSQ return a
        transposed view of the payload, so the in-place mask writes through
        to the cube, and fails (`None`) on a read-only file map before
        anything is recorded.  `None` is also numpy's error on an empty line. */
    method GetLineOfSpectra(line: int) returns (r: Option<seq<seq<int>>>)
      requires IsShaped() && 0 <= line < lines && |bbl| == bands
      modifies this`spectraExtrema, this`raw
      ensures IsShaped()
      ensures r.Some? <==> samples > 0 && bands > 0 && (layout == BIP || mmap != FileMapped)
      ensures raw == if layout != BIP && mmap != FileMapped
                     then MaskedLine(layout, lines, samples, bands, old(raw), line, bbl) else old(raw)
      ensures r.Some? ==> |r.value| == samples && forall s :: 0 <= s < samples ==>
                r.value[s] == MaskBands(SpectraRaw(layout, lines, samples, bands, old(raw), line, s), bbl)
      ensures r.Some? && layout != BIP ==> forall s :: 0 <= s < samples ==> r.value[s] == GetSpectraInPlace(line, s)
      ensures r.Some? ==> |Flatten(r.value)| > 0 && spectraExtrema == Widened(old(spectraExtrema), Flatten(r.value))
      ensures r.None? ==> spectraExtrema == old(spectraExtrema)
    {
      var masked := MaskedSpectra(layout, lines, samples, bands, raw, line, bbl);
      if layout != BIP {
        if mmap == FileMapped {
          return None;
        }
        MaskedLineSpectra(layout, lines, samples, bands, raw, line, bbl);
        raw := MaskedLine(layout, lines, samples, bands, raw, line, bbl);
      }
      FlattenEmpty(masked);
      var ok := UpdateExtrema(Flatten(masked));
      r := if ok then Some(masked) else None;
    }

    /** `getBandListByWavelength(wavelen_min, wavelen_max, units)`; a negative
        maximum means "same as the minimum". */
    method GetBandListByWavelength(wavelenMin: real, wavelenMax: real, units: string, scale: string -> real)
      returns (bandlist: seq<int>)
      requires BandsIndexable(wavelengths, bbl, bands)
      requires HasUnits(wavelengthUnits) ==> scale(wavelengthUnits.value) != 0.0
      ensures bandlist == BandList(wavelengths, bbl, bands,
                                   NormalizeUnits(wavelenMin, units, wavelengthUnits, scale),
                                   NormalizeUnits(if wavelenMax < 0.0 then wavelenMin else wavelenMax, units, wavelengthUnits, scale))
    {
      var hi := if wavelenMax < 0.0 then wavelenMin else wavelenMax;
      var lo := NormalizeUnits(wavelenMin, units, wavelengthUnits, scale);
      hi := NormalizeUnits(hi, units, wavelengthUnits, scale);
      bandlist := SelectBands(wavelengths, bbl, bands, lo, hi);
    }

    /** `guessDisplayBands`: `None` is the `IndexError` of an empty selection. */
    method GuessDisplayBands(scale: string -> real) returns (r: Option<seq<int>>)
      requires BandsIndexable(wavelengths, bbl, bands)
      requires HasUnits(wavelengthUnits) ==> scale(wavelengthUnits.value) != 0.0
      ensures r == DisplayBands(wavelengths, bbl, bands, wavelengthUnits, scale)
    {
      if bands >= 3 && |wavelengths| > 0 {
        var red := GetBandListByWavelength(660.0, -1.0, "nm", scale);
        if |red| == 0 {
          return None;
        }
        var green := GetBandListByWavelength(550.0, -1.0, "nm", scale);
        if |green| == 0 {
          return None;
        }
        var blue := GetBandListByWavelength(440.0, -1.0, "nm", scale);
        if |blue| == 0 {
          return None;
        }
        var picked := [red[0], green[0], blue[0]];
        if picked[0] == picked[1] && picked[1] == picked[2] {
          picked := [picked[0]];
        }
        r := Some(picked);
      } else {
        r := Some([0]);
      }
    }

    /** `getBadBandList(other)`: this cube's flags, or both cubes' flags
        combined band by band. */
    method GetBadBandList(other: Cube?) returns (r: seq<int>)
      requires other != null ==> bands <= |bbl| && bands <= |other.bbl|
      ensures other == null ==> r == bbl
      ensures other != null ==> r == AndMasks(bbl, other.bbl, bands)
    {
      if other == null {
        return bbl;
      }
      var n := if bands < 0 then 0 else bands;
      var bbl2 := seq(n, _ => 0);
      var i := 0;
      while i < n
        invariant 0 <= i <= n && |bbl2| == n
        invariant bbl2[..i] == AndMasks(bbl, other.bbl, i)
        invariant forall j :: i <= j < n ==> bbl2[j] == 0
      {
        if bbl[i] != 0 && other.bbl[i] != 0 {
          bbl2 := bbl2[i := 1];
        }
        assert bbl2[..i + 1] == bbl2[..i] + [bbl2[i]];
        i := i + 1;
      }
      assert bbl2[..n] == bbl2;
      r := bbl2;
    }
  }

  /** The two passes of `getBandListByWavelength` over an already normalized
      range: the usable bands inside it, else the nearest usable band. */
  method SelectBands(wl: seq<real>, bbl: seq<int>, bands: int, lo: real, hi: real) returns (bandlist: seq<int>)
    requires BandsIndexable(wl, bbl, bands)
    ensures bandlist == BandList(wl, bbl, bands, lo, hi)
  {
    if |wl| == 0 {
      return [];
    }
    bandlist := UsableScan(wl, bbl, bands, lo, hi);
    if bandlist == [] {
      bandlist := NearestBand(wl, bbl, bands, (hi + lo) / 2.0);
    }
  }

  /** The first pass of `getBandListByWavelength`: every usable band whose
      wavelength lies in the range, in channel order. */
  method UsableScan(wl: seq<real>, bbl: seq<int>, bands: int, lo: real, hi: real) returns (bandlist: seq<int>)
    requires 0 <= bands <= |wl| && bands <= |bbl|
    ensures bandlist == UsableInRange(wl, bbl, lo, hi, bands)
  {
    bandlist := [];
    var channel := 0;
    while channel < bands
      invariant 0 <= channel <= bands
      invariant bandlist == UsableInRange(wl, bbl, lo, hi, channel)
    {
      UsableInRangeStep(wl, bbl, lo, hi, channel);
      if UsableIn(wl, bbl, lo, hi, channel) {
        bandlist := bandlist + [channel];
      }
      channel := channel + 1;
    }
  }

  /** One more channel extends the first pass by that channel alone. */
  lemma UsableInRangeStep(wl: seq<real>, bbl: seq<int>, lo: real, hi: real, n: int)
    requires 0 <= n < |wl| && n < |bbl|
    ensures UsableInRange(wl, bbl, lo, hi, n + 1)
         == if UsableIn(wl, bbl, lo, hi, n) then UsableInRange(wl, bbl, lo, hi, n) + [n] else UsableInRange(wl, bbl, lo, hi, n)
  {
  }

  /** The fallback branch of `getBandListByWavelength`: three searches that
      each stop at the first band they accept. */
  method NearestBand(wl: seq<real>, bbl: seq<int>, bands: int, center: real) returns (bandlist: seq<int>)
    requires |wl| > 0 && BandsIndexable(wl, bbl, bands)
    ensures bandlist == Nearest(wl, bbl, bands, center)
  {
    bandlist := [];
    var channel;
    if center < wl[0] {
      channel := 0;
      while channel < bands
        invariant 0 <= channel <= bands
        invariant FirstUsable(bbl, channel, bands) == FirstUsable(bbl, 0, bands)
      {
        if bbl[channel] == 1 {
          bandlist := [channel];
          break;
        }
        channel := channel + 1;
      }
    } else if center > wl[if bands > 0 then bands - 1 else |wl| - 1] {
      channel := bands - 1;
      while channel >= 0
        invariant -1 <= channel < bands
        invariant LastUsable(bbl, channel) == LastUsable(bbl, bands - 1)
      {
        if bbl[channel] == 1 {
          bandlist := [channel];
          break;
        }
        channel := channel - 1;
      }
    } else {
      channel := 0;
      while channel < bands - 1
        invariant 0 <= channel <= if bands > 0 then bands - 1 else 0
        invariant Bracket(wl, bbl, center, channel, bands) == Bracket(wl, bbl, center, 0, bands)
      {
        if bbl[channel] == 1 && wl[channel] < center && wl[channel + 1] > center {
          if center - wl[channel] < wl[channel + 1] - center {
            bandlist := [channel];
            break;
          } else {
            bandlist := [channel + 1];
            break;
          }
        }
        channel := channel + 1;
      }
    }
  }

  /** `newCube(interleave)`: a cube of the named layout, or `null` for the
      `ValueError` on an unknown name. */
  method NewCube(interleave: string, nativeByteOrder: int) returns (c: Cube?)
    ensures c == null <==> ParseInterleave(interleave).None?
    ensures c != null ==> fresh(c) && c.layout == ParseInterleave(interleave).value
    ensures c != null ==> c.interleave == InterleaveName(c.layout) && c.raw == []
    ensures c != null ==> c.bands == -1 && c.spectraExtrema == Extrema(None, None) && c.byteOrder == nativeByteOrder
  {
    var layout := ParseInterleave(interleave);
    if layout.None? {
      return null;
    }
    c := new Cube(layout.value, nativeByteOrder);
  }

  /** `createCube`: an all-zero cube of the given dimensions.  `null` stands
      for the `ValueError` of an unknown interleave or a negative dimension. */
  method CreateCube(interleave: string, lines: int, samples: int, bands: int,
                    dtype: Option<DataType>, byteorder: int, scalefactor: Option<real>, nativeByteOrder: int)
    returns (c: Cube?)
    ensures c == null <==> ParseInterleave(interleave).None? || lines < 0 || samples < 0 || bands < 0
    ensures c != null ==> fresh(c)
    ensures c != null ==> c.layout == ParseInterleave(interleave).value && c.interleave == interleave
    ensures c != null ==> c.lines == lines && c.samples == samples && c.bands == bands
    ensures c != null ==> c.raw == Zeros(samples * lines * bands)
    ensures c != null ==> c.itemsize == (if dtype.Some? then ItemSize(dtype.value) else 0)
    ensures c != null ==> c.dataBytes == c.itemsize * samples * lines * bands
    ensures c != null ==> c.scaleFactor == (if scalefactor.Some? then scalefactor else Some(GuessScaleFactor(dtype)))
    ensures c != null ==> c.dataType == dtype && c.byteOrder == byteorder
    ensures c != null ==> c.bbl == Ones(bands) && c.wavelengths == [] && c.wavelengthUnits == None
    ensures c != null ==> c.dataOffset == 0 && c.spectraExtrema == Extrema(None, None) && c.mmap == InMemory
  {
    var layout := ParseInterleave(interleave);
    if layout.None? || lines < 0 || samples < 0 || bands < 0 {
      return null;
    }
    var cube := new Cube(layout.value, nativeByteOrder);
    cube.SetDimensions(interleave, lines, samples, bands, dtype, byteorder, scalefactor);
    assert cube.dataBytes == 0 && cube.itemsize == 0 && cube.bbl == [] && cube.wavelengths == [];
    assert cube.wavelengthUnits == None && cube.dataOffset == 0 && cube.headerOffset == 0 && cube.fileOffset == 0;
    cube.mmap := InMemory;
    cube.Initialize(dtype, byteorder);
    c := cube;
  }
}
