/** Noise.GenerateNoiseMap: a mapWidth x mapHeight height field built from
    several octaves of coherent noise, then normalised either against the
    extremes found in this map (Local) or against the largest sum the octaves
    could reach (Global).

    The coherent noise (Mathf.PerlinNoise) and the seeded generator
    (System.Random) are parameters: `perlin` is any function of two reals and
    `prng(seed, k)` is the k-th value `Next(-100000, 100000)` returns for a
    generator created with `seed`. */
module Noise {
  import opened Unity

  datatype NormalizeMode = Local | Global

  /** float.MaxValue and float.MinValue, the starting points of the running
      extremes in the first pass. */
  const FloatMax: real := 340282346638528859811704183484516925440.0
  const FloatMin: real := -FloatMax

  /** `int.MaxValue` as the upper bound of Mathf.Clamp: converted to float it
      is 2^31. */
  const IntMaxAsFloat: real := 2147483648.0

  /** The floor Mathf.Max puts under the scale. */
  const MinScale: real := 0.0001

  /** `Next(-100000, 100000)` draws from [-100000, 100000). */
  const RandomLow: int := -100000
  const RandomHigh: int := 100000

  /** b^n, the octave amplitude (b = persistance) or frequency (b = lacunarity). */
  function Pow(b: real, n: nat): real
  {
    if n == 0 then 1.0 else Pow(b, n - 1) * b
  }

  /** The sum of the first n amplitudes, 1 + p + ... + p^(n-1): the largest
      height n octaves of noise in [0, 1] can add up to. */
  function SumOfPowers(p: real, n: nat): real
  {
    if n == 0 then 0.0 else SumOfPowers(p, n - 1) + Pow(p, n - 1)
  }

  lemma {:induction false} PowNonNegative(p: real, n: nat)
    requires p >= 0.0
    ensures Pow(p, n) >= 0.0
  {
    if n > 0 {
      PowNonNegative(p, n - 1);
      var q := Pow(p, n - 1);
      assert q * p >= 0.0;
    }
  }

  /** With a non-negative persistance and at least one octave, the Global
      divisor is at least 1, so it is never zero. */
  lemma {:induction false} SumOfPowersAtLeastOne(p: real, n: nat)
    requires p >= 0.0 && n >= 1
    ensures SumOfPowers(p, n) >= 1.0
  {
    if n > 1 {
      SumOfPowersAtLeastOne(p, n - 1);
      PowNonNegative(p, n - 1);
    }
  }

  /** The scale actually used: Mathf.Max(scale, 0.0001). */
  function EffectiveScale(scale: real): (r: real)
    ensures r >= MinScale && r > 0.0
    ensures scale >= MinScale ==> r == scale
    ensures scale < MinScale ==> r == MinScale
  {
    Max(scale, MinScale)
  }

  /** Octave i's offset: the i-th pair of draws, the x draw shifted by
      offset.x and the y draw shifted by MINUS offset.y. */
  function OctaveOffset(prng: (int, nat) -> int, seed: int, offset: Vec2, i: nat): Vec2
  {
    Vec2(prng(seed, 2 * i) as real + offset.x, prng(seed, 2 * i + 1) as real - offset.y)
  }

  /** When the generator keeps to its documented range, every octave offset
      lies in a box of side 200000 around (offset.x, -offset.y). */
  lemma OctaveOffsetInRange(prng: (int, nat) -> int, seed: int, offset: Vec2, i: nat)
    requires forall k: nat :: RandomLow <= prng(seed, k) < RandomHigh
    ensures RandomLow as real + offset.x <= OctaveOffset(prng, seed, offset, i).x < RandomHigh as real + offset.x
    ensures RandomLow as real - offset.y <= OctaveOffset(prng, seed, offset, i).y < RandomHigh as real - offset.y
  {
    assert RandomLow <= prng(seed, 2 * i) < RandomHigh;
    assert RandomLow <= prng(seed, 2 * i + 1) < RandomHigh;
  }

  /** The first loop of GenerateNoiseMap: one offset per octave, two draws
      each, and the running sum of amplitudes that becomes maxPossibleHeight. */
  method ComputeOctaveOffsets(seed: int, octaves: nat, persistance: real, offset: Vec2,
                              prng: (int, nat) -> int)
    returns (octaveOffsets: seq<Vec2>, maxPossibleHeight: real)
    ensures |octaveOffsets| == octaves
    ensures forall i :: 0 <= i < octaves ==> octaveOffsets[i] == OctaveOffset(prng, seed, offset, i)
    ensures maxPossibleHeight == SumOfPowers(persistance, octaves)
  {
    var offsets := new Vec2[octaves];
    var draws: nat := 0;
    var amplitude := 1.0;
    maxPossibleHeight := 0.0;
    for i := 0 to octaves
      invariant draws == 2 * i
      invariant amplitude == Pow(persistance, i)
      invariant maxPossibleHeight == SumOfPowers(persistance, i)
      invariant forall j :: 0 <= j < i ==> offsets[j] == OctaveOffset(prng, seed, offset, j)
    {
      var offsetX := prng(seed, draws) as real + offset.x;
      draws := draws + 1;
      var offsetY := prng(seed, draws) as real - offset.y;
      draws := draws + 1;
      offsets[i] := Vec2(offsetX, offsetY);
      maxPossibleHeight := maxPossibleHeight + amplitude;
      amplitude := amplitude * persistance;
    }
    octaveOffsets := offsets[..];
  }

  /** Everything a cell's raw height depends on besides its coordinates. */
  datatype Octaves = Octaves(
    perlin: (real, real) -> real,
    offsets: seq<Vec2>,
    halfWidth: real,
    halfHeight: real,
    scale: real,
    persistance: real,
    lacunarity: real)
  {
    predicate Valid() { scale > 0.0 }
  }

  /** Where an octave samples the noise along one axis:
      (coordinate - half + octave offset) / scale * frequency. */
  function SamplePoint(coord: int, half: real, octaveOffset: real, scale: real, frequency: real): real
    requires scale > 0.0
  {
    (coord as real - half + octaveOffset) / scale * frequency
  }

  /** Octave i's contribution to cell (x, y): amplitude p^i times the noise,
      remapped from [0, 1] to [-1, 1], sampled at frequency l^i. */
  function OctaveTerm(o: Octaves, x: int, y: int, i: nat): real
    requires o.Valid() && i < |o.offsets|
  {
    var frequency := Pow(o.lacunarity, i);
    var sampleX := SamplePoint(x, o.halfWidth, o.offsets[i].x, o.scale, frequency);
    var sampleY := SamplePoint(y, o.halfHeight, o.offsets[i].y, o.scale, frequency);
    (o.perlin(sampleX, sampleY) * 2.0 - 1.0) * Pow(o.persistance, i)
  }

  /** The sum of the first n octave terms of cell (x, y). */
  function OctaveSum(o: Octaves, x: int, y: int, n: nat): real
    requires o.Valid() && n <= |o.offsets|
  {
    if n == 0 then 0.0 else OctaveSum(o, x, y, n - 1) + OctaveTerm(o, x, y, n - 1)
  }

  /** A cell's height before normalisation: the sum over all octaves. */
  function RawHeight(o: Octaves, x: int, y: int): real
    requires o.Valid()
  {
    OctaveSum(o, x, y, |o.offsets|)
  }

  /** The octave loop for one cell, with its running amplitude, frequency
      and noiseHeight restarted at the cell. */
  method SampleHeight(o: Octaves, x: int, y: int) returns (noiseHeight: real)
    requires o.Valid()
    ensures noiseHeight == RawHeight(o, x, y)
  {
    var amplitude := 1.0;
    var frequency := 1.0;
    noiseHeight := 0.0;
    for i := 0 to |o.offsets|
      invariant amplitude == Pow(o.persistance, i)
      invariant frequency == Pow(o.lacunarity, i)
      invariant noiseHeight == OctaveSum(o, x, y, i)
    {
      var sampleX := SamplePoint(x, o.halfWidth, o.offsets[i].x, o.scale, frequency);
      var sampleY := SamplePoint(y, o.halfHeight, o.offsets[i].y, o.scale, frequency);
      var perlinValue := o.perlin(sampleX, sampleY) * 2.0 - 1.0;
      noiseHeight := noiseHeight + perlinValue * amplitude;
      amplitude := amplitude * o.persistance;
      frequency := frequency * o.lacunarity;
    }
  }

  /** Whether cell (cx, cy) comes before position (x, y) of the row-major
      scan (rows of `width` cells, y outer, x inner). */
  predicate Before(cx: int, cy: int, y: nat, x: nat)
  {
    0 <= cy < y || (cy == y && 0 <= cx < x)
  }

  /** The running minimum after the scan has reached (x, y): float.MaxValue
      lowered by every raw height before it, as Mathf.Min(noiseHeight, min). */
  function RunningMin(o: Octaves, width: nat, y: nat, x: nat): real
    requires o.Valid() && x <= width
    decreases y, x
  {
    if x > 0 then Min(RawHeight(o, x - 1, y), RunningMin(o, width, y, x - 1))
    else if y > 0 then RunningMin(o, width, y - 1, width)
    else FloatMax
  }

  /** The running maximum, from float.MinValue, as Mathf.Max(noiseHeight, max). */
  function RunningMax(o: Octaves, width: nat, y: nat, x: nat): real
    requires o.Valid() && x <= width
    decreases y, x
  {
    if x > 0 then Max(RawHeight(o, x - 1, y), RunningMax(o, width, y, x - 1))
    else if y > 0 then RunningMax(o, width, y - 1, width)
    else FloatMin
  }

  /** The running minimum is a lower bound of every cell scanned so far and
      of float.MaxValue, and it is either float.MaxValue or one of those
      cells. */
  lemma {:induction false} RunningMinIsLeast(o: Octaves, width: nat, y: nat, x: nat)
    requires o.Valid() && x <= width
    ensures var m := RunningMin(o, width, y, x);
      m <= FloatMax &&
      (forall cx, cy :: 0 <= cx < width && Before(cx, cy, y, x) ==> m <= RawHeight(o, cx, cy)) &&
      (m == FloatMax || exists cx, cy :: 0 <= cx < width && Before(cx, cy, y, x) && m == RawHeight(o, cx, cy))
    decreases y, x
  {
    if x > 0 {
      RunningMinIsLeast(o, width, y, x - 1);
      var prev := RunningMin(o, width, y, x - 1);
      var m := RunningMin(o, width, y, x);
      if m != FloatMax && m == RawHeight(o, x - 1, y) {
        assert Before(x - 1, y, y, x);
      } else if m != FloatMax {
        var cx, cy :| 0 <= cx < width && Before(cx, cy, y, x - 1) && prev == RawHeight(o, cx, cy);
        assert Before(cx, cy, y, x);
      }
    } else if y > 0 {
      RunningMinIsLeast(o, width, y - 1, width);
      var m := RunningMin(o, width, y, x);
      if m != FloatMax {
        var cx, cy :| 0 <= cx < width && Before(cx, cy, y - 1, width) && m == RawHeight(o, cx, cy);
        assert Before(cx, cy, y, x);
      }
    }
  }

  /** The dual of RunningMinIsLeast for the running maximum. */
  lemma {:induction false} RunningMaxIsGreatest(o: Octaves, width: nat, y: nat, x: nat)
    requires o.Valid() && x <= width
    ensures var m := RunningMax(o, width, y, x);
      m >= FloatMin &&
      (forall cx, cy :: 0 <= cx < width && Before(cx, cy, y, x) ==> RawHeight(o, cx, cy) <= m) &&
      (m == FloatMin || exists cx, cy :: 0 <= cx < width && Before(cx, cy, y, x) && m == RawHeight(o, cx, cy))
    decreases y, x
  {
    if x > 0 {
      RunningMaxIsGreatest(o, width, y, x - 1);
      var prev := RunningMax(o, width, y, x - 1);
      var m := RunningMax(o, width, y, x);
      if m != FloatMin && m == RawHeight(o, x - 1, y) {
        assert Before(x - 1, y, y, x);
      } else if m != FloatMin {
        var cx, cy :| 0 <= cx < width && Before(cx, cy, y, x - 1) && prev == RawHeight(o, cx, cy);
        assert Before(cx, cy, y, x);
      }
    } else if y > 0 {
      RunningMaxIsGreatest(o, width, y - 1, width);
      var m := RunningMax(o, width, y, x);
      if m != FloatMin {
        var cx, cy :| 0 <= cx < width && Before(cx, cy, y - 1, width) && m == RawHeight(o, cx, cy);
        assert Before(cx, cy, y, x);
      }
    }
  }

  /** minLocalNoiseHeight and maxLocalNoiseHeight once the whole map is scanned. */
  function LocalMin(o: Octaves, width: nat, height: nat): real
    requires o.Valid()
  {
    RunningMin(o, width, height, 0)
  }

  function LocalMax(o: Octaves, width: nat, height: nat): real
    requires o.Valid()
  {
    RunningMax(o, width, height, 0)
  }

  /** After the first pass, every raw height lies between the two extremes. */
  lemma LocalExtremesBound(o: Octaves, width: nat, height: nat, x: nat, y: nat)
    requires o.Valid() && x < width && y < height
    ensures LocalMin(o, width, height) <= RawHeight(o, x, y) <= LocalMax(o, width, height)
  {
    RunningMinIsLeast(o, width, height, 0);
    RunningMaxIsGreatest(o, width, height, 0);
    assert Before(x, y, height, 0);
  }

  /** Every raw height of the map lies within the float range. */
  predicate InFloatRange(o: Octaves, width: nat, height: nat)
    requires o.Valid()
  {
    forall x, y :: 0 <= x < width && 0 <= y < height ==> FloatMin <= RawHeight(o, x, y) <= FloatMax
  }

  /** For a non-empty map whose raw heights are floats, both extremes are
      attained by some cell. */
  lemma LocalExtremesAttained(o: Octaves, width: nat, height: nat)
    requires o.Valid() && width > 0 && height > 0 && InFloatRange(o, width, height)
    ensures exists x, y :: 0 <= x < width && 0 <= y < height && RawHeight(o, x, y) == LocalMin(o, width, height)
    ensures exists x, y :: 0 <= x < width && 0 <= y < height && RawHeight(o, x, y) == LocalMax(o, width, height)
  {
    RunningMinIsLeast(o, width, height, 0);
    RunningMaxIsGreatest(o, width, height, 0);
    assert Before(0, 0, height, 0);
    var lo := LocalMin(o, width, height);
    var hi := LocalMax(o, width, height);
    if lo == FloatMax {
      assert lo <= RawHeight(o, 0, 0) <= FloatMax;
    } else {
      var cx, cy :| 0 <= cx < width && Before(cx, cy, height, 0) && lo == RawHeight(o, cx, cy);
    }
    if hi == FloatMin {
      assert FloatMin <= RawHeight(o, 0, 0) <= hi;
    } else {
      var cx, cy :| 0 <= cx < width && Before(cx, cy, height, 0) && hi == RawHeight(o, cx, cy);
    }
  }

  /** The second pass applied to one raw height. */
  function NormalizeCell(mode: NormalizeMode, raw: real, minHeight: real, maxHeight: real,
                         maxPossibleHeight: real): (r: real)
    requires mode == Global ==> maxPossibleHeight != 0.0
    ensures mode == Local ==> 0.0 <= r <= 1.0
    ensures mode == Global ==> 0.0 <= r <= IntMaxAsFloat
  {
    match mode
    case Local => InverseLerp(minHeight, maxHeight, raw)
    case Global =>
      var normalizedHeight := (raw + 1.0) / maxPossibleHeight / 1.2;
      Clamp(normalizedHeight, 0.0, IntMaxAsFloat)
  }

  /** Local mode sends the minimum to 0 and, when the extremes differ, the
      maximum to 1; Global mode leaves every in-range value as it is. */
  lemma NormalizeCellEndpoints(raw: real, minHeight: real, maxHeight: real, maxPossibleHeight: real)
    requires maxPossibleHeight != 0.0
    ensures raw == minHeight ==> NormalizeCell(Local, raw, minHeight, maxHeight, maxPossibleHeight) == 0.0
    ensures raw == maxHeight && minHeight < maxHeight ==>
      NormalizeCell(Local, raw, minHeight, maxHeight, maxPossibleHeight) == 1.0
    ensures var v := (raw + 1.0) / maxPossibleHeight / 1.2;
      0.0 <= v <= IntMaxAsFloat ==> NormalizeCell(Global, raw, minHeight, maxHeight, maxPossibleHeight) == v
  {
  }

  /** In Local mode a non-empty map whose raw heights are floats has a cell
      at 0 and, unless all raw heights are equal, a cell at 1. */
  lemma LocalModeReachesBothEnds(o: Octaves, width: nat, height: nat)
    requires o.Valid() && width > 0 && height > 0 && InFloatRange(o, width, height)
    ensures var lo := LocalMin(o, width, height); var hi := LocalMax(o, width, height);
      (exists x, y :: 0 <= x < width && 0 <= y < height && NormalizeCell(Local, RawHeight(o, x, y), lo, hi, 1.0) == 0.0) &&
      (lo < hi ==> exists x, y :: 0 <= x < width && 0 <= y < height && NormalizeCell(Local, RawHeight(o, x, y), lo, hi, 1.0) == 1.0)
  {
    LocalExtremesAttained(o, width, height);
    var lo := LocalMin(o, width, height);
    var hi := LocalMax(o, width, height);
    var x0, y0 :| 0 <= x0 < width && 0 <= y0 < height && RawHeight(o, x0, y0) == lo;
    NormalizeCellEndpoints(RawHeight(o, x0, y0), lo, hi, 1.0);
    var x1, y1 :| 0 <= x1 < width && 0 <= y1 < height && RawHeight(o, x1, y1) == hi;
    NormalizeCellEndpoints(RawHeight(o, x1, y1), lo, hi, 1.0);
  }

  /** The first pass: every cell gets its raw height, and the running
      extremes are tracked along the way. */
  method FillRawHeights(noiseMap: array2<real>, o: Octaves)
    returns (minLocalNoiseHeight: real, maxLocalNoiseHeight: real)
    requires o.Valid()
    modifies noiseMap
    ensures forall x, y :: 0 <= x < noiseMap.Length0 && 0 <= y < noiseMap.Length1 ==>
      noiseMap[x, y] == RawHeight(o, x, y)
    ensures minLocalNoiseHeight == LocalMin(o, noiseMap.Length0, noiseMap.Length1)
    ensures maxLocalNoiseHeight == LocalMax(o, noiseMap.Length0, noiseMap.Length1)
  {
    var mapWidth, mapHeight := noiseMap.Length0, noiseMap.Length1;
    maxLocalNoiseHeight := FloatMin;
    minLocalNoiseHeight := FloatMax;
    for y := 0 to mapHeight
      invariant minLocalNoiseHeight == RunningMin(o, mapWidth, y, 0)
      invariant maxLocalNoiseHeight == RunningMax(o, mapWidth, y, 0)
      invariant forall cx, cy :: 0 <= cx < mapWidth && 0 <= cy < y ==> noiseMap[cx, cy] == RawHeight(o, cx, cy)
    {
      for x := 0 to mapWidth
        invariant minLocalNoiseHeight == RunningMin(o, mapWidth, y, x)
        invariant maxLocalNoiseHeight == RunningMax(o, mapWidth, y, x)
        invariant forall cx, cy :: 0 <= cx < mapWidth && 0 <= cy < y ==> noiseMap[cx, cy] == RawHeight(o, cx, cy)
        invariant forall cx :: 0 <= cx < x ==> noiseMap[cx, y] == RawHeight(o, cx, y)
      {
        var noiseHeight := SampleHeight(o, x, y);
        maxLocalNoiseHeight := Max(noiseHeight, maxLocalNoiseHeight);
        minLocalNoiseHeight := Min(noiseHeight, minLocalNoiseHeight);
        noiseMap[x, y] := noiseHeight;
      }
    }
  }

  /** The second pass: every cell is normalised in place. */
  method NormalizeMap(noiseMap: array2<real>, normalizeMode: NormalizeMode,
                      minLocalNoiseHeight: real, maxLocalNoiseHeight: real, maxPossibleHeight: real)
    requires normalizeMode == Global ==> maxPossibleHeight != 0.0
    modifies noiseMap
    ensures forall x, y :: 0 <= x < noiseMap.Length0 && 0 <= y < noiseMap.Length1 ==>
      noiseMap[x, y] == NormalizeCell(normalizeMode, old(noiseMap[x, y]), minLocalNoiseHeight,
                                      maxLocalNoiseHeight, maxPossibleHeight)
  {
    var mapWidth, mapHeight := noiseMap.Length0, noiseMap.Length1;
    for y := 0 to mapHeight
      invariant forall cx, cy :: 0 <= cx < mapWidth && 0 <= cy < y ==>
        noiseMap[cx, cy] == NormalizeCell(normalizeMode, old(noiseMap[cx, cy]), minLocalNoiseHeight,
                                          maxLocalNoiseHeight, maxPossibleHeight)
      invariant forall cx, cy :: 0 <= cx < mapWidth && y <= cy < mapHeight ==> noiseMap[cx, cy] == old(noiseMap[cx, cy])
    {
      for x := 0 to mapWidth
        invariant forall cx, cy :: 0 <= cx < mapWidth && 0 <= cy < y ==>
          noiseMap[cx, cy] == NormalizeCell(normalizeMode, old(noiseMap[cx, cy]), minLocalNoiseHeight,
                                            maxLocalNoiseHeight, maxPossibleHeight)
        invariant forall cx :: 0 <= cx < x ==>
          noiseMap[cx, y] == NormalizeCell(normalizeMode, old(noiseMap[cx, y]), minLocalNoiseHeight,
                                           maxLocalNoiseHeight, maxPossibleHeight)
        invariant forall cx, cy :: 0 <= cx < mapWidth && y <= cy < mapHeight && (cy > y || cx >= x) ==>
          noiseMap[cx, cy] == old(noiseMap[cx, cy])
      {
        if normalizeMode == Local {
          noiseMap[x, y] := InverseLerp(minLocalNoiseHeight, maxLocalNoiseHeight, noiseMap[x, y]);
        } else {
          var normalizedHeight := (noiseMap[x, y] + 1.0) / maxPossibleHeight / 1.2;
          noiseMap[x, y] := Clamp(normalizedHeight, 0.0, IntMaxAsFloat);
        }
      }
    }
  }

  /** The octave parameters GenerateNoiseMap derives from its arguments. */
  function NoiseOctaves(mapWidth: nat, mapHeight: nat, scale: real, seed: int, octaves: nat,
                        persistance: real, lacunarity: real, offset: Vec2,
                        perlin: (real, real) -> real, prng: (int, nat) -> int): (o: Octaves)
    ensures o.Valid() && |o.offsets| == octaves
  {
    Octaves(perlin, seq(octaves, i requires 0 <= i => OctaveOffset(prng, seed, offset, i)),
            (mapWidth / 2) as real, (mapHeight / 2) as real, EffectiveScale(scale),
            persistance, lacunarity)
  }

  /** Noise.GenerateNoiseMap. Every cell of the mapWidth x mapHeight result
      is its raw height normalised by the chosen mode, so it lies in [0, 1]
      in Local mode and in [0, 2^31] in Global mode. Global mode divides by
      maxPossibleHeight, which must not be zero. */
  method GenerateNoiseMap(mapWidth: nat, mapHeight: nat, scale: real, seed: int, octaves: nat,
                          persistance: real, lacunarity: real, offset: Vec2,
                          normalizeMode: NormalizeMode,
                          perlin: (real, real) -> real, prng: (int, nat) -> int)
    returns (noiseMap: array2<real>)
    requires normalizeMode == Global ==> SumOfPowers(persistance, octaves) != 0.0
    ensures fresh(noiseMap)
    ensures noiseMap.Length0 == mapWidth && noiseMap.Length1 == mapHeight
    ensures var o := NoiseOctaves(mapWidth, mapHeight, scale, seed, octaves, persistance, lacunarity,
                                  offset, perlin, prng);
      forall x, y :: 0 <= x < mapWidth && 0 <= y < mapHeight ==>
        noiseMap[x, y] == NormalizeCell(normalizeMode, RawHeight(o, x, y), LocalMin(o, mapWidth, mapHeight),
                                        LocalMax(o, mapWidth, mapHeight), SumOfPowers(persistance, octaves))
    ensures forall x, y :: 0 <= x < mapWidth && 0 <= y < mapHeight ==>
      if normalizeMode == Local then 0.0 <= noiseMap[x, y] <= 1.0 else 0.0 <= noiseMap[x, y] <= IntMaxAsFloat
  {
    noiseMap := new real[mapWidth, mapHeight];
    var octaveOffsets, maxPossibleHeight := ComputeOctaveOffsets(seed, octaves, persistance, offset, prng);
    var effectiveScale := EffectiveScale(scale);
    var halfWidth := (mapWidth / 2) as real;
    var halfHeight := (mapHeight / 2) as real;
    var o := Octaves(perlin, octaveOffsets, halfWidth, halfHeight, effectiveScale, persistance, lacunarity);
    assert o == NoiseOctaves(mapWidth, mapHeight, scale, seed, octaves, persistance, lacunarity,
                             offset, perlin, prng);
    var minLocalNoiseHeight, maxLocalNoiseHeight := FillRawHeights(noiseMap, o);
    NormalizeMap(noiseMap, normalizeMode, minLocalNoiseHeight, maxLocalNoiseHeight, maxPossibleHeight);
  }
}
