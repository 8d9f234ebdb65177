/**
 * The layer-boundary wireframe extractor (`createWireframe` in index.js).
 *
 * The layer field is a flat row-major 3D array: for grid cell (x, y) the height
 * of boundary j is at `j + shape[2] * (y + shape[1] * x)`. For each boundary in
 * `LayerIndices` the extractor sweeps both grid axes; along each it takes
 * `WireframeSegments` evenly spaced cross-sections, samples
 * `WireframeResolution` evenly spaced points across each, emits every point
 * as (x, height, y) into a flat point buffer, and joins consecutive points of
 * a cross-section with VTK line records `[2, a, a + 1]`, where `a` counts from
 * a running point offset.
 */
module Wireframe {
  import opened Wrappers
  import opened Render
  import Linspace

  const WireframeSegments: nat := 14
  const WireframeResolution: nat := 48
  const WireframeOpacity: real := 0.5
  const WireframeWidth: nat := 3
  /** Number of point ids in each line record. */
  const PointsPerSegment: int := 2

  /** The boundaries of the layer field that are drawn. */
  const LayerIndices: seq<int> := [1, 5, 7, 9]
  const LayerColors: map<int, Rgb> := map[
    1 := Rgb(0.0, 0.0, 1.0),
    5 := Rgb(0.0, 1.0, 0.0),
    7 := Rgb(1.0, 0.647, 0.0),
    9 := Rgb(0.5, 0.0, 0.5)]


  /** A loaded array: its shape and its row-major data. */
  datatype Field = Field(shape: seq<nat>, data: seq<real>)

  /**
   * A layer field the extractor reads only inside: three dimensions, data of the
   * full size, a non-empty grid, and room on the last axis for every boundary.
   */
  predicate ValidLayers(f: Field)
  {
    |f.shape| == 3 && f.shape[0] >= 1 && f.shape[1] >= 1 && f.shape[2] > 9 &&
    |f.data| == f.shape[0] * f.shape[1] * f.shape[2]
  }

  /** An array read as JavaScript does it: `undefined` outside the array. */
  function Read(data: seq<real>, idx: int): (r: Option<real>)
    ensures r.Some? <==> 0 <= idx < |data|
    ensures r.Some? ==> r.value == data[idx]
  {
    if 0 <= idx < |data| then Some(data[idx]) else None
  }

  /** The flat index of boundary j at grid cell (x, y). */
  function CellIndex(shape: seq<nat>, x: int, y: int, j: int): int
    requires |shape| == 3
  {
    j + shape[2] * (y + shape[1] * x)
  }

  /** Positions of the cross-sections that sweep axis `dir`. */
  function Sections(f: Field, dir: nat): (r: seq<int>)
    requires |f.shape| == 3 && dir < 2
    ensures |r| == 14
  {
    Linspace.Linspace(f.shape[dir] as int - 1, WireframeSegments)
  }

  /** Positions sampled across one cross-section that sweeps axis `dir`. */
  function Samples(f: Field, dir: nat): (r: seq<int>)
    requires |f.shape| == 3 && dir < 2
    ensures |r| == 48
  {
    Linspace.Linspace(f.shape[1 - dir] as int - 1, WireframeResolution)
  }

  /**
   * The point at sample k of cross-section i when sweeping axis `dir`, as the
   * three numbers (x, height, y); which of i and k is x depends on `dir`.
   */
  function Point(f: Field, j: int, dir: nat, i: int, k: int): seq<Option<real>>
    requires |f.shape| == 3
  {
    var x := if dir == 0 then i else k;
    var y := if dir == 0 then k else i;
    [Some(x as real), Read(f.data, CellIndex(f.shape, x, y, j)), Some(y as real)]
  }

  /** The point buffer of one cross-section at samples `ks`. */
  function SectionPoints(f: Field, j: int, dir: nat, i: int, ks: seq<int>): (r: seq<Option<real>>)
    requires |f.shape| == 3
    ensures |r| == 3 * |ks|
    decreases |ks|
  {
    if ks == [] then []
    else SectionPoints(f, j, dir, i, ks[..|ks| - 1]) + Point(f, j, dir, i, ks[|ks| - 1])
  }

  /** The points of the cross-sections at positions `cuts` along axis `dir`, one after another. */
  function SweepPoints(f: Field, j: int, dir: nat, cuts: seq<int>): (r: seq<Option<real>>)
    requires |f.shape| == 3 && dir < 2
    ensures |r| == 3 * (48 * |cuts|)
    decreases |cuts|
  {
    if cuts == [] then []
    else SweepPoints(f, j, dir, cuts[..|cuts| - 1]) + SectionPoints(f, j, dir, cuts[|cuts| - 1], Samples(f, dir))
  }

  /** The number of cross-sections of a layer: those of both sweeps. */
  function SectionCount(f: Field): (n: nat)
    requires |f.shape| == 3
    ensures n == 2 * WireframeSegments
  {
    |Sections(f, 0)| + |Sections(f, 1)|
  }

  /** The points of the sweeps of the first `n` axes, one after another. */
  function LayerSweeps(f: Field, j: int, n: nat): (r: seq<Option<real>>)
    requires |f.shape| == 3 && n <= 2
    ensures |r| == 3 * (48 * (14 * n))
  {
    if n == 0 then [] else LayerSweeps(f, j, n - 1) + SweepPoints(f, j, n - 1, Sections(f, n - 1))
  }

  /** The whole point buffer of boundary j: the sweep of axis 0, then that of axis 1. */
  function LayerPoints(f: Field, j: int): (r: seq<Option<real>>)
    requires |f.shape| == 3
    ensures |r| == 3 * (28 * 48)
  {
    LayerSweeps(f, j, 2)
  }

  /** The point buffer of boundary j is the sweep of axis 0 followed by that of axis 1. */
  lemma LayerPointsSplit(f: Field, j: int)
    requires |f.shape| == 3
    ensures LayerPoints(f, j) == SweepPoints(f, j, 0, Sections(f, 0)) + SweepPoints(f, j, 1, Sections(f, 1))
  {
    assert LayerSweeps(f, j, 1) == [] + SweepPoints(f, j, 0, Sections(f, 0));
  }

  /** `count` line records joining points off, off + 1, ..., off + count. */
  function SectionLines(count: nat, off: int): (r: seq<int>)
    ensures |r| == 3 * count
  {
    if count == 0 then []
    else SectionLines(count - 1, off) + [PointsPerSegment, off + count - 1, off + count]
  }

  /** The line buffer of the first `sections` cross-sections of a layer. */
  function LayerLines(sections: nat): (r: seq<int>)
    ensures |r| == 3 * (47 * sections)
  {
    if sections == 0 then []
    else LayerLines(sections - 1) + SectionLines(WireframeResolution - 1, 48 * (sections - 1))
  }

  /** One more sample extends a cross-section's point buffer by that sample's point. */
  lemma SectionPointsStep(f: Field, j: int, dir: nat, i: int, ks: seq<int>, t: nat)
    requires |f.shape| == 3 && t < |ks|
    ensures SectionPoints(f, j, dir, i, ks[..t + 1]) == SectionPoints(f, j, dir, i, ks[..t]) + Point(f, j, dir, i, ks[t])
  {
    assert ks[..t + 1][..t] == ks[..t];
  }

  /** One more cut extends a sweep's point buffer by that cross-section's points. */
  lemma SweepPointsStep(f: Field, j: int, dir: nat, cuts: seq<int>, s: nat)
    requires |f.shape| == 3 && dir < 2 && s < |cuts|
    ensures SweepPoints(f, j, dir, cuts[..s + 1])
         == SweepPoints(f, j, dir, cuts[..s]) + SectionPoints(f, j, dir, cuts[s], Samples(f, dir))
  {
    assert cuts[..s + 1][..s] == cuts[..s];
  }

  /** One more cross-section extends a layer's line buffer by its 47 records. */
  lemma LayerLinesStep(n: nat, offset: int)
    requires offset == 48 * n
    ensures LayerLines(n + 1) == LayerLines(n) + SectionLines(47, offset)
  {
  }

  /** The segment points of one cross-section (the inner sample loop). */
  method BuildSection(f: Field, j: int, dir: nat, i: int) returns (segmentPoints: seq<Option<real>>)
    requires |f.shape| == 3 && dir < 2
    ensures segmentPoints == SectionPoints(f, j, dir, i, Samples(f, dir))
  {
    var ks := Linspace.Linspace(f.shape[1 - dir] as int - 1, WireframeResolution);
    segmentPoints := [];
    for t := 0 to |ks|
      invariant segmentPoints == SectionPoints(f, j, dir, i, ks[..t])
    {
      var k := ks[t];
      var x := if dir == 0 then i else k;
      var y := if dir == 0 then k else i;
      var z := Read(f.data, CellIndex(f.shape, x, y, j));
      segmentPoints := segmentPoints + [Some(x as real), z, Some(y as real)];
      SectionPointsStep(f, j, dir, i, ks, t);
    }
    assert ks[..|ks|] == ks;
  }

  /**
   * The line loop of one cross-section of `nPoints` points starting at point
   * `pointOffset`: one record per pair of consecutive points.
   */
  method AppendLines(lines: seq<int>, pointOffset: int, nPoints: nat) returns (allLines: seq<int>)
    ensures allLines == lines + SectionLines(if nPoints == 0 then 0 else nPoints - 1, pointOffset)
  {
    allLines := lines;
    var l := 0;
    while l < nPoints - 1
      invariant 0 <= l <= if nPoints == 0 then 0 else nPoints - 1
      invariant allLines == lines + SectionLines(l, pointOffset)
    {
      allLines := allLines + [PointsPerSegment, pointOffset + l, pointOffset + l + 1];
      l := l + 1;
    }
  }

  /**
   * One cross-section at position i (the body of the middle loop): its points
   * are appended, then one line record per pair of consecutive points, and
   * the offset moves past the new points.
   */
  method AppendSection(f: Field, j: int, dir: nat, i: int, points: seq<Option<real>>, lines: seq<int>, offset: nat)
    returns (allPoints: seq<Option<real>>, allLines: seq<int>, pointOffset: nat)
    requires |f.shape| == 3 && dir < 2
    ensures allPoints == points + SectionPoints(f, j, dir, i, Samples(f, dir))
    ensures allLines == lines + SectionLines(47, offset)
    ensures pointOffset == offset + 48
  {
    var segmentPoints := BuildSection(f, j, dir, i);
    allPoints := points + segmentPoints;
    var nPoints := |segmentPoints| / 3;
    allLines := AppendLines(lines, offset, nPoints);
    pointOffset := offset + nPoints;
  }

  /**
   * The cross-sections that sweep axis `dir` (the middle loop), appended to
   * the buffers of boundary j. The running `pointOffset` is always the number
   * of points in the buffer, so each line record refers to points of the
   * cross-section just emitted.
   */
  method AppendSweep(f: Field, j: int, dir: nat, points: seq<Option<real>>, lines: seq<int>, offset: nat, ghost done: nat)
    returns (allPoints: seq<Option<real>>, allLines: seq<int>, pointOffset: nat)
    requires |f.shape| == 3 && dir < 2
    requires offset == 48 * done && 3 * offset == |points|
    requires lines == LayerLines(done)
    ensures allPoints == points + SweepPoints(f, j, dir, Sections(f, dir))
    ensures pointOffset == 48 * (done + 14)
    ensures 3 * pointOffset == |allPoints|
    ensures allLines == LayerLines(done + 14)
  {
    allPoints, allLines, pointOffset := points, lines, offset;
    var cuts := Linspace.Linspace(f.shape[dir] as int - 1, WireframeSegments);
    for s := 0 to |cuts|
      invariant allPoints == points + SweepPoints(f, j, dir, cuts[..s])
      invariant pointOffset == offset + 48 * s
      invariant allLines == LayerLines(done + s)
    {
      LayerLinesStep(done + s, pointOffset);
      allPoints, allLines, pointOffset := AppendSection(f, j, dir, cuts[s], allPoints, allLines, pointOffset);
      SweepPointsStep(f, j, dir, cuts, s);
      AppendAssoc(points, SweepPoints(f, j, dir, cuts[..s]), SectionPoints(f, j, dir, cuts[s], Samples(f, dir)));
    }
    assert cuts[..|cuts|] == cuts;
  }

  /** The point and line buffers of boundary j: the sweep of axis 0, then that of axis 1. */
  method BuildLayer(f: Field, j: int) returns (allPoints: seq<Option<real>>, allLines: seq<int>)
    requires |f.shape| == 3
    ensures allPoints == LayerPoints(f, j)
    ensures allLines == LayerLines(SectionCount(f))
  {
    allPoints := [];
    allLines := [];
    var pointOffset := 0;
    for dir := 0 to 2
      invariant allPoints == LayerSweeps(f, j, dir)
      invariant pointOffset == 48 * (14 * dir)
      invariant 3 * pointOffset == |allPoints|
      invariant allLines == LayerLines(14 * dir)
    {
      allPoints, allLines, pointOffset := AppendSweep(f, j, dir, allPoints, allLines, pointOffset, 14 * dir);
    }
  }

  /**
   * Actor `a` draws boundary j of `layers` as `createWireframe` sets it up:
   * visible, with the boundary's buffers and colour, the wireframe opacity
   * and the wireframe line width.
   */
  ghost predicate IsLayerActor(layers: Field, j: int, a: Actor)
    requires |layers.shape| == 3
  {
    j in LayerColors &&
    a.geometry == Polylines(LayerPoints(layers, j), LayerLines(SectionCount(layers))) &&
    a.color == LayerColors[j] && a.opacity == WireframeOpacity && a.lineWidth == WireframeWidth
  }

  /** The body of the boundary loop: the buffers of boundary j drawn by a new actor. */
  method CreateLayerActor(layers: Field, j: int) returns (actor: Actor)
    requires |layers.shape| == 3 && j in LayerColors
    ensures fresh(actor) && IsLayerActor(layers, j, actor) && actor.visible
  {
    var allPoints, allLines := BuildLayer(layers, j);
    actor := new Actor(Polylines(allPoints, allLines), LayerColors[j], WireframeOpacity, WireframeWidth);
  }

  /**
   * `createWireframe(layers)`: one new actor per boundary in `LayerIndices`,
   * keyed by the boundary, a different actor for each.
   */
  method CreateWireframe(layers: Field) returns (layerActors: map<int, Actor>)
    requires |layers.shape| == 3
    ensures forall j :: j in layerActors <==> j in LayerIndices
    ensures forall j :: j in layerActors ==> fresh(layerActors[j]) && IsLayerActor(layers, j, layerActors[j]) && layerActors[j].visible
    ensures forall j, j' :: j in layerActors && j' in layerActors && j != j' ==> layerActors[j] != layerActors[j']
  {
    layerActors := map[];
    var indices := LayerIndices;
    assert forall j :: j in indices ==> j in LayerColors;
    for t := 0 to |indices|
      invariant forall j :: j in layerActors <==> j in indices[..t]
      invariant forall j :: j in layerActors ==> fresh(layerActors[j]) && IsLayerActor(layers, j, layerActors[j]) && layerActors[j].visible
      invariant forall j, j' :: j in layerActors && j' in layerActors && j != j' ==> layerActors[j] != layerActors[j']
    {
      var j := indices[t];
      var actor := CreateLayerActor(layers, j);
      PrefixMembers(indices, t);
      layerActors := layerActors[j := actor];
    }
    PrefixMembers(indices, |indices|);
  }

  /** Concatenation is associative. */
  lemma AppendAssoc<T>(a: seq<T>, b: seq<T>, c: seq<T>)
    ensures (a + b) + c == a + (b + c)
  {
  }

  /** Membership in a prefix of `s` grows by one element at a time; the whole prefix is `s`. */
  lemma PrefixMembers<T>(s: seq<T>, t: nat)
    requires t <= |s|
    ensures t < |s| ==> forall x :: x in s[..t + 1] <==> x in s[..t] || x == s[t]
    ensures t == |s| ==> forall x :: x in s[..t] <==> x in s
  {
    if t < |s| {
      assert s[..t + 1] == s[..t] + [s[t]];
    } else {
      assert s[..t] == s;
    }
  }

  // ---------------------------------------------------------------------------
  // Properties of the buffers

  /** Point t of a cross-section occupies numbers 3t, 3t + 1 and 3t + 2 of its buffer. */
  lemma {:induction false} SectionPointsAt(f: Field, j: int, dir: nat, i: int, ks: seq<int>, t: nat)
    requires |f.shape| == 3 && t < |ks|
    ensures var r, p := SectionPoints(f, j, dir, i, ks), Point(f, j, dir, i, ks[t]);
      r[3 * t] == p[0] && r[3 * t + 1] == p[1] && r[3 * t + 2] == p[2]
    decreases |ks|
  {
    var n := |ks|;
    if t < n - 1 {
      SectionPointsAt(f, j, dir, i, ks[..n - 1], t);
      assert ks[..n - 1][t] == ks[t];
    }
  }

  /** Point t of cross-section s of a sweep sits after the s earlier cross-sections. */
  lemma {:induction false} SweepPointsAt(f: Field, j: int, dir: nat, cuts: seq<int>, s: nat, t: nat)
    requires |f.shape| == 3 && dir < 2 && s < |cuts| && t < 48
    ensures var r, p := SweepPoints(f, j, dir, cuts), Point(f, j, dir, cuts[s], Samples(f, dir)[t]);
      var b := 3 * (48 * s + t);
      r[b] == p[0] && r[b + 1] == p[1] && r[b + 2] == p[2]
    decreases |cuts|
  {
    var n := |cuts|;
    if s < n - 1 {
      SweepPointsAt(f, j, dir, cuts[..n - 1], s, t);
      assert cuts[..n - 1][s] == cuts[s];
    } else {
      SectionPointsAt(f, j, dir, cuts[s], Samples(f, dir), t);
    }
  }

  /**
   * Sample t of cross-section s sweeping axis `dir` is point
   * 48 * (14 * dir + s) + t of the layer buffer: the sweep of axis 0 comes
   * first, then that of axis 1, each cross-section after the earlier ones.
   */
  lemma LayerPointAt(f: Field, j: int, dir: nat, s: nat, t: nat)
    requires |f.shape| == 3 && dir < 2 && s < 14 && t < 48
    ensures var r, p := LayerPoints(f, j), Point(f, j, dir, Sections(f, dir)[s], Samples(f, dir)[t]);
      var b := 3 * (48 * (14 * dir + s) + t);
      r[b] == p[0] && r[b + 1] == p[1] && r[b + 2] == p[2]
  {
    var sweep0, sweep1 := SweepPoints(f, j, 0, Sections(f, 0)), SweepPoints(f, j, 1, Sections(f, 1));
    var r := LayerPoints(f, j);
    LayerPointsSplit(f, j);
    var c := 3 * (48 * s + t);
    SweepPointsAt(f, j, dir, Sections(f, dir), s, t);
    if dir == 0 {
      assert r[c] == sweep0[c] && r[c + 1] == sweep0[c + 1] && r[c + 2] == sweep0[c + 2];
    } else {
      assert |sweep0| == 3 * (48 * 14);
      var b := |sweep0| + c;
      assert r[b] == sweep1[c] && r[b + 1] == sweep1[c + 1] && r[b + 2] == sweep1[c + 2];
    }
  }

  /** Monotonicity of products of naturals, one factor at a time. */
  lemma MulMonotone(a: nat, b: nat, c: nat)
    requires a <= b
    ensures c * a <= c * b
  {
  }

  /**
   * On a valid layer field every index the extractor reads for a drawn
   * boundary is inside the data, at grid cell (x, y) with x < shape[0] and
   * y < shape[1].
   */
  lemma CellIndexInBounds(f: Field, j: int, x: int, y: int)
    requires ValidLayers(f) && j in LayerIndices
    requires 0 <= x < f.shape[0] && 0 <= y < f.shape[1]
    ensures 0 <= CellIndex(f.shape, x, y, j) < |f.data|
  {
    var s0, s1, s2 := f.shape[0], f.shape[1], f.shape[2];
    MulMonotone(x, s0 - 1, s1);
    assert s1 * (s0 - 1) == s1 * s0 - s1;
    var row := y + s1 * x;
    assert 0 <= row <= s1 * s0 - 1;
    MulMonotone(row, s1 * s0 - 1, s2);
    assert s2 * (s1 * s0 - 1) == s2 * (s1 * s0) - s2;
    assert s2 * (s1 * s0) == s0 * s1 * s2;
  }

  /**
   * On a valid layer field every point of a drawn boundary's buffer is
   * (x, height, y) for a grid cell (x, y): sweeping axis 0 the cross-section
   * position is x and the sample is y, sweeping axis 1 the other way round,
   * and the height is the data cell `j + shape[2] * (y + shape[1] * x)`
   * itself, never a read past the end of the data.
   */
  lemma LayerPointOnGrid(f: Field, j: int, dir: nat, s: nat, t: nat)
    requires ValidLayers(f) && j in LayerIndices
    requires dir < 2 && s < 14 && t < 48
    ensures var i, k := Sections(f, dir)[s], Samples(f, dir)[t];
      var x := if dir == 0 then i else k;
      var y := if dir == 0 then k else i;
      var r, b := LayerPoints(f, j), 3 * (48 * (14 * dir + s) + t);
      0 <= x < f.shape[0] && 0 <= y < f.shape[1] &&
      0 <= CellIndex(f.shape, x, y, j) < |f.data| &&
      r[b] == Some(x as real) && r[b + 1] == Some(f.data[CellIndex(f.shape, x, y, j)]) && r[b + 2] == Some(y as real)
  {
    Linspace.LinspaceBounds(f.shape[dir] as int - 1, WireframeSegments);
    Linspace.LinspaceBounds(f.shape[1 - dir] as int - 1, WireframeResolution);
    var i, k := Sections(f, dir)[s], Samples(f, dir)[t];
    var x := if dir == 0 then i else k;
    var y := if dir == 0 then k else i;
    CellIndexInBounds(f, j, x, y);
    LayerPointAt(f, j, dir, s, t);
    assert Point(f, j, dir, i, k) == [Some(x as real), Read(f.data, CellIndex(f.shape, x, y, j)), Some(y as real)];
  }

  /** Record l of a cross-section's lines is [2, off + l, off + l + 1]. */
  lemma {:induction false} SectionLinesAt(count: nat, off: int, l: nat)
    requires l < count
    ensures var r := SectionLines(count, off);
      r[3 * l] == PointsPerSegment && r[3 * l + 1] == off + l && r[3 * l + 2] == off + l + 1
  {
    if l < count - 1 {
      SectionLinesAt(count - 1, off, l);
    }
  }

  /**
   * The line buffer of a layer holds, for each cross-section s, exactly
   * WireframeResolution - 1 records, record l joining points
   * WireframeResolution * s + l and WireframeResolution * s + l + 1.
   */
  lemma {:induction false} LayerLinesAt(sections: nat, s: nat, l: nat)
    requires s < sections && l < 47
    ensures var r, b := LayerLines(sections), 3 * (47 * s + l);
      var a := 48 * s + l;
      r[b] == PointsPerSegment && r[b + 1] == a && r[b + 2] == a + 1
  {
    var prefix := LayerLines(sections - 1);
    var last := SectionLines(WireframeResolution - 1, 48 * (sections - 1));
    assert LayerLines(sections) == prefix + last;
    var b := 3 * (47 * s + l);
    if s < sections - 1 {
      LayerLinesAt(sections - 1, s, l);
      assert b + 2 < |prefix|;
    } else {
      SectionLinesAt(47, 48 * s, l);
      assert b == |prefix| + 3 * l;
    }
  }

  /** Quotient and remainder by the number of records per cross-section. */
  lemma RecordPosition(q: nat) returns (s: nat, l: nat)
    ensures q == 47 * s + l && l < 47
  {
    s, l := q / 47, q % 47;
  }

  /** Ids of the same cross-section have the same quotient by the resolution. */
  lemma SameSection(s: nat, l: nat)
    requires l + 1 < 48
    ensures (48 * s + l) / 48 == s
    ensures (48 * s + l + 1) / 48 == s
  {
  }

  /**
   * Line record q of buffer `r` is [2, a, a + 1]: it joins two consecutive
   * points that both lie in a point buffer of `size` numbers (three per
   * point) and in the same cross-section of 48 points.
   */
  ghost predicate JoinsNeighbours(r: seq<int>, q: nat, size: nat)
    requires 3 * q + 2 < |r|
  {
    r[3 * q] == PointsPerSegment && r[3 * q + 2] == r[3 * q + 1] + 1 &&
    0 <= r[3 * q + 1] && 3 * r[3 * q + 2] + 2 < size &&
    r[3 * q + 1] / 48 == r[3 * q + 2] / 48
  }

  /** Record q of the lines of `sections` cross-sections joins neighbours of one cross-section. */
  lemma LayerLineRecord(sections: nat, q: nat)
    requires q < 47 * sections
    ensures JoinsNeighbours(LayerLines(sections), q, 3 * (48 * sections))
  {
    var s, l := RecordPosition(q);
    LayerLinesAt(sections, s, l);
    SameSection(s, l);
  }

  /**
   * Every line record of a layer is [2, a, a + 1] with both point ids inside
   * the layer's point buffer and in the same cross-section: a line never
   * joins the last point of one cross-section to the first of the next.
   */
  lemma LayerLinesWellFormed(f: Field, j: int)
    requires |f.shape| == 3
    ensures |LayerLines(SectionCount(f))| == 3 * (47 * 28)
    ensures forall q :: 0 <= q < 47 * 28 ==> JoinsNeighbours(LayerLines(SectionCount(f)), q, |LayerPoints(f, j)|)
  {
    var sections := SectionCount(f);
    assert sections == 28 && |LayerPoints(f, j)| == 3 * (48 * sections);
    forall q | 0 <= q < 47 * 28
      ensures JoinsNeighbours(LayerLines(sections), q, |LayerPoints(f, j)|)
    {
      LayerLineRecord(sections, q);
    }
  }
}
