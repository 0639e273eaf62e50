/** The river's geometry (src/components/game/3d/River.tsx): the path of
    51 points across the world, and the position, texture-coordinate and
    triangle-index buffers built from it. The sine-shaped offset and width
    of the path and the vector normalisation are parameters. */
module River {

  const Segments: nat := 50

  /** A point of the river's centre line, with its half-width. */
  datatype PathPoint = PathPoint(x: real, z: real, width: real)

  datatype Vec2 = Vec2(x: real, y: real)

  /** `(t - 0.5) * worldSize * 0.8` with `t = i / segments`. */
  function PathX(i: nat, worldSize: real): real
  {
    ((i as real) / (Segments as real) - 0.5) * worldSize * 0.8
  }

  /** riverPath: the loop `for (let i = 0; i <= segments; i++)`. The offset
      `zAt(t, worldSize)` and the width `widthAt(t)` stand for the source's
      sums of sines. */
  method RiverPath(worldSize: real, zAt: (real, real) -> real, widthAt: real -> real)
    returns (points: seq<PathPoint>)
    ensures |points| == Segments + 1
    ensures forall i :: 0 <= i < |points| ==>
      var t := (i as real) / (Segments as real);
      points[i] == PathPoint(PathX(i, worldSize), zAt(t, worldSize), widthAt(t))
  {
    points := [];
    var i := 0;
    while i <= Segments
      invariant 0 <= i <= Segments + 1
      invariant |points| == i
      invariant forall j :: 0 <= j < i ==>
        var t := (j as real) / (Segments as real);
        points[j] == PathPoint(PathX(j, worldSize), zAt(t, worldSize), widthAt(t))
    {
      var t := (i as real) / (Segments as real);
      points := points + [PathPoint(PathX(i, worldSize), zAt(t, worldSize), widthAt(t))];
      i := i + 1;
    }
  }

  /** The path runs from -0.4 to +0.4 world sizes, strictly left to right
      when the world has a positive size. */
  lemma PathXIncreasing(i: nat, j: nat, worldSize: real)
    requires worldSize > 0.0 && i < j
    ensures PathX(i, worldSize) < PathX(j, worldSize)
    ensures PathX(0, worldSize) == -0.4 * worldSize && PathX(Segments, worldSize) == 0.4 * worldSize
  {
    var ti := (i as real) / (Segments as real);
    var tj := (j as real) / (Segments as real);
    assert ti < tj;
    assert (ti - 0.5) * (worldSize * 0.8) < (tj - 0.5) * (worldSize * 0.8);
  }

  /** The side vector at point `i`: the normalised direction to the next
      point (to itself for the last point), turned a quarter. */
  function Perpendicular(path: seq<PathPoint>, i: nat, normalize: (real, real) -> Vec2): Vec2
    requires i < |path|
  {
    var p := path[i];
    var next := if i + 1 < |path| then path[i + 1] else p;
    var dir := normalize(next.x - p.x, next.z - p.z);
    Vec2(-dir.y, dir.x)
  }

  const RiverY: real := -0.1

  /** The left vertex of point `i`: half a width along the side vector. */
  function LeftVertex(path: seq<PathPoint>, i: nat, normalize: (real, real) -> Vec2): seq<real>
    requires i < |path|
  {
    var p := path[i];
    var n := Perpendicular(path, i, normalize);
    [p.x + n.x * p.width, RiverY, p.z + n.y * p.width]
  }

  /** The right vertex of point `i`: half a width against the side vector. */
  function RightVertex(path: seq<PathPoint>, i: nat, normalize: (real, real) -> Vec2): seq<real>
    requires i < |path|
  {
    var p := path[i];
    var n := Perpendicular(path, i, normalize);
    [p.x - n.x * p.width, RiverY, p.z - n.y * p.width]
  }

  /** The six coordinates point `i` pushes: its left vertex, then its right. */
  function VertexPair(path: seq<PathPoint>, i: nat, normalize: (real, real) -> Vec2): (r: seq<real>)
    requires i < |path|
    ensures |r| == 6
  {
    LeftVertex(path, i, normalize) + RightVertex(path, i, normalize)
  }

  /** The position buffer after the first `k` points. */
  function Positions(path: seq<PathPoint>, k: nat, normalize: (real, real) -> Vec2): (r: seq<real>)
    requires k <= |path|
    ensures |r| == 6 * k
  {
    if k == 0 then [] else Positions(path, k - 1, normalize) + VertexPair(path, k - 1, normalize)
  }

  /** The two uv pairs of point `i` of `n`: (0, i/n) then (1, i/n). */
  function UvPair(i: nat, n: nat): seq<real>
  {
    var v := if n == 0 then 0.0 else (i as real) / (n as real);
    [0.0, v, 1.0, v]
  }

  /** The uv buffer after the first `k` points of `n`. */
  function Uvs(k: nat, n: nat): (r: seq<real>)
    ensures |r| == 4 * k
  {
    if k == 0 then [] else Uvs(k - 1, n) + UvPair(k - 1, n)
  }

  /** The two triangles of segment `i`, between points `i` and `i + 1`. */
  function Segment(i: nat): seq<int>
  {
    var b := 2 * i;
    [b, b + 1, b + 2, b + 1, b + 3, b + 2]
  }

  /** The index buffer holding the first `m` segments. */
  function Triangles(m: nat): (r: seq<int>)
  {
    if m == 0 then [] else Triangles(m - 1) + Segment(m - 1)
  }

  /** How many segments the first `i` points of `n` have emitted: one for
      each point but the last. */
  function SegmentsBefore(i: nat, n: nat): nat
  {
    if i + 1 <= n then i else if n >= 1 then n - 1 else 0
  }

  /** The two `positions.push` calls of point `i`. */
  method PushVertices(positions: seq<real>, path: seq<PathPoint>, i: nat, normalize: (real, real) -> Vec2)
    returns (r: seq<real>)
    requires i < |path|
    ensures r == positions + VertexPair(path, i, normalize)
  {
    var p := path[i];
    var next := if i + 1 < |path| then path[i + 1] else p;
    var dir := normalize(next.x - p.x, next.z - p.z);
    var perp := Vec2(-dir.y, dir.x);
    assert perp == Perpendicular(path, i, normalize);
    var left := [p.x + perp.x * p.width, RiverY, p.z + perp.y * p.width];
    var right := [p.x - perp.x * p.width, RiverY, p.z - perp.y * p.width];
    assert left == LeftVertex(path, i, normalize) && right == RightVertex(path, i, normalize);
    r := positions + left;
    r := r + right;
  }

  /** The two `uvs.push` calls of point `i` of `n`. */
  method PushUvs(uvs: seq<real>, i: nat, n: nat) returns (r: seq<real>)
    requires i < n
    ensures r == uvs + UvPair(i, n)
  {
    var v := (i as real) / (n as real);
    r := uvs + [0.0, v];
    r := r + [1.0, v];
  }

  /** The two `indices.push` calls of segment `i`. */
  method PushSegment(indices: seq<int>, i: nat) returns (r: seq<int>)
    ensures r == indices + Segment(i)
  {
    var base := i * 2;
    r := indices + [base, base + 1, base + 2];
    r := r + [base + 1, base + 3, base + 2];
  }

  /** The forEach over the path: every point pushes two vertices and two
      uv pairs, and every point but the last pushes the six indices of the
      segment to the next one. */
  method BuildGeometry(path: seq<PathPoint>, normalize: (real, real) -> Vec2)
    returns (positions: seq<real>, uvs: seq<real>, indices: seq<int>)
    ensures positions == Positions(path, |path|, normalize)
    ensures uvs == Uvs(|path|, |path|)
    ensures indices == Triangles(SegmentsBefore(|path|, |path|))
  {
    positions, uvs, indices := [], [], [];
    var n := |path|;
    var i := 0;
    while i < n
      invariant 0 <= i <= n
      invariant positions == Positions(path, i, normalize)
      invariant uvs == Uvs(i, n)
      invariant indices == Triangles(SegmentsBefore(i, n))
    {
      positions := PushVertices(positions, path, i, normalize);
      uvs := PushUvs(uvs, i, n);
      if i < n - 1 {
        indices := PushSegment(indices, i);
      }
      i := i + 1;
    }
  }

  /** The index buffer of `m` segments: 6m entries, segment `i` at offset
      6i, and every entry a vertex of the first m + 1 points. */
  lemma {:induction false} TrianglesLayout(m: nat)
    ensures |Triangles(m)| == 6 * m
    ensures forall k :: 0 <= k < |Triangles(m)| ==> 0 <= Triangles(m)[k] < 2 * m + 2
    ensures forall i, j :: 0 <= i < m && 0 <= j < 6 ==> Triangles(m)[6 * i + j] == Segment(i)[j]
  {
    if m > 0 {
      TrianglesLayout(m - 1);
      var prev := Triangles(m - 1);
      var r := Triangles(m);
      assert r == prev + Segment(m - 1);
      forall i, j | 0 <= i < m && 0 <= j < 6 ensures r[6 * i + j] == Segment(i)[j] {
        if i < m - 1 {
          assert 6 * i + j < 6 * (m - 1);
          assert r[6 * i + j] == prev[6 * i + j];
        } else {
          assert 6 * i + j == 6 * (m - 1) + j;
        }
      }
    }
  }

  /** For a path of `n` points: 6(n - 1) indices, each naming one of the 2n
      vertices, so the buffer fits a Uint16Array as long as the path has at
      most 32768 points. */
  lemma IndexBufferFits(n: nat)
    requires n >= 1
    ensures var ix := Triangles(SegmentsBefore(n, n));
      && |ix| == 6 * (n - 1)
      && (forall k :: 0 <= k < |ix| ==> 0 <= ix[k] < 2 * n)
      && (n <= 32768 ==> forall k :: 0 <= k < |ix| ==> ix[k] < 65536)
  {
    TrianglesLayout(n - 1);
  }

  /** The position buffer holds 6 coordinates per point, the left vertex of
      point i at offset 6i and the right at 6i + 3, all at height -0.1. */
  lemma {:induction false} PositionsLayout(path: seq<PathPoint>, k: nat, normalize: (real, real) -> Vec2)
    requires k <= |path|
    ensures forall i, j :: 0 <= i < k && 0 <= j < 6 ==>
      Positions(path, k, normalize)[6 * i + j] == VertexPair(path, i, normalize)[j]
    ensures forall i :: 0 <= i < k ==>
      Positions(path, k, normalize)[6 * i + 1] == RiverY && Positions(path, k, normalize)[6 * i + 4] == RiverY
  {
    if k > 0 {
      PositionsLayout(path, k - 1, normalize);
      var prev := Positions(path, k - 1, normalize);
      var r := Positions(path, k, normalize);
      forall i, j | 0 <= i < k && 0 <= j < 6 ensures r[6 * i + j] == VertexPair(path, i, normalize)[j] {
        if i < k - 1 {
          assert r[6 * i + j] == prev[6 * i + j];
        } else {
          assert 6 * i + j == 6 * (k - 1) + j;
        }
      }
      forall i | 0 <= i < k ensures r[6 * i + 1] == RiverY && r[6 * i + 4] == RiverY {
        assert r[6 * i + 1] == VertexPair(path, i, normalize)[1];
        assert r[6 * i + 4] == VertexPair(path, i, normalize)[4];
      }
    }
  }

  /** Normalising the zero vector gives the zero vector (three.js divides by
      `length() || 1`), so the last point, whose "next" point is itself,
      puts both of its vertices on the centre line: the river ends in a
      point. */
  lemma LastPointPinched(path: seq<PathPoint>, normalize: (real, real) -> Vec2)
    requires |path| >= 1 && normalize(0.0, 0.0) == Vec2(0.0, 0.0)
    ensures var last := path[|path| - 1];
      var pair := VertexPair(path, |path| - 1, normalize);
      pair[0] == pair[3] == last.x && pair[2] == pair[5] == last.z
  {
  }

  /** i / n lies in [0, 1) for i < n. */
  lemma UnitFraction(i: nat, n: nat)
    requires i < n
    ensures 0.0 <= (i as real) / (n as real) < 1.0
  {
  }

  /** The uv buffer: (0, v) then (1, v) for each point, with v = i/n in
      [0, 1); the last row sits at (n - 1)/n, short of 1. */
  lemma {:induction false} UvsLayout(k: nat, n: nat)
    requires k <= n
    ensures forall i :: 0 <= i < k ==>
      && Uvs(k, n)[4 * i] == 0.0 && Uvs(k, n)[4 * i + 2] == 1.0
      && Uvs(k, n)[4 * i + 1] == Uvs(k, n)[4 * i + 3] == (i as real) / (n as real)
      && 0.0 <= Uvs(k, n)[4 * i + 1] < 1.0
  {
    if k > 0 {
      UvsLayout(k - 1, n);
      var prev := Uvs(k - 1, n);
      var r := Uvs(k, n);
      forall i | 0 <= i < k
        ensures r[4 * i] == 0.0 && r[4 * i + 2] == 1.0
        ensures r[4 * i + 1] == r[4 * i + 3] == (i as real) / (n as real)
        ensures 0.0 <= r[4 * i + 1] < 1.0
      {
        if i < k - 1 {
          assert r[4 * i] == prev[4 * i] && r[4 * i + 1] == prev[4 * i + 1];
          assert r[4 * i + 2] == prev[4 * i + 2] && r[4 * i + 3] == prev[4 * i + 3];
        } else {
          assert r[4 * i..4 * i + 4] == UvPair(i, n);
          UnitFraction(i, n);
        }
      }
    }
  }

  /** The points with an index that is a multiple of `k`, in path order
      (`riverPath.filter((_, i) => i % k === 0)`). */
  function EveryNth(path: seq<PathPoint>, k: nat): (r: seq<PathPoint>)
    requires k >= 1
    ensures |r| <= |path|
  {
    if path == [] then []
    else EveryNth(path[..|path| - 1], k) + (if (|path| - 1) % k == 0 then [path[|path| - 1]] else [])
  }

  lemma {:induction false} MulAtLeast(a: int, k: int)
    requires a >= 1 && k >= 1
    ensures a * k >= k
  {
    if a > 1 {
      MulAtLeast(a - 1, k);
      assert a * k == (a - 1) * k + k;
    }
  }

  /** Euclidean division is determined by quotient and remainder. */
  lemma DivUnique(x: int, k: int, q: int, r: int)
    requires k >= 1 && 0 <= r < k && x == q * k + r
    ensures x / k == q
  {
    var q' := x / k;
    var r' := x % k;
    assert x == q' * k + r' && 0 <= r' < k;
    if q > q' {
      MulAtLeast(q - q', k);
    } else if q < q' {
      MulAtLeast(q' - q, k);
    }
  }

  /** One more point adds one to ceil(m / k) exactly when the new point's
      index `m` is a multiple of `k`. */
  lemma CeilStep(m: nat, k: nat)
    requires k >= 1
    ensures (m + k) / k == (m + k - 1) / k + (if m % k == 0 then 1 else 0)
  {
    var q := m / k;
    var rem := m % k;
    assert m == q * k + rem;
    if rem == 0 {
      DivUnique(m + k - 1, k, q, k - 1);
      DivUnique(m + k, k, q + 1, 0);
    } else {
      DivUnique(m + k - 1, k, q + 1, rem - 1);
      DivUnique(m + k, k, q + 1, rem);
    }
  }

  /** Of `n` points, ceil(n / k) are picked. */
  lemma {:induction false} EveryNthCount(path: seq<PathPoint>, k: nat)
    requires k >= 1
    ensures |EveryNth(path, k)| == (|path| + k - 1) / k
  {
    if path != [] {
      var n := |path|;
      EveryNthCount(path[..n - 1], k);
      assert |EveryNth(path, k)| == |EveryNth(path[..n - 1], k)| + (if (n - 1) % k == 0 then 1 else 0);
      CeilStep(n - 1, k);
    }
  }

  /** Along the 51-point path there are 11 rocks (every 5th point) and 7
      patches of foam (every 8th). */
  lemma RocksAndFoam(path: seq<PathPoint>)
    requires |path| == Segments + 1
    ensures |EveryNth(path, 5)| == 11
    ensures |EveryNth(path, 8)| == 7
  {
    EveryNthCount(path, 5);
    EveryNthCount(path, 8);
  }
}
