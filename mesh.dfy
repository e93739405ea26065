/**
 * The built-in meshes of src/mesh.rs: a unit cube of six quads, a
 * full-screen quad and an icosahedron, each as positions plus a triangle
 * index list.
 */
module Mesh {
  import opened Slices

  datatype Vec3 = Vec3(x: real, y: real, z: real)

  /** `vector(&corner) - 0.5`: an integer corner as a position, shifted to centre the cube on the origin. */
  function Centred(c: seq<int>): (v: Vec3)
    requires |c| == 3
    ensures v.x + 0.5 == c[0] as real && v.y + 0.5 == c[1] as real && v.z + 0.5 == c[2] as real
  {
    Vec3(c[0] as real - 0.5, c[1] as real - 0.5, c[2] as real - 0.5)
  }

  /** The corners of a face in the order they are emitted, as (a, b) in the face's own plane. */
  const QuadCorners: seq<(int, int)> := [(0, 0), (1, 0), (1, 1), (0, 1)]

  /** Two triangles over the four corners, counter-clockwise in the (a, b) plane. */
  const QuadWinding: seq<nat> := [0, 1, 2, 2, 3, 0]

  // ---------------------------------------------------------------------
  // cube

  /** `let mut c = [x, y, z]; c.rotate_right(k);`, returning the array's contents. */
  method RotatedArray<T>(x: T, y: T, z: T, k: nat) returns (c: seq<T>)
    requires k < 3
    ensures c == RotatedRight([x, y, z], k)
  {
    var arr := new T[] [x, y, z];
    assert arr[..] == [x, y, z];
    RotateRight(arr, k);
    c := arr[..];
  }

  /** Faces 0 to 2 lie on the low side of their axis, faces 3 to 5 on the high side. */
  function Direction(face: nat): (d: int)
    ensures d == -1 || d == 1
  {
    if face < 3 then -1 else 1
  }

  /** Corner j of a face before its rotation: `[(direction + 1) / 2, a, b]`. */
  function Seed(face: nat, j: nat): (c: seq<int>)
    requires j < 4
    ensures |c| == 3
  {
    [(Direction(face) + 1) / 2, QuadCorners[j].0, QuadCorners[j].1]
  }

  /** Integer corner j of a face: its seed rotated right by the face's axis. */
  function Corner(face: nat, j: nat): (c: seq<int>)
    requires j < 4
    ensures |c| == 3
  {
    RotatedRight(Seed(face, j), face % 3)
  }

  /** The first j corners of a face, centred. */
  function FacePositions(face: nat, j: nat): (r: seq<Vec3>)
    requires j <= 4
    ensures |r| == j
  {
    if j == 0 then [] else FacePositions(face, j - 1) + [Centred(Corner(face, j - 1))]
  }

  /** The face's winding: the quad's, reversed on the low faces. */
  function Winding(face: nat): (w: seq<nat>)
    ensures |w| == 6
  {
    if Direction(face) < 0 then Reversed(QuadWinding) else QuadWinding
  }

  /** The first i indices of a face: its winding offset by the four vertices of each earlier face. */
  function FaceIndices(face: nat, i: nat): (r: seq<nat>)
    requires i <= 6
    ensures |r| == i
  {
    if i == 0 then [] else FaceIndices(face, i - 1) + [4 * face + Winding(face)[i - 1]]
  }

  /** Positions of the first n faces. */
  function CubePositions(n: nat): (r: seq<Vec3>)
    ensures |r| == 4 * n
  {
    if n == 0 then [] else CubePositions(n - 1) + FacePositions(n - 1, 4)
  }

  /** Indices of the first n faces. */
  function CubeIndices(n: nat): (r: seq<nat>)
    ensures |r| == 6 * n
  {
    if n == 0 then [] else CubeIndices(n - 1) + FaceIndices(n - 1, 6)
  }

  /**
   * `Mesh::cube`: for each face, extends the positions by its four corners
   * and the indices by its six offset winding entries.
   */
  method Cube() returns (positions: seq<Vec3>, indices: seq<nat>)
    ensures positions == CubePositions(6) && indices == CubeIndices(6)
    ensures |positions| == 24 && |indices| == 36
  {
    positions, indices := [], [];
    for face := 0 to 6
      invariant positions == CubePositions(face) && indices == CubeIndices(face)
    {
      var corners := FaceCorners(face);
      positions := positions + corners;
      var entries := FaceEntries(face);
      indices := indices + entries;
    }
  }

  /** The corner iterator of one face: each corner built in a small array rotated in place. */
  method FaceCorners(face: nat) returns (corners: seq<Vec3>)
    ensures corners == FacePositions(face, 4)
  {
    var direction := if face < 3 then -1 else 1;
    var plane := face % 3;
    corners := [];
    for j := 0 to 4
      invariant corners == FacePositions(face, j)
    {
      var (a, b) := QuadCorners[j];
      var corner := RotatedArray((direction + 1) / 2, a, b, plane);
      corners := corners + [Centred(corner)];
    }
  }

  /** The index iterator of one face: the winding array, reversed in place on a low face, offset by 4 face. */
  method FaceEntries(face: nat) returns (entries: seq<nat>)
    ensures entries == FaceIndices(face, 6)
  {
    var direction := if face < 3 then -1 else 1;
    var winding := new nat[] [0, 1, 2, 2, 3, 0];
    assert winding[..] == QuadWinding;
    if direction < 0 {
      Reverse(winding);
    }
    entries := [];
    for i := 0 to 6
      invariant entries == FaceIndices(face, i)
    {
      entries := entries + [face * 4 + winding[i]];
    }
  }

  /** The low faces wind the quad backwards. */
  lemma WindingValues(face: nat)
    ensures face < 3 ==> Winding(face) == [0, 3, 2, 2, 1, 0]
    ensures face >= 3 ==> Winding(face) == [0, 1, 2, 2, 3, 0]
  {
    if face < 3 {
      assert Reversed(QuadWinding) == [0, 3, 2, 2, 1, 0];
    }
  }

  lemma {:induction false} FaceIndicesAt(face: nat, n: nat, i: nat)
    requires i < n <= 6
    ensures FaceIndices(face, n)[i] == 4 * face + Winding(face)[i]
  {
    if i < n - 1 {
      FaceIndicesAt(face, n - 1, i);
    }
  }

  lemma {:induction false} FacePositionsAt(face: nat, n: nat, j: nat)
    requires j < n <= 4
    ensures FacePositions(face, n)[j] == Centred(Corner(face, j))
  {
    if j < n - 1 {
      FacePositionsAt(face, n - 1, j);
    }
  }

  /**
   * Face f owns indices 6 f to 6 f + 5 of the first n faces (of the cube
   * when n = 6); they name only its own four vertices 4 f to 4 f + 3, in
   * its winding.
   */
  lemma {:induction false} CubeIndicesAt(n: nat, f: nat, i: nat)
    requires f < n && i < 6
    ensures CubeIndices(n)[6 * f + i] == 4 * f + Winding(f)[i]
    ensures 4 * f <= CubeIndices(n)[6 * f + i] <= 4 * f + 3
  {
    WindingValues(f);
    if f < n - 1 {
      CubeIndicesAt(n - 1, f, i);
    } else {
      FaceIndicesAt(f, 6, i);
      assert CubeIndices(n)[6 * f + i] == FaceIndices(f, 6)[i];
    }
  }

  /** Corner j of face f is at 4 f + j in the first n faces (of the cube when n = 6). */
  lemma {:induction false} CubePositionsAt(n: nat, f: nat, j: nat)
    requires f < n && j < 4
    ensures CubePositions(n)[4 * f + j] == Centred(Corner(f, j))
  {
    if f < n - 1 {
      CubePositionsAt(n - 1, f, j);
    } else {
      FacePositionsAt(f, 4, j);
      assert CubePositions(n)[4 * f + j] == FacePositions(f, 4)[j];
    }
  }

  /**
   * Before the shift every corner of face f is in {0, 1}^3; coordinate
   * f mod 3 is 0 on the low faces and 1 on the high ones, and the other two
   * coordinates, in cyclic order, are the corner's (a, b).
   */
  lemma CubeCorner(f: nat, j: nat)
    requires f < 6 && j < 4
    ensures forall k | 0 <= k < 3 :: Corner(f, j)[k] == 0 || Corner(f, j)[k] == 1
    ensures Corner(f, j)[f % 3] == if f < 3 then 0 else 1
    ensures Corner(f, j)[(f % 3 + 1) % 3] == QuadCorners[j].0
    ensures Corner(f, j)[(f % 3 + 2) % 3] == QuadCorners[j].1
  {
    CornerTriple(f, j);
  }

  /** Corner j of face f with the rotation written out. */
  lemma CornerTriple(f: nat, j: nat)
    requires j < 4
    ensures var c, a, b := (Direction(f) + 1) / 2, QuadCorners[j].0, QuadCorners[j].1;
      Corner(f, j) == if f % 3 == 0 then [c, a, b] else if f % 3 == 1 then [b, c, a] else [a, b, c]
  {
    RotatedRightTriple(Seed(f, j), f % 3);
  }

  /** The cross product of two integer vectors. */
  function Cross(u: seq<int>, v: seq<int>): (w: seq<int>)
    requires |u| == 3 && |v| == 3
    ensures |w| == 3
  {
    [u[1] * v[2] - u[2] * v[1], u[2] * v[0] - u[0] * v[2], u[0] * v[1] - u[1] * v[0]]
  }

  function Minus(u: seq<int>, v: seq<int>): (w: seq<int>)
    requires |u| == 3 && |v| == 3
    ensures |w| == 3
  {
    [u[0] - v[0], u[1] - v[1], u[2] - v[2]]
  }

  /** The normal of triangle t of face f, from its corners in winding order. */
  function TriangleNormal(f: nat, t: nat): seq<int>
    requires t < 2
  {
    var w := Winding(f);
    var p, q, r := Corner(f, w[3 * t]), Corner(f, w[3 * t + 1]), Corner(f, w[3 * t + 2]);
    Cross(Minus(q, p), Minus(r, p))
  }

  /** The unit vector out of face f: along its axis, towards its side. */
  function Outward(f: nat): (n: seq<int>)
    ensures |n| == 3
  {
    RotatedRight([Direction(f), 0, 0], f % 3)
  }

  /** Rotating both vectors rotates their difference and their cross product. */
  lemma RotationCommutes(u: seq<int>, v: seq<int>, k: nat)
    requires |u| == 3 && |v| == 3 && k < 3
    ensures Minus(RotatedRight(u, k), RotatedRight(v, k)) == RotatedRight(Minus(u, v), k)
    ensures Cross(RotatedRight(u, k), RotatedRight(v, k)) == RotatedRight(Cross(u, v), k)
  {
    RotatedRightTriple(u, k);
    RotatedRightTriple(v, k);
    RotatedRightTriple(Minus(u, v), k);
    RotatedRightTriple(Cross(u, v), k);
  }

  /** Twice the signed area of triangle t of a winding over the quad's (a, b) corners. */
  function QuadArea(w: seq<nat>, t: nat): int
    requires |w| == 6 && t < 2
    requires forall i | 0 <= i < 6 :: w[i] < 4
  {
    var p, q, r := QuadCorners[w[3 * t]], QuadCorners[w[3 * t + 1]], QuadCorners[w[3 * t + 2]];
    (q.0 - p.0) * (r.1 - p.1) - (q.1 - p.1) * (r.0 - p.0)
  }

  /** Both triangles of the quad's winding turn counter-clockwise, both of the reversed one clockwise. */
  lemma QuadAreas(t: nat)
    requires t < 2
    ensures forall i | 0 <= i < 6 :: QuadWinding[i] < 4 && Reversed(QuadWinding)[i] < 4
    ensures QuadArea(QuadWinding, t) == 1 && QuadArea(Reversed(QuadWinding), t) == -1
  {
    assert Reversed(QuadWinding) == [0, 3, 2, 2, 1, 0];
  }

  /** The normal of a triangle of seeds, which share their first coordinate, is its (a, b) area along the first axis. */
  lemma SeedNormal(f: nat, t: nat)
    requires t < 2
    ensures forall i | 0 <= i < 6 :: Winding(f)[i] < 4
    ensures var w := Winding(f);
      Cross(Minus(Seed(f, w[3 * t + 1]), Seed(f, w[3 * t])), Minus(Seed(f, w[3 * t + 2]), Seed(f, w[3 * t])))
        == [QuadArea(w, t), 0, 0]
  {
    QuadAreas(t);
  }

  /** Both triangles of every face wind counter-clockwise seen from outside the cube. */
  lemma CubeFacesOutward(f: nat, t: nat)
    requires t < 2
    ensures TriangleNormal(f, t) == Outward(f)
  {
    SeedNormal(f, t);
    QuadAreas(t);
    var w := Winding(f);
    var p, q, r := Seed(f, w[3 * t]), Seed(f, w[3 * t + 1]), Seed(f, w[3 * t + 2]);
    RotationCommutes(q, p, f % 3);
    RotationCommutes(r, p, f % 3);
    RotationCommutes(Minus(q, p), Minus(r, p), f % 3);
  }

  // ---------------------------------------------------------------------
  // quad

  /** `Mesh::quad`: the square [-1, 1]^2 at z = 0. */
  function Quad(): (r: (seq<Vec3>, seq<nat>))
  {
    ([Vec3(-1.0, -1.0, 0.0), Vec3(1.0, -1.0, 0.0), Vec3(1.0, 1.0, 0.0), Vec3(-1.0, 1.0, 0.0)],
     [0, 1, 2, 2, 3, 0])
  }

  /**
   * The quad has four corners at z = 0, each coordinate -1 or 1, and its
   * six indices name only them, in the winding of the cube's high faces.
   */
  lemma QuadShape()
    ensures |Quad().0| == 4 && |Quad().1| == 6
    ensures forall k | 0 <= k < 4 :: Quad().0[k].z == 0.0
    ensures forall k | 0 <= k < 4 :: Quad().0[k].x in {-1.0, 1.0} && Quad().0[k].y in {-1.0, 1.0}
    ensures forall i | 0 <= i < 6 :: Quad().1[i] < 4
    ensures Quad().1 == Winding(3)
  {
  }

  // ---------------------------------------------------------------------
  // icosahedron

  /**
   * A coordinate of an icosahedron vertex, kept symbolic: `a * scale` or
   * `b * t` with the sign a or b, or the literal 0. The values of scale and
   * t (radius / -1.49 and that times the golden ratio) are floating point.
   */
  datatype IcoCoord = Zero | Scale(sign: int) | Golden(sign: int)

  /** Vertex (i, k): `[a * scale, b * t, 0]` rotated right by k, with a, b the signs from bits 1 and 0 of i. */
  function IcoVertex(i: nat, k: nat): (v: seq<IcoCoord>)
    requires k < 3
    ensures |v| == 3
  {
    RotatedRight([Scale(i / 2 % 2 * 2 - 1), Golden(i % 2 * 2 - 1), Zero], k)
  }

  /** The index table, one triple per triangle. */
  const IcoTriangles: seq<(nat, nat, nat)> := [
    (0, 1, 2), (0, 2, 8), (0, 8, 4), (0, 4, 6), (0, 6, 1), (9, 7, 5), (9, 3, 7), (9, 10, 3), (9, 11, 10), (9, 5, 11),
    (1, 7, 2), (2, 3, 8), (8, 10, 4), (4, 11, 6), (6, 5, 1), (7, 1, 5), (3, 2, 7), (10, 8, 3), (11, 4, 10), (5, 6, 11)
  ]

  /** Triangles laid out as a flat index list. */
  function Flat(ts: seq<(nat, nat, nat)>): (r: seq<nat>)
    ensures |r| == 3 * |ts|
  {
    if |ts| == 0 then [] else var t := ts[|ts| - 1]; Flat(ts[..|ts| - 1]) + [t.0, t.1, t.2]
  }

  /** Triangle t occupies entries 3 t to 3 t + 2 of the flat list. */
  lemma {:induction false} FlatAt(ts: seq<(nat, nat, nat)>, t: nat)
    requires t < |ts|
    ensures Flat(ts)[3 * t] == ts[t].0 && Flat(ts)[3 * t + 1] == ts[t].1 && Flat(ts)[3 * t + 2] == ts[t].2
  {
    var n := |ts| - 1;
    if t < n {
      FlatAt(ts[..n], t);
      assert ts[..n][t] == ts[t];
    }
  }

  /**
   * `Mesh::icosahedron`: pushes the vertices from a coordinate array
   * rotated in place, then returns the constant index table.
   */
  method Icosahedron() returns (positions: seq<seq<IcoCoord>>, indices: seq<nat>)
    ensures |positions| == 12
    ensures forall v | 0 <= v < 12 :: positions[v] == IcoVertex(v / 3, v % 3)
    ensures indices == Flat(IcoTriangles)
  {
    positions := [];
    for i := 0 to 4
      invariant |positions| == 3 * i
      invariant forall v | 0 <= v < |positions| :: positions[v] == IcoVertex(v / 3, v % 3)
    {
      var a := i / 2 % 2 * 2 - 1;
      var b := i % 2 * 2 - 1;
      for k := 0 to 3
        invariant |positions| == 3 * i + k
        invariant forall v | 0 <= v < |positions| :: positions[v] == IcoVertex(v / 3, v % 3)
      {
        var coords := RotatedArray(Scale(a), Golden(b), Zero, k);
        assert (3 * i + k) / 3 == i && (3 * i + k) % 3 == k;
        positions := positions + [coords];
      }
    }
    indices := Flat(IcoTriangles);
  }

  /**
   * Vertex (i, k) has its zero at coordinate (k + 2) mod 3, `a * scale` at
   * k and `b * t` at (k + 1) mod 3, each sign -1 or 1; the four sign pairs
   * are all different.
   */
  lemma IcoVertexShape(i: nat, k: nat)
    requires i < 4 && k < 3
    ensures IcoVertex(i, k)[(k + 2) % 3] == Zero
    ensures IcoVertex(i, k)[k] == Scale(if i < 2 then -1 else 1)
    ensures IcoVertex(i, k)[(k + 1) % 3] == Golden(if i % 2 == 0 then -1 else 1)
  {
    var s := [Scale(i / 2 % 2 * 2 - 1), Golden(i % 2 * 2 - 1), Zero];
    RotatedRightAt(s, k, 0);
    RotatedRightAt(s, k, 1);
    RotatedRightAt(s, k, 2);
  }

  /**
   * Sixty indices in twenty triangles; each triangle names three distinct
   * vertices among the twelve.
   */
  lemma IcoIndicesProper(t: nat)
    requires t < 20
    ensures |Flat(IcoTriangles)| == 60
    ensures var r := Flat(IcoTriangles);
      r[3 * t] < 12 && r[3 * t + 1] < 12 && r[3 * t + 2] < 12 &&
      r[3 * t] != r[3 * t + 1] && r[3 * t + 1] != r[3 * t + 2] && r[3 * t + 2] != r[3 * t]
  {
    FlatAt(IcoTriangles, t);
  }
}
