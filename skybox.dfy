/**
 * The skybox cube of archi/src/skybox.rs and src/skybox.rs (the same loop in
 * both): 24 vertices and 36 indices built face by face, and the view matrix
 * with its translation removed.
 */
module Skybox {
  import opened Slices
  import opened Seqs

  /** A cube vertex: its position, each coordinate -1 or 1 (exact in f32), and its uv. */
  datatype CubeVertex = CubeVertex(position: seq<int>, uv: (int, int))

  /**
   * Position of corner (x, y) of face (dimension, z): `[2x - 1, 2y - 1,
   * 2z - 1]` rotated left by the dimension, then reversed when z is 1.
   */
  function Position(dimension: nat, z: nat, x: nat, y: nat): (p: seq<int>)
    requires dimension < 3
    ensures |p| == 3
  {
    var p := RotatedLeft([x * 2 - 1, y * 2 - 1, z * 2 - 1], dimension);
    if z != 0 then Reversed(p) else p
  }

  /** The first m corners of face (dimension, z), x outer and y inner. */
  function FaceVertices(dimension: nat, z: nat, m: nat): (r: seq<CubeVertex>)
    requires dimension < 3 && m <= 4
    ensures |r| == m
  {
    if m == 0 then []
    else
      var x, y := (m - 1) / 2, (m - 1) % 2;
      FaceVertices(dimension, z, m - 1) + [CubeVertex(Position(dimension, z, x, y), (x, y))]
  }

  /** The vertices of the first z faces of a dimension. */
  function SideVertices(dimension: nat, z: nat): (r: seq<CubeVertex>)
    requires dimension < 3 && z <= 2
    ensures |r| == 4 * z
  {
    if z == 0 then [] else SideVertices(dimension, z - 1) + FaceVertices(dimension, z - 1, 4)
  }

  /** The vertices of the first d dimensions, both faces of each. */
  function Vertices(d: nat): (r: seq<CubeVertex>)
    requires d <= 3
    ensures |r| == 8 * d
  {
    if d == 0 then [] else Vertices(d - 1) + SideVertices(d - 1, 2)
  }

  /** The two triangles of the face whose first vertex is n. */
  function FaceIndices(n: nat): (r: seq<nat>)
    ensures |r| == 6
  {
    [n, 1 + n, 2 + n, 1 + n, 2 + n, 3 + n]
  }

  /** The indices of the first z faces of a dimension: face (dimension, z) starts at vertex 4 (2 dimension + z). */
  function SideIndices(dimension: nat, z: nat): (r: seq<nat>)
    requires z <= 2
    ensures |r| == 6 * z
  {
    if z == 0 then [] else SideIndices(dimension, z - 1) + FaceIndices(4 * (2 * dimension + z - 1))
  }

  /** The indices of the first d dimensions. */
  function Indices(d: nat): (r: seq<nat>)
    ensures |r| == 12 * d
  {
    if d == 0 then [] else Indices(d - 1) + SideIndices(d - 1, 2)
  }

  /** `let mut position = [..]; position.rotate_left(dimension); if z != 0 { position.reverse(); }` */
  method CornerPosition(dimension: nat, z: nat, x: nat, y: nat) returns (p: seq<int>)
    requires dimension < 3
    ensures p == Position(dimension, z, x, y)
  {
    var position := new int[] [x * 2 - 1, y * 2 - 1, z * 2 - 1];
    assert position[..] == [x * 2 - 1, y * 2 - 1, z * 2 - 1];
    RotateLeft(position, dimension);
    if z != 0 {
      Reverse(position);
    }
    p := position[..];
  }

  /**
   * The generation loop of `Skybox::new`: dimension, z, x and y nested; each
   * face pushes its four corners, then the two triangles over them starting
   * at the vertex count n read before the corners were pushed.
   */
  method CubeMesh() returns (vertices: seq<CubeVertex>, indices: seq<nat>)
    ensures vertices == Vertices(3) && indices == Indices(3)
    ensures |vertices| == 24 && |indices| == 36
  {
    vertices, indices := [], [];
    for dimension := 0 to 3
      invariant vertices == Vertices(dimension) && indices == Indices(dimension)
    {
      vertices, indices := DimensionFaces(dimension, vertices, indices);
    }
  }

  /** The z loop of one dimension: both its faces appended to the lists so far. */
  method DimensionFaces(dimension: nat, vertices0: seq<CubeVertex>, indices0: seq<nat>)
    returns (vertices: seq<CubeVertex>, indices: seq<nat>)
    requires dimension < 3 && |vertices0| == 8 * dimension
    ensures vertices == vertices0 + SideVertices(dimension, 2)
    ensures indices == indices0 + SideIndices(dimension, 2)
  {
    vertices, indices := vertices0, indices0;
    for z := 0 to 2
      invariant vertices == vertices0 + SideVertices(dimension, z)
      invariant indices == indices0 + SideIndices(dimension, z)
    {
      var n: nat := |vertices|;
      var corners := FaceCorners(dimension, z);
      SideVerticesStep(dimension, z, vertices0, vertices);
      SideIndicesStep(dimension, z, indices0, indices, n);
      vertices := vertices + corners;
      indices := indices + FaceIndices(n);
    }
  }

  /** One pass of the z loop extends the vertex list by face (dimension, z). */
  lemma SideVerticesStep(dimension: nat, z: nat, vertices0: seq<CubeVertex>, vertices: seq<CubeVertex>)
    requires dimension < 3 && z < 2 && vertices == vertices0 + SideVertices(dimension, z)
    ensures vertices + FaceVertices(dimension, z, 4) == vertices0 + SideVertices(dimension, z + 1)
  {
    assert SideVertices(dimension, z + 1) == SideVertices(dimension, z) + FaceVertices(dimension, z, 4);
  }

  /** One pass of the z loop extends the index list by face (dimension, z), whose first corner is n. */
  lemma SideIndicesStep(dimension: nat, z: nat, indices0: seq<nat>, indices: seq<nat>, n: nat)
    requires z < 2 && indices == indices0 + SideIndices(dimension, z) && n == 4 * (2 * dimension + z)
    ensures indices + FaceIndices(n) == indices0 + SideIndices(dimension, z + 1)
  {
    assert SideIndices(dimension, z + 1) == SideIndices(dimension, z) + FaceIndices(n);
  }

  /** The x and y loops of one face: its four corners in order. */
  method FaceCorners(dimension: nat, z: nat) returns (corners: seq<CubeVertex>)
    requires dimension < 3
    ensures corners == FaceVertices(dimension, z, 4)
  {
    corners := [];
    for x := 0 to 2
      invariant corners == FaceVertices(dimension, z, 2 * x)
    {
      for y := 0 to 2
        invariant corners == FaceVertices(dimension, z, 2 * x + y)
      {
        var position := CornerPosition(dimension, z, x, y);
        FaceVerticesStep(dimension, z, x, y);
        corners := corners + [CubeVertex(position, (x, y))];
      }
    }
  }

  /** Corner (x, y) is the one pushed after the first 2 x + y. */
  lemma FaceVerticesStep(dimension: nat, z: nat, x: nat, y: nat)
    requires dimension < 3 && x < 2 && y < 2
    ensures FaceVertices(dimension, z, 2 * x + y + 1) == FaceVertices(dimension, z, 2 * x + y) + [CubeVertex(Position(dimension, z, x, y), (x, y))]
  {
    var m := 2 * x + y + 1;
    assert (m - 1) / 2 == x && (m - 1) % 2 == y;
  }

  /** Entry i of face (dimension, z) among the first w faces of its dimension. */
  lemma {:induction false} SideIndicesAt(dimension: nat, w: nat, z: nat, i: nat)
    requires z < w <= 2 && i < 6
    ensures SideIndices(dimension, w)[6 * z + i] == 4 * (2 * dimension + z) + [0, 1, 2, 1, 2, 3][i]
  {
    if z < w - 1 {
      SideIndicesAt(dimension, w - 1, z, i);
    } else {
      assert SideIndices(dimension, w)[6 * z + i] == FaceIndices(4 * (2 * dimension + z))[i];
    }
  }

  /**
   * Face f = 2 dimension + z emits n, n + 1, n + 2, n + 1, n + 2, n + 3
   * with n = 4 f at entries 6 f to 6 f + 5 of the first d dimensions (of the
   * whole list when d = 3): only its own corners, so every index is below 24.
   */
  lemma {:induction false} IndicesAt(d: nat, dimension: nat, z: nat, i: nat)
    requires dimension < d && z < 2 && i < 6
    ensures Indices(d)[6 * (2 * dimension + z) + i] == 4 * (2 * dimension + z) + [0, 1, 2, 1, 2, 3][i]
    ensures 4 * (2 * dimension + z) <= Indices(d)[6 * (2 * dimension + z) + i] < 4 * (2 * dimension + z) + 4
  {
    if dimension < d - 1 {
      IndicesAt(d - 1, dimension, z, i);
    } else {
      SideIndicesAt(dimension, 2, z, i);
      ConcatRight(Indices(d - 1), SideIndices(dimension, 2), Indices(d), 6 * z + i, 6 * (2 * dimension + z) + i);
    }
  }

  lemma {:induction false} FaceVerticesAt(dimension: nat, z: nat, m: nat, x: nat, y: nat)
    requires dimension < 3 && x < 2 && y < 2 && 2 * x + y < m <= 4
    ensures FaceVertices(dimension, z, m)[2 * x + y] == CubeVertex(Position(dimension, z, x, y), (x, y))
  {
    if 2 * x + y < m - 1 {
      FaceVerticesAt(dimension, z, m - 1, x, y);
    } else {
      assert (m - 1) / 2 == x && (m - 1) % 2 == y;
    }
  }

  lemma {:induction false} SideVerticesAt(dimension: nat, w: nat, z: nat, x: nat, y: nat)
    requires dimension < 3 && z < w <= 2 && x < 2 && y < 2
    ensures SideVertices(dimension, w)[4 * z + 2 * x + y] == CubeVertex(Position(dimension, z, x, y), (x, y))
  {
    if z < w - 1 {
      SideVerticesAt(dimension, w - 1, z, x, y);
    } else {
      FaceVerticesAt(dimension, z, 4, x, y);
      assert SideVertices(dimension, w)[4 * z + 2 * x + y] == FaceVertices(dimension, z, 4)[2 * x + y];
    }
  }

  /**
   * Corner (x, y) of face (dimension, z) is vertex 4 (2 dimension + z) +
   * 2 x + y of the first d dimensions (of the whole list when d = 3), with
   * uv (x, y).
   */
  lemma {:induction false} VerticesAt(d: nat, dimension: nat, z: nat, x: nat, y: nat)
    requires dimension < d <= 3 && z < 2 && x < 2 && y < 2
    ensures Vertices(d)[4 * (2 * dimension + z) + 2 * x + y] == CubeVertex(Position(dimension, z, x, y), (x, y))
  {
    if dimension < d - 1 {
      VerticesAt(d - 1, dimension, z, x, y);
    } else {
      SideVerticesAt(dimension, 2, z, x, y);
      ConcatRight(Vertices(d - 1), SideVertices(dimension, 2), Vertices(d), 4 * z + 2 * x + y, 4 * (2 * dimension + z) + 2 * x + y);
    }
  }

  /** The coordinate a face holds fixed: the z coordinate lands at 2 - dimension, or at dimension after the reversal. */
  function Axis(dimension: nat, z: nat): nat
    requires dimension < 3
  {
    if z == 0 then 2 - dimension else dimension
  }

  /**
   * Every coordinate of a corner is -1 or 1, and all four corners of face
   * (dimension, z) have 2 z - 1 at the face's axis.
   */
  lemma PositionShape(dimension: nat, z: nat, x: nat, y: nat)
    requires dimension < 3 && z < 2 && x < 2 && y < 2
    ensures Axis(dimension, z) < 3
    ensures forall k | 0 <= k < 3 :: Position(dimension, z, x, y)[k] in {-1, 1}
    ensures Position(dimension, z, x, y)[Axis(dimension, z)] == 2 * z - 1
  {
    var s := [x * 2 - 1, y * 2 - 1, z * 2 - 1];
    var p := RotatedLeft(s, dimension);
    RotatedLeftAt(s, dimension, 0);
    RotatedLeftAt(s, dimension, 1);
    RotatedLeftAt(s, dimension, 2);
    assert forall k | 0 <= k < 3 :: p[k] in {-1, 1};
    RotatedLeftAt(s, dimension, 2 - dimension);
    assert p[2 - dimension] == 2 * z - 1;
    if z != 0 {
      var r := Reversed(p);
      assert r[0] == p[2] && r[1] == p[1] && r[2] == p[0];
      assert Position(dimension, z, x, y) == r;
    }
  }

  /** The six faces sit on six different sides of the cube: no two share both axis and sign. */
  lemma FacesDistinct(d1: nat, z1: nat, d2: nat, z2: nat)
    requires d1 < 3 && z1 < 2 && d2 < 3 && z2 < 2 && (d1, z1) != (d2, z2)
    ensures (Axis(d1, z1), 2 * z1 - 1) != (Axis(d2, z2), 2 * z2 - 1)
  {
  }

  /** `render`: the view matrix, column-major, with entries 12 to 14 (the translation) set to 0. */
  method ClearTranslation(view: array<real>)
    requires view.Length == 16
    modifies view
    ensures view[..] == WithoutTranslation(old(view[..]))
  {
    view[12] := 0.0;
    view[13] := 0.0;
    view[14] := 0.0;
  }

  /** The view with its translation zeroed keeps the other 13 entries. */
  function WithoutTranslation(view: seq<real>): (r: seq<real>)
    requires |view| == 16
    ensures |r| == 16
    ensures forall i | 0 <= i < 16 :: r[i] == if 12 <= i <= 14 then 0.0 else view[i]
  {
    view[12 := 0.0][13 := 0.0][14 := 0.0]
  }
}
