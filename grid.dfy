/**
 * The index buffers of the ocean and terrain grids (archi/src/grid.rs and
 * src/grid.rs). A grid of side s has s + 1 vertex lines of s + 1 vertices
 * each; vertex y of line x has index x * (s + 1) + y. Indices are `u32`
 * values, modelled as naturals below 2^32.
 */
module Grid {
  import opened Bits
  import opened Seqs
  import opened Wrappers

  /** The largest side whose vertex indices (s + 1)^2 - 1 and below fit in a `u32`. */
  const MaxSide: nat := 0xFFFF

  lemma MaxSideIsLargest(s: nat)
    ensures s <= MaxSide <==> (s + 1) * (s + 1) <= U32Limit
    ensures s < MaxSide <==> (s + 1) * (s + 1) < U32Limit
  {
    if s <= MaxSide {
      MulMonotone(s + 1, MaxSide + 1, s + 1);
      MulMonotone(s + 1, MaxSide + 1, MaxSide + 1);
      if s < MaxSide {
        MulMonotone(s + 1, MaxSide, s + 1);
        MulMonotone(s + 1, MaxSide, MaxSide);
      }
    } else {
      MulMonotone(MaxSide + 1, s + 1, s + 1);
      MulMonotone(MaxSide + 1, s + 1, MaxSide + 1);
    }
  }

  // ---------------------------------------------------------------------
  // square_patch_grid

  /**
   * The quad patch of the cell whose first corner is vertex v, with lc
   * vertices per line: its corners in the order the loop pushes them.
   */
  function Quad(v: nat, lc: nat): (q: seq<nat>)
    ensures |q| == 4
  {
    [v, v + 1, v + lc + 1, v + lc]
  }

  /** The patch of cell (x, y). */
  function Patch(s: nat, x: nat, y: nat): (p: seq<nat>)
    ensures |p| == 4
  {
    Quad(x * (s + 1) + y, s + 1)
  }

  /** Patches of the n cells whose first corners are b, b + 1, .., b + n - 1. */
  function PatchLine(b: nat, lc: nat, n: nat): (r: seq<nat>)
    ensures |r| == 4 * n
  {
    if n == 0 then [] else PatchLine(b, lc, n - 1) + Quad(b + (n - 1), lc)
  }

  /** The patch lines of cells (0, _) .. (n - 1, _), in order. */
  function PatchLines(s: nat, n: nat): seq<nat>
  {
    if n == 0 then [] else PatchLines(s, n - 1) + PatchLine((n - 1) * (s + 1), s + 1, s)
  }

  /** The whole patch index buffer: x outer, y inner, four corners per cell. */
  function SquarePatchIndices(s: nat): seq<nat>
  {
    PatchLines(s, s)
  }

  /**
   * `square_patch_grid`: for x and then y in 0..s, push the patch of cell
   * (x, y); the buffer has the 4 * s * s entries it was allocated for.
   * The requires keeps every `u32` index computation from overflowing.
   */
  method SquarePatchGrid(s: nat) returns (indices: seq<nat>)
    requires s <= MaxSide
    ensures indices == SquarePatchIndices(s)
    ensures |indices| == 4 * s * s
  {
    indices := [];
    for x := 0 to s
      invariant indices == PatchLines(s, x)
    {
      for y := 0 to s
        invariant indices == PatchLines(s, x) + PatchLine(x * (s + 1), s + 1, y)
      {
        var lc := s + 1;
        indices := indices + [x * lc + y];
        indices := indices + [x * lc + y + 1];
        indices := indices + [x * lc + y + lc + 1];
        indices := indices + [x * lc + y + lc];
      }
    }
    SquarePatchLength(s, s);
    Scale4(s, s);
  }

  lemma {:induction false} SquarePatchLength(s: nat, n: nat)
    ensures |PatchLines(s, n)| == n * (4 * s)
  {
    if n > 0 {
      SquarePatchLength(s, n - 1);
      MulSucc(n - 1, 4 * s);
    }
  }

  lemma Scale4(x: nat, s: nat)
    ensures x * (4 * s) == 4 * (x * s)
  {
  }

  lemma {:induction false} PatchLineEntry(b: nat, lc: nat, n: nat, y: nat, c: nat)
    requires y < n && c < 4
    ensures PatchLine(b, lc, n)[4 * y + c] == Quad(b + y, lc)[c]
  {
    if y < n - 1 {
      PatchLineEntry(b, lc, n - 1, y, c);
    }
  }

  lemma {:induction false} PatchLinesEntry(s: nat, n: nat, x: nat, j: nat)
    requires x < n && j < 4 * s
    ensures x * (4 * s) + j < |PatchLines(s, n)|
    ensures PatchLines(s, n)[x * (4 * s) + j] == PatchLine(x * (s + 1), s + 1, s)[j]
  {
    SquarePatchLength(s, n - 1);
    MulSucc(n - 1, 4 * s);
    if x < n - 1 {
      PatchLinesEntry(s, n - 1, x, j);
      MulMonotone(x + 1, n - 1, 4 * s);
      MulSucc(x, 4 * s);
    }
  }

  /** The patch of cell (x, y) sits at positions 4 * (x * s + y) .. 4 * (x * s + y) + 3. */
  lemma SquarePatchLayout(s: nat, x: nat, y: nat, c: nat)
    requires x < s && y < s && c < 4
    ensures 4 * (x * s + y) + c < |SquarePatchIndices(s)|
    ensures SquarePatchIndices(s)[4 * (x * s + y) + c] == Patch(s, x, y)[c]
  {
    PatchLinesEntry(s, s, x, 4 * y + c);
    PatchLineEntry(x * (s + 1), s + 1, s, y, c);
    Scale4(x, s);
  }

  /**
   * The corners of the patch of cell (x, y) are vertices (x, y), (x, y + 1),
   * (x + 1, y + 1) and (x + 1, y): no patch wraps from one vertex line to
   * the next.
   */
  lemma PatchCorners(s: nat, x: nat, y: nat)
    requires x < s && y < s
    ensures Patch(s, x, y)[0] / (s + 1) == x && Patch(s, x, y)[0] % (s + 1) == y
    ensures Patch(s, x, y)[1] / (s + 1) == x && Patch(s, x, y)[1] % (s + 1) == y + 1
    ensures Patch(s, x, y)[2] / (s + 1) == x + 1 && Patch(s, x, y)[2] % (s + 1) == y + 1
    ensures Patch(s, x, y)[3] / (s + 1) == x + 1 && Patch(s, x, y)[3] % (s + 1) == y
  {
    var lc := s + 1;
    MulSucc(x, lc);
    DivModUnique(x * lc + y, lc, x, y);
    DivModUnique(x * lc + y + 1, lc, x, y + 1);
    DivModUnique((x + 1) * lc + y + 1, lc, x + 1, y + 1);
    DivModUnique((x + 1) * lc + y, lc, x + 1, y);
  }

  /** No corner of the n patches from b on exceeds b + n + lc. */
  lemma {:induction false} PatchLineBound(b: nat, lc: nat, n: nat)
    ensures forall i | 0 <= i < |PatchLine(b, lc, n)| :: PatchLine(b, lc, n)[i] <= b + n + lc
  {
    if n > 0 {
      PatchLineBound(b, lc, n - 1);
    }
  }

  lemma {:induction false} PatchLinesBound(s: nat, n: nat)
    requires n <= s
    ensures forall i | 0 <= i < |PatchLines(s, n)| :: PatchLines(s, n)[i] < (s + 1) * (s + 1)
  {
    if n > 0 {
      PatchLinesBound(s, n - 1);
      PatchLineBound((n - 1) * (s + 1), s + 1, s);
      MulMonotone(n, s, s + 1);
      MulSucc(n - 1, s + 1);
      MulSucc(s, s + 1);
    }
  }

  /** Every index names a vertex of the grid: below (s + 1)^2, so within a `u32`. */
  lemma SquarePatchBound(s: nat)
    ensures forall i | 0 <= i < |SquarePatchIndices(s)| :: SquarePatchIndices(s)[i] < (s + 1) * (s + 1)
  {
    PatchLinesBound(s, s);
  }

  // ---------------------------------------------------------------------
  // strip_grid

  /** `u32::max_value()`, the primitive-restart marker. */
  const Restart: nat := U32Limit - 1

  /**
   * The zig-zag between the vertex line starting at b and the next:
   * b, b + lc, b + 1, b + 1 + lc, .., b + n - 1, b + n - 1 + lc.
   */
  function StripPairs(b: nat, lc: nat, n: nat): (r: seq<nat>)
    ensures |r| == 2 * n
  {
    if n == 0 then [] else StripPairs(b, lc, n - 1) + [b + (n - 1), b + (n - 1) + lc]
  }

  /**
   * x * lc, the first vertex of line x, as a sum of x lines: kept free of
   * multiplication so that reasoning about strip positions stays linear.
   */
  function LineStart(x: nat, lc: nat): nat
  {
    if x == 0 then 0 else LineStart(x - 1, lc) + lc
  }

  lemma {:induction false} LineStartIsProduct(x: nat, lc: nat)
    ensures LineStart(x, lc) == x * lc
  {
    if x > 0 {
      LineStartIsProduct(x - 1, lc);
      MulSucc(x - 1, lc);
    }
  }

  /** Strip x: a restart marker unless it is the first, then its s + 1 pairs. */
  function Strip(s: nat, x: nat): seq<nat>
  {
    (if x == 0 then [] else [Restart]) + StripPairs(LineStart(x, s + 1), s + 1, s + 1)
  }

  /** Strips 0 .. n - 1, in order. */
  function Strips(s: nat, n: nat): seq<nat>
  {
    if n == 0 then [] else Strips(s, n - 1) + Strip(s, n - 1)
  }

  /** The whole strip index buffer. */
  function StripIndices(s: nat): seq<nat>
  {
    Strips(s, s)
  }

  /**
   * `strip_grid`: for every strip x in 0..s, a restart marker unless x is 0,
   * then for y in 0..s + 1 the vertices (x, y) and (x + 1, y). The buffer
   * has the s * (2 * (s + 1) + 1) - 1 entries it was allocated for. The
   * allocation size underflows for s = 0, and the side bound keeps the
   * `u32` index computations from overflowing.
   */
  method StripGrid(s: nat) returns (indices: seq<nat>)
    requires 1 <= s <= MaxSide
    ensures indices == StripIndices(s)
    ensures |indices| == s * (2 * (s + 1) + 1) - 1
  {
    var lc := s + 1;
    indices := [];
    for x := 0 to s
      invariant indices == Strips(s, x)
    {
      if x != 0 {
        indices := indices + [Restart];
      }
      LineStartIsProduct(x, lc);
      for y := 0 to lc
        invariant indices == Strips(s, x) + (if x == 0 then [] else [Restart]) + StripPairs(x * lc, lc, y)
      {
        indices := indices + [x * lc + y];
        indices := indices + [x * lc + y + lc];
      }
    }
    StripLength(s, s);
  }

  /** The first n strips take n * (2 * (s + 1) + 1) - 1 entries. */
  lemma {:induction false} StripLength(s: nat, n: nat)
    requires n >= 1
    ensures |Strips(s, n)| == n * (2 * (s + 1) + 1) - 1
  {
    if n > 1 {
      StripLength(s, n - 1);
      MulSucc(n - 1, 2 * (s + 1) + 1);
    }
  }

  /** The strips before strip x and its restart marker take x * (2 * (s + 1) + 1) entries. */
  lemma StripStart(s: nat, x: nat)
    ensures |Strips(s, x)| + (if x == 0 then 0 else 1) == x * (2 * (s + 1) + 1)
  {
    if x > 0 {
      StripLength(s, x);
    }
  }

  lemma {:induction false} StripPairsEntry(b: nat, lc: nat, n: nat, y: nat)
    requires y < n
    ensures StripPairs(b, lc, n)[2 * y] == b + y
    ensures StripPairs(b, lc, n)[2 * y + 1] == b + y + lc
  {
    if y < n - 1 {
      StripPairsEntry(b, lc, n - 1, y);
    }
  }

  /**
   * Strip x starts at position x * (2 * (s + 1) + 1), right after the
   * restart marker that separates it from strip x - 1, and holds vertex
   * (x, y) then (x + 1, y) for y ascending.
   */
  lemma StripLayout(s: nat, x: nat, y: nat)
    requires x < s && y <= s
    ensures x * (2 * (s + 1) + 1) + 2 * y + 1 < |StripIndices(s)|
    ensures StripIndices(s)[x * (2 * (s + 1) + 1) + 2 * y] == x * (s + 1) + y
    ensures StripIndices(s)[x * (2 * (s + 1) + 1) + 2 * y + 1] == (x + 1) * (s + 1) + y
    ensures x > 0 ==> StripIndices(s)[x * (2 * (s + 1) + 1) - 1] == Restart
  {
    StripStart(s, x);
    LineStartIsProduct(x, s + 1);
    StripEntries(s, s, x, y, x * (2 * (s + 1) + 1), LineStart(x, s + 1));
    MulSucc(x, s + 1);
  }

  /** The entries of strip x within the first n strips, given where it starts and its first vertex b. */
  lemma {:induction false} StripEntries(s: nat, n: nat, x: nat, y: nat, p: nat, b: nat)
    requires x < n && y <= s
    requires p == |Strips(s, x)| + (if x == 0 then 0 else 1) && b == LineStart(x, s + 1)
    ensures p + 2 * y + 1 < |Strips(s, n)|
    ensures Strips(s, n)[p + 2 * y] == b + y
    ensures Strips(s, n)[p + 2 * y + 1] == b + y + (s + 1)
    ensures x > 0 ==> Strips(s, n)[p - 1] == Restart
  {
    if x < n - 1 {
      StripEntries(s, n - 1, x, y, p, b);
      var front := Strips(s, n - 1);
      assert Strips(s, n) == front + Strip(s, n - 1);
      ConcatLeft(front, Strip(s, n - 1), Strips(s, n), p + 2 * y);
      ConcatLeft(front, Strip(s, n - 1), Strips(s, n), p + 2 * y + 1);
      if x > 0 {
        ConcatLeft(front, Strip(s, n - 1), Strips(s, n), p - 1);
      }
    } else {
      StripEntriesLast(s, x, y, p, b);
    }
  }

  /** The entries of the last of the first x + 1 strips. */
  lemma StripEntriesLast(s: nat, x: nat, y: nat, p: nat, b: nat)
    requires y <= s
    requires p == |Strips(s, x)| + (if x == 0 then 0 else 1) && b == LineStart(x, s + 1)
    ensures p + 2 * y + 1 < |Strips(s, x + 1)|
    ensures Strips(s, x + 1)[p + 2 * y] == b + y
    ensures Strips(s, x + 1)[p + 2 * y + 1] == b + y + (s + 1)
    ensures x > 0 ==> Strips(s, x + 1)[p - 1] == Restart
  {
    var pairs := StripPairs(b, s + 1, s + 1);
    var front := Strips(s, x) + (if x == 0 then [] else [Restart]);
    assert Strips(s, x + 1) == front + pairs;
    StripPairsEntry(b, s + 1, s + 1, y);
    ConcatRight(front, pairs, Strips(s, x + 1), 2 * y, p + 2 * y);
    ConcatRight(front, pairs, Strips(s, x + 1), 2 * y + 1, p + 2 * y + 1);
    if x > 0 {
      ConcatLeft(front, pairs, Strips(s, x + 1), p - 1);
    }
  }

  /** No vertex of the zig-zag from b exceeds b + n - 1 + lc. */
  lemma {:induction false} StripPairsBound(b: nat, lc: nat, n: nat)
    requires n >= 1
    ensures forall i | 0 <= i < |StripPairs(b, lc, n)| :: StripPairs(b, lc, n)[i] <= b + n - 1 + lc
  {
    if n > 1 {
      StripPairsBound(b, lc, n - 1);
    }
  }

  /** Every vertex of strip x lies in the grid: at most (s + 1)^2 - 1. */
  lemma StripVertexBound(s: nat, x: nat, lc: nat)
    requires x < s && lc == s + 1
    ensures forall i | 0 <= i < |StripPairs(LineStart(x, lc), lc, lc)| :: StripPairs(LineStart(x, lc), lc, lc)[i] <= lc * lc - 1
  {
    StripPairsBound(LineStart(x, lc), lc, lc);
    LineStartIsProduct(x, lc);
    MulMonotone(x + 1, s, lc);
    MulSucc(x, lc);
    MulSucc(s, lc);
  }

  /** With every vertex below the marker, the first n strips hold exactly n - 1 markers. */
  lemma {:induction false} StripRestartCount(s: nat, n: nat)
    requires 1 <= n <= s < MaxSide
    ensures Count(Strips(s, n), Restart) == n - 1
  {
    var x := n - 1;
    var pairs := StripPairs(LineStart(x, s + 1), s + 1, s + 1);
    var head: seq<nat> := if x == 0 then [] else [Restart];
    assert Strips(s, n) == Strips(s, x) + (head + pairs);
    MaxSideIsLargest(s);
    StripVertexBound(s, x, s + 1);
    assert Restart !in pairs;
    CountAbsent(pairs, Restart);
    CountConcat(head, pairs, Restart);
    CountConcat(Strips(s, x), head + pairs, Restart);
    if x > 0 {
      StripRestartCount(s, x);
      assert Count([Restart], Restart) == 1 by {
        assert [Restart][..0] == [];
      }
    }
  }

  /** The last index is always vertex (s, s), the grid's last vertex. */
  lemma StripLastVertex(s: nat)
    requires s >= 1
    ensures |StripIndices(s)| >= 1
    ensures StripIndices(s)[|StripIndices(s)| - 1] == (s + 1) * (s + 1) - 1
  {
    StripLayout(s, s - 1, s);
    StripLength(s, s);
    MulSucc(s - 1, 2 * (s + 1) + 1);
    MulSucc(s, s + 1);
  }

  /**
   * The allocation and the `u32` arithmetic admit side 65535, but then the
   * last vertex index is 2^32 - 1, the restart marker itself, so the final
   * vertex of the grid reads as a primitive restart.
   */
  lemma RestartCollision()
    ensures MaxSide == 65535 && (MaxSide + 1) * (MaxSide + 1) == U32Limit
    ensures StripIndices(MaxSide)[|StripIndices(MaxSide)| - 1] == Restart
  {
    StripLastVertex(MaxSide);
  }

  /**
   * `strip_grid` with the side kept below 65535, so that the restart marker
   * can never be a vertex index: the markers are exactly the s - 1 strip
   * separators.
   */
  method StripGridChecked(s: nat) returns (r: Option<seq<nat>>)
    requires s >= 1
    ensures r.Some? <==> (s + 1) * (s + 1) < U32Limit
    ensures r.Some? ==> r.value == StripIndices(s) && Count(r.value, Restart) == s - 1
  {
    MaxSideIsLargest(s);
    if s >= MaxSide {
      return None;
    }
    var indices := StripGrid(s);
    StripRestartCount(s, s);
    return Some(indices);
  }
}
