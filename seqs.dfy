/** Sequences of rows laid out end to end, as the index and texel loops push them. */
module Seqs {
  import opened Bits

  /** Rows laid out one after the other. */
  function Flatten<T>(rows: seq<seq<T>>): seq<T>
  {
    if |rows| == 0 then [] else Flatten(rows[..|rows| - 1]) + rows[|rows| - 1]
  }

  lemma {:induction false} FlattenLength<T>(rows: seq<seq<T>>, w: nat)
    requires forall i | 0 <= i < |rows| :: |rows[i]| == w
    ensures |Flatten(rows)| == |rows| * w
  {
    if |rows| > 0 {
      var n := |rows| - 1;
      FlattenLength(rows[..n], w);
      MulSucc(n, w);
    }
  }

  /** Rows of w entries each, laid out in order: entry x of row y is at y * w + x. */
  lemma {:induction false} FlattenEntry<T>(rows: seq<seq<T>>, w: nat, y: nat, x: nat)
    requires forall i | 0 <= i < |rows| :: |rows[i]| == w
    requires y < |rows| && x < w
    ensures |Flatten(rows)| == |rows| * w
    ensures y * w + x < |Flatten(rows)|
    ensures Flatten(rows)[y * w + x] == rows[y][x]
  {
    var n := |rows| - 1;
    var init := rows[..n];
    FlattenLength(init, w);
    MulSucc(n, w);
    if y < n {
      FlattenEntry(init, w, y, x);
    } else {
      assert y * w + x == n * w + x;
    }
  }

  /** Entry k of c = a + b, for k = |a| + i, is entry i of b. */
  lemma ConcatRight<T>(a: seq<T>, b: seq<T>, c: seq<T>, i: nat, k: nat)
    requires c == a + b && i < |b| && k == |a| + i
    ensures k < |c| && c[k] == b[i]
  {
  }

  /** Entry k of c = a + b, for k < |a|, is entry k of a. */
  lemma ConcatLeft<T>(a: seq<T>, b: seq<T>, c: seq<T>, k: nat)
    requires c == a + b && k < |a|
    ensures k < |c| && c[k] == a[k]
  {
  }

  /** Occurrences of v in s. */
  function Count<T(==)>(s: seq<T>, v: T): nat
  {
    if |s| == 0 then 0 else Count(s[..|s| - 1], v) + (if s[|s| - 1] == v then 1 else 0)
  }

  lemma {:induction false} CountConcat<T>(a: seq<T>, b: seq<T>, v: T)
    ensures Count(a + b, v) == Count(a, v) + Count(b, v)
    decreases |b|
  {
    if |b| == 0 {
      assert a + b == a;
    } else {
      var n := |b| - 1;
      assert (a + b)[..|a + b| - 1] == a + b[..n];
      CountConcat(a, b[..n], v);
    }
  }

  lemma {:induction false} CountAbsent<T>(s: seq<T>, v: T)
    requires v !in s
    ensures Count(s, v) == 0
  {
    if |s| > 0 {
      CountAbsent(s[..|s| - 1], v);
    }
  }
}
