/**
 * The in-place slice operations the mesh generators call on small
 * coordinate arrays: `reverse`, `rotate_left` and `rotate_right`, each
 * specified by a function on the array's contents.
 */
module Slices {

  /** The entries in the opposite order. */
  function Reversed<T>(s: seq<T>): (r: seq<T>)
    ensures |r| == |s|
  {
    seq(|s|, i requires 0 <= i < |s| => s[|s| - 1 - i])
  }

  /** `rotate_left(k)`: entry i moves to i - k, the first k wrap round to the end. */
  function RotatedLeft<T>(s: seq<T>, k: nat): (r: seq<T>)
    requires k <= |s|
    ensures |r| == |s|
  {
    s[k..] + s[..k]
  }

  /** `rotate_right(k)`: entry i moves to i + k, the last k wrap round to the front. */
  function RotatedRight<T>(s: seq<T>, k: nat): (r: seq<T>)
    requires k <= |s|
    ensures |r| == |s|
  {
    s[|s| - k..] + s[..|s| - k]
  }

  lemma ReversedInvolution<T>(s: seq<T>)
    ensures Reversed(Reversed(s)) == s
  {
  }

  /** Reversing a concatenation reverses the order of the parts. */
  lemma ReversedConcat<T>(a: seq<T>, b: seq<T>)
    ensures Reversed(a + b) == Reversed(b) + Reversed(a)
  {
    var r, t := Reversed(a + b), Reversed(b) + Reversed(a);
    forall i | 0 <= i < |r|
      ensures r[i] == t[i]
    {
      if i < |b| {
        assert t[i] == Reversed(b)[i];
      } else {
        assert t[i] == Reversed(a)[i - |b|];
      }
    }
  }

  /** Entry i of a left rotation is entry (i + k) mod n of the original. */
  lemma RotatedLeftAt<T>(s: seq<T>, k: nat, i: nat)
    requires k <= |s| && i < |s|
    ensures RotatedLeft(s, k)[i] == s[(i + k) % |s|]
  {
    if i + k < |s| {
      assert (i + k) % |s| == i + k;
    } else {
      assert (i + k) % |s| == i + k - |s|;
    }
  }

  /** Entry i of the original sits at (i + k) mod n after a right rotation. */
  lemma RotatedRightAt<T>(s: seq<T>, k: nat, i: nat)
    requires k <= |s| && i < |s|
    ensures RotatedRight(s, k)[(i + k) % |s|] == s[i]
  {
    if i + k < |s| {
      assert (i + k) % |s| == i + k;
    } else {
      assert (i + k) % |s| == i + k - |s|;
    }
  }

  /** A right rotation by k is the left rotation by n - k, and undoes the left rotation by k. */
  lemma RotatedRightIsLeft<T>(s: seq<T>, k: nat)
    requires k <= |s|
    ensures RotatedRight(s, k) == RotatedLeft(s, |s| - k)
    ensures RotatedRight(RotatedLeft(s, k), k) == s
  {
    var l := RotatedLeft(s, k);
    assert l[|l| - k..] == s[..k];
    assert l[..|l| - k] == s[k..];
  }

  /** The three right rotations of a triple, written out. */
  lemma RotatedRightTriple<T>(s: seq<T>, k: nat)
    requires |s| == 3 && k < 3
    ensures RotatedRight(s, k) == if k == 0 then s else if k == 1 then [s[2], s[0], s[1]] else [s[1], s[2], s[0]]
  {
    if k == 0 {
      assert s[3..] == [];
    }
  }

  /**
   * Reversing both parts and then the whole swaps the parts: the three
   * reversals rotate left by the length of the first part.
   */
  lemma ThreeReversals<T>(s: seq<T>, k: nat)
    requires k <= |s|
    ensures Reversed(Reversed(s[..k]) + Reversed(s[k..])) == RotatedLeft(s, k)
  {
    ReversedConcat(Reversed(s[..k]), Reversed(s[k..]));
    ReversedInvolution(s[..k]);
    ReversedInvolution(s[k..]);
  }

  /** `a[lo..hi].reverse()`, by swapping from both ends towards the middle. */
  method ReverseRange<T>(a: array<T>, lo: nat, hi: nat)
    requires lo <= hi <= a.Length
    modifies a
    ensures a[..] == old(a[..lo]) + Reversed(old(a[lo..hi])) + old(a[hi..])
  {
    ghost var s := a[..];
    var i, j := lo, hi;
    while i + 1 < j
      invariant lo <= i <= j <= hi && i + j == lo + hi && |s| == a.Length
      invariant forall k | 0 <= k < a.Length && (k < lo || hi <= k || i <= k < j) :: a[k] == s[k]
      invariant forall k | lo <= k < i :: a[k] == s[lo + hi - 1 - k]
      invariant forall k | j <= k < hi :: a[k] == s[lo + hi - 1 - k]
    {
      a[i], a[j - 1] := a[j - 1], a[i];
      i, j := i + 1, j - 1;
    }
    assert forall k | 0 <= k < a.Length :: a[k] == (s[..lo] + Reversed(s[lo..hi]) + s[hi..])[k];
  }

  /** `reverse` on the whole slice. */
  method Reverse<T>(a: array<T>)
    modifies a
    ensures a[..] == Reversed(old(a[..]))
  {
    ReverseRange(a, 0, a.Length);
    assert old(a[..])[0..a.Length] == old(a[..]);
  }

  /** `rotate_left(k)`, by three in-place reversals; panics (here: requires) when k exceeds the length. */
  method RotateLeft<T>(a: array<T>, k: nat)
    requires k <= a.Length
    modifies a
    ensures a[..] == RotatedLeft(old(a[..]), k)
  {
    ghost var s := a[..];
    ReverseRange(a, 0, k);
    ghost var r1 := Reversed(s[..k]);
    assert a[..] == r1 + s[k..] by {
      assert s[..0] == [] && s[0..k] == s[..k] && s[k..] == s[k..a.Length];
    }
    assert a[..k] == r1 && a[k..a.Length] == s[k..];
    ReverseRange(a, k, a.Length);
    assert a[..] == r1 + Reversed(s[k..]) by {
      assert a[..] == r1 + Reversed(s[k..]) + [];
    }
    Reverse(a);
    ThreeReversals(s, k);
  }

  /** `rotate_right(k)`: the left rotation by the length minus k. */
  method RotateRight<T>(a: array<T>, k: nat)
    requires k <= a.Length
    modifies a
    ensures a[..] == RotatedRight(old(a[..]), k)
  {
    RotatedRightIsLeft(a[..], k);
    RotateLeft(a, a.Length - k);
  }
}
