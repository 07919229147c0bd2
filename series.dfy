/**
  Sums and means over a window of a numeric column: the arithmetic behind
  pandas' `rolling(window).mean()`, over exact reals.
*/
module Series {

  /** Sum of a column, adding the newest element last. */
  function Sum(s: seq<real>): real
    decreases |s|
  {
    if s == [] then 0.0 else Sum(s[..|s| - 1]) + s[|s| - 1]
  }

  /** Unweighted arithmetic mean of a non-empty window. */
  function Mean(s: seq<real>): real
    requires |s| > 0
  {
    Sum(s) / |s| as real
  }

  /** Sum distributes over concatenation. */
  lemma {:induction false} SumConcat(a: seq<real>, b: seq<real>)
    ensures Sum(a + b) == Sum(a) + Sum(b)
    decreases |b|
  {
    if b == [] {
      assert a + b == a;
    } else {
      var b' := b[..|b| - 1];
      assert (a + b)[..|a + b| - 1] == a + b';
      SumConcat(a, b');
    }
  }

  /** Every element between lo and hi puts the sum between |s|*lo and |s|*hi. */
  lemma {:induction false} SumBounds(s: seq<real>, lo: real, hi: real)
    requires forall k :: 0 <= k < |s| ==> lo <= s[k] <= hi
    ensures |s| as real * lo <= Sum(s) <= |s| as real * hi
    decreases |s|
  {
    if s != [] {
      SumBounds(s[..|s| - 1], lo, hi);
    }
  }

  /** A sum of non-negative elements is zero exactly when every element is. */
  lemma {:induction false} SumZeroIff(s: seq<real>)
    requires forall k :: 0 <= k < |s| ==> 0.0 <= s[k]
    ensures 0.0 <= Sum(s)
    ensures Sum(s) == 0.0 <==> forall k :: 0 <= k < |s| ==> s[k] == 0.0
    decreases |s|
  {
    if s != [] {
      var s' := s[..|s| - 1];
      SumZeroIff(s');
      if Sum(s) == 0.0 {
        forall k | 0 <= k < |s| ensures s[k] == 0.0 {
          if k < |s| - 1 { assert s[k] == s'[k]; }
        }
      }
    }
  }

  /** The mean of a window lies between any bounds of its elements. */
  lemma MeanBounds(s: seq<real>, lo: real, hi: real)
    requires |s| > 0
    requires forall k :: 0 <= k < |s| ==> lo <= s[k] <= hi
    ensures lo <= Mean(s) <= hi
  {
    SumBounds(s, lo, hi);
    var n := |s| as real;
    assert n * lo <= Sum(s) <= n * hi;
    assert Sum(s) / n >= lo by {
      assert Sum(s) >= lo * n;
    }
    assert Sum(s) / n <= hi by {
      assert Sum(s) <= hi * n;
    }
  }
}
