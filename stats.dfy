/**
 * Small numeric helpers shared by the simulator, the agents and the
 * evaluation code: the `min`/`max` builtins, `np.mean`, `np.max` and
 * `np.argmax`, over Dafny's unbounded `real` and `int`.
 */
module Stats {

  function Min(a: real, b: real): real { if a <= b then a else b }

  function Max(a: real, b: real): real { if a >= b then a else b }

  /** Sum of a sequence of reals, taken from the front. */
  function Sum(s: seq<real>): real
  {
    if s == [] then 0.0 else s[0] + Sum(s[1..])
  }

  /** Sum of a sequence of integers, taken from the front. */
  function SumInt(s: seq<int>): int
  {
    if s == [] then 0 else s[0] + SumInt(s[1..])
  }

  /** The integers of `s`, as reals (Python's implicit int-to-float promotion). */
  function ToReals(s: seq<int>): (r: seq<real>)
    ensures |r| == |s|
    ensures forall i :: 0 <= i < |s| ==> r[i] == s[i] as real
  {
    if s == [] then [] else [s[0] as real] + ToReals(s[1..])
  }

  /** Arithmetic mean (`np.mean`); 0 for the empty sequence, where the callers guard. */
  function Mean(s: seq<real>): real
  {
    if s == [] then 0.0 else Sum(s) / (|s| as real)
  }

  lemma {:induction false} SumSnoc(s: seq<real>, x: real)
    ensures Sum(s + [x]) == Sum(s) + x
  {
    if s == [] {
      assert s + [x] == [x];
    } else {
      assert (s + [x])[1..] == s[1..] + [x];
      SumSnoc(s[1..], x);
    }
  }

  lemma {:induction false} SumIntSnoc(s: seq<int>, x: int)
    ensures SumInt(s + [x]) == SumInt(s) + x
  {
    if s == [] {
      assert s + [x] == [x];
    } else {
      assert (s + [x])[1..] == s[1..] + [x];
      SumIntSnoc(s[1..], x);
    }
  }

  /** Adding one to a single entry adds one to the sum. */
  lemma {:induction false} SumIntIncrement(s: seq<int>, a: int)
    requires 0 <= a < |s|
    ensures SumInt(s[a := s[a] + 1]) == SumInt(s) + 1
  {
    if a == 0 {
      assert s[a := s[a] + 1][1..] == s[1..];
    } else {
      assert s[a := s[a] + 1][1..] == s[1..][a - 1 := s[a] + 1];
      SumIntIncrement(s[1..], a - 1);
    }
  }

  lemma {:induction false} SumIntZeros(s: seq<int>)
    requires forall i :: 0 <= i < |s| ==> s[i] == 0
    ensures SumInt(s) == 0
  {
    if s != [] {
      SumIntZeros(s[1..]);
    }
  }

  lemma {:induction false} SumToReals(s: seq<int>)
    ensures Sum(ToReals(s)) == SumInt(s) as real
  {
    if s != [] {
      SumToReals(s[1..]);
    }
  }

  /** A sum of entries in [lo, hi] lies in [lo * n, hi * n]. */
  lemma {:induction false} SumBounds(s: seq<real>, lo: real, hi: real)
    requires forall i :: 0 <= i < |s| ==> lo <= s[i] <= hi
    ensures lo * (|s| as real) <= Sum(s) <= hi * (|s| as real)
  {
    if s != [] {
      SumBounds(s[1..], lo, hi);
      assert lo * (|s| as real) == lo + lo * ((|s| - 1) as real);
      assert hi * (|s| as real) == hi + hi * ((|s| - 1) as real);
    }
  }

  /** The product of two non-negative reals is non-negative. */
  lemma ProductNonNegative(x: real, y: real)
    ensures x >= 0.0 && y >= 0.0 ==> x * y >= 0.0
  {
  }

  /** The mean of a non-empty sequence lies between any bounds of its entries. */
  lemma MeanBounds(s: seq<real>, lo: real, hi: real)
    requires |s| > 0
    requires forall i :: 0 <= i < |s| ==> lo <= s[i] <= hi
    ensures lo <= Mean(s) <= hi
  {
    var n := |s| as real;
    SumBounds(s, lo, hi);
    assert Mean(s) * n == Sum(s);
  }

  /** The mean times the length gives back the sum. */
  lemma MeanTimesLength(s: seq<real>)
    requires s != []
    ensures Mean(s) * (|s| as real) == Sum(s)
  {
  }

  /** The mean of a non-empty sequence is at least any lower bound of its entries. */
  lemma MeanAtLeast(s: seq<real>, lo: real)
    requires s != []
    requires forall j :: 0 <= j < |s| ==> lo <= s[j]
    ensures Mean(s) >= lo
  {
    MeanBounds(s, lo, MaxOf(s));
  }

  /** The mean of non-negative entries is non-negative. */
  lemma MeanNonNegative(s: seq<real>)
    requires forall i :: 0 <= i < |s| ==> s[i] >= 0.0
    ensures Mean(s) >= 0.0
  {
    if s != [] {
      MeanBounds(s, 0.0, MaxOf(s));
    }
  }

  /** The step `q + (x - q) / (n + 1)` turns the mean of `s` into the mean of `s + [x]`. */
  lemma MeanSnoc(s: seq<real>, x: real)
    ensures Mean(s + [x]) == Mean(s) + (x - Mean(s)) / ((|s| + 1) as real)
  {
    SumSnoc(s, x);
    var n := |s| as real;
    if s == [] {
      assert s + [x] == [x];
    } else {
      var m := Mean(s);
      assert Sum(s) == m * n;
      calc {
        m + (x - m) / (n + 1.0);
        (m * (n + 1.0) + (x - m)) / (n + 1.0);
        (m * n + x) / (n + 1.0);
        (Sum(s) + x) / (n + 1.0);
      }
    }
  }

  /** Index of the first maximal entry, as `np.argmax` returns it. */
  function ArgMax(s: seq<real>): (k: nat)
    requires |s| > 0
    ensures k < |s|
    ensures forall j :: 0 <= j < |s| ==> s[j] <= s[k]
    ensures forall j :: 0 <= j < k ==> s[j] < s[k]
  {
    if |s| == 1 then 0
    else
      var k := ArgMax(s[..|s| - 1]);
      if s[|s| - 1] > s[k] then |s| - 1 else k
  }

  /** The largest entry (`np.max`). */
  function MaxOf(s: seq<real>): (m: real)
    requires |s| > 0
    ensures exists j :: 0 <= j < |s| && s[j] == m
    ensures forall j :: 0 <= j < |s| ==> s[j] <= m
  {
    s[ArgMax(s)]
  }
}
