/** Failure-carrying results and the few pieces of Python list semantics the
    adapters rely on: negative indexing and `zip`-based filtering. */
module Common {

  datatype Option<+T> = None | Some(value: T)

  /** The Python exceptions the modelled code can raise. */
  datatype Error =
    | IndexError
    | KeyError
    | ValueError
    | TypeError
    | AssertionError
    | ZeroDivisionError

  datatype Result<+T> = Ok(value: T) | Err(error: Error)

  function Min(a: int, b: int): int
  {
    if a <= b then a else b
  }

  /** The position `s[i]` reads in a list of length `n`: negative indices count
      from the end, anything outside `-n <= i < n` raises IndexError. */
  function Wrap(i: int, n: nat): (r: Option<nat>)
    ensures r.Some? <==> 0 <= i + n && i < n
    ensures r.Some? ==> r.value < n && (r.value == i || r.value == i + n)
  {
    if 0 <= i < n then Some(i)
    else if 0 <= i + n && i < 0 then Some(i + n)
    else None
  }

  /** `s[i]` on a Python list. */
  function PyIndex<T>(s: seq<T>, i: int): (r: Option<T>)
    ensures r.Some? <==> 0 <= i + |s| && i < |s|
    ensures 0 <= i < |s| ==> r == Some(s[i])
    ensures -|s| <= i < 0 ==> r == Some(s[i + |s|])
  {
    match Wrap(i, |s|)
    case None => None
    case Some(k) => Some(s[k])
  }

  /** `[x for (x, keep) in zip(xs, keeps) if keep]`: `zip` stops at the
      shorter list, so only the first `Min(|xs|, |keeps|)` pairs are looked at. */
  function Compress<T>(xs: seq<T>, keeps: seq<bool>): (r: seq<T>)
    ensures |r| <= Min(|xs|, |keeps|)
    decreases |xs|
  {
    var n := Min(|xs|, |keeps|);
    if n == 0 then []
    else Compress(xs[..n - 1], keeps[..n - 1]) + (if keeps[n - 1] then [xs[n - 1]] else [])
  }

  /** Number of `true` entries among the first `n` of `keeps`. */
  function CountKept(keeps: seq<bool>, n: nat): nat
    requires n <= |keeps|
  {
    if n == 0 then 0 else CountKept(keeps, n - 1) + (if keeps[n - 1] then 1 else 0)
  }

  /** Filtering two lists with the same `keeps` gives lists of the same length
      whenever the lists had the same length: the lockstep filtering of
      boxes, classes and scores. The length is the number of kept positions. */
  lemma {:induction false} CompressLength<T>(xs: seq<T>, keeps: seq<bool>)
    ensures |Compress(xs, keeps)| == CountKept(keeps, Min(|xs|, |keeps|))
    decreases |xs|
  {
    var n := Min(|xs|, |keeps|);
    if n > 0 {
      CompressLength(xs[..n - 1], keeps[..n - 1]);
      CountKeptPrefix(keeps, n - 1, n - 1);
    }
  }

  lemma {:induction false} CountKeptPrefix(keeps: seq<bool>, m: nat, n: nat)
    requires n <= m <= |keeps|
    ensures CountKept(keeps[..m], n) == CountKept(keeps, n)
  {
    if n > 0 {
      CountKeptPrefix(keeps, m, n - 1);
    }
  }

  /** Lockstep: two equally long lists filtered by the same mask stay equally long. */
  lemma {:induction false} CompressLockstep<S, T>(xs: seq<S>, ys: seq<T>, keeps: seq<bool>)
    ensures |xs| == |ys| ==> |Compress(xs, keeps)| == |Compress(ys, keeps)|
  {
    CompressLength(xs, keeps);
    CompressLength(ys, keeps);
  }

  /** Only the first `Min(|xs|, |keeps|)` elements of either list matter. */
  lemma {:induction false} CompressTruncateList<T>(xs: seq<T>, keeps: seq<bool>, m: nat)
    requires Min(|xs|, |keeps|) <= m <= |xs|
    ensures Compress(xs[..m], keeps) == Compress(xs, keeps)
  {
    var n := Min(|xs|, |keeps|);
    assert Min(|xs[..m]|, |keeps|) == n;
    if n > 0 {
      assert xs[..m][..n - 1] == xs[..n - 1];
      assert xs[..m][n - 1] == xs[n - 1];
    }
  }

  lemma {:induction false} CompressTruncateMask<T>(xs: seq<T>, keeps: seq<bool>, m: nat)
    requires Min(|xs|, |keeps|) <= m <= |keeps|
    ensures Compress(xs, keeps[..m]) == Compress(xs, keeps)
  {
    var n := Min(|xs|, |keeps|);
    assert Min(|xs|, |keeps[..m]|) == n;
    if n > 0 {
      assert keeps[..m][..n - 1] == keeps[..n - 1];
      assert keeps[..m][n - 1] == keeps[n - 1];
    }
  }

  /** A mask that keeps everything returns the zipped prefix of the list;
      one that keeps nothing returns the empty list. */
  lemma {:induction false} CompressUniform<T>(xs: seq<T>, keep: bool, n: nat)
    ensures Compress(xs, seq(n, _ => keep)) == if keep then xs[..Min(|xs|, n)] else []
    decreases |xs|
  {
    var keeps := seq(n, _ => keep);
    var m := Min(|xs|, n);
    if m > 0 {
      assert Min(|xs|, |keeps|) == m;
      assert keeps[m - 1] == keep;
      assert keeps[..m - 1] == seq(m - 1, _ => keep);
      CompressUniform(xs[..m - 1], keep, m - 1);
      assert xs[..m - 1][..Min(m - 1, m - 1)] == xs[..m - 1];
      assert xs[..m - 1] + [xs[m - 1]] == xs[..m];
    }
  }

  /** Extending the mask by one entry looks at one more element, when there is one. */
  lemma CompressSnoc<T>(xs: seq<T>, keeps: seq<bool>, k: bool)
    ensures Compress(xs, keeps + [k]) ==
      Compress(xs, keeps) + (if k && |keeps| < |xs| then [xs[|keeps|]] else [])
  {
    var n := |keeps|;
    var ks := keeps + [k];
    assert ks[..n] == keeps;
    if |xs| <= n {
      CompressTruncateMask(xs, ks, n);
    } else {
      CompressSnocLonger(xs, keeps, k);
    }
  }

  lemma CompressSnocLonger<T>(xs: seq<T>, keeps: seq<bool>, k: bool)
    requires |keeps| < |xs|
    ensures Compress(xs, keeps + [k]) == Compress(xs, keeps) + (if k then [xs[|keeps|]] else [])
  {
    var n := |keeps|;
    var ks := keeps + [k];
    assert ks[..n] == keeps;
    assert Min(|xs|, |ks|) == n + 1;
    assert Compress(xs, ks) == Compress(xs[..n], keeps) + (if k then [xs[n]] else []);
    CompressTruncateList(xs, keeps, n);
  }
}
