/**
 * `slice_path` (entyty/_entity/_grid_entity.py, lines 278-279): the list
 * comprehension `[path[i:i + m] for i in range(0, len(path), m)]` that cuts
 * a path into chunks of `m = movements` cells.
 */
module PathSlicing {
  import opened PySeq

  /**
   * The chunks, front to back. For `m < 0` the range is empty and so is the
   * result; `m == 0` makes `range` raise ValueError and is excluded.
   */
  function SlicePath<T>(path: seq<T>, m: int): (r: seq<seq<T>>)
    requires m != 0
    ensures m < 0 ==> r == []
    ensures path == [] ==> r == []
    decreases |path|
  {
    if m < 0 || path == [] then []
    else if |path| <= m then [path]
    else [path[..m]] + SlicePath(path[m..], m)
  }

  /** Python's `ceil(n / m)` for positive `m`. */
  function CeilDiv(n: nat, m: nat): nat
    requires m > 0
  {
    (n + m - 1) / m
  }

  /** A multiple of `m` strictly between `-m` and `m` is zero. */
  lemma MultipleBetween(d: int, m: int)
    requires m > 0 && -m < d * m < m
    ensures d == 0
  {
  }

  /** `k` is the rounded-up quotient when `(k - 1) * m < n <= k * m`. */
  lemma CeilDivExact(n: nat, m: nat, k: int)
    requires m > 0
    requires k * m - m < n <= k * m
    ensures CeilDiv(n, m) == k
  {
    var x := n + m - 1;
    var q := x / m;
    assert x == q * m + x % m;
    assert (k - q) * m == k * m - q * m;
    MultipleBetween(k - q, m);
  }

  /** `(i - 1) * m + m == i * m`, kept apart from the sequence reasoning. */
  lemma MulPred(i: int, m: int)
    ensures (i - 1) * m + m == i * m
  {
  }

  /** A non-empty path has between `(c - 1) * m + 1` and `c * m` cells, `c` the chunk count. */
  lemma {:induction false} SliceCountBounds<T>(path: seq<T>, m: int)
    requires m > 0 && path != []
    ensures (|SlicePath(path, m)| - 1) * m < |path| <= |SlicePath(path, m)| * m
    decreases |path|
  {
    if |path| > m {
      var rest := path[m..];
      SliceCountBounds(rest, m);
      var c := |SlicePath(rest, m)|;
      assert |SlicePath(path, m)| == c + 1;
      MulPred(c, m);
      MulPred(c + 1, m);
    }
  }

  /** There are `ceil(len(path) / m)` chunks. */
  lemma SliceCount<T>(path: seq<T>, m: int)
    requires m > 0
    ensures |SlicePath(path, m)| == CeilDiv(|path|, m)
  {
    if path == [] {
      CeilDivExact(0, m, 0);
    } else {
      SliceCountBounds(path, m);
      MulPred(|SlicePath(path, m)|, m);
      CeilDivExact(|path|, m, |SlicePath(path, m)|);
    }
  }

  /**
   * Element `i` of the result is `path[i*m : i*m + m]`, exactly as the
   * comprehension builds it.
   */
  lemma {:induction false} SliceAt<T>(path: seq<T>, m: int, i: nat)
    requires m > 0
    requires i < |SlicePath(path, m)|
    ensures i * m < |path|
    ensures SlicePath(path, m)[i] == path[i * m .. if i * m + m < |path| then i * m + m else |path|]
    decreases |path|
  {
    if |path| <= m {
    } else if i > 0 {
      var rest := path[m..];
      assert SlicePath(path, m)[i] == SlicePath(rest, m)[i - 1];
      SliceAt(rest, m, i - 1);
      var a := (i - 1) * m;
      MulPred(i, m);
      assert a + m == i * m;
      var b := if a + m < |rest| then a + m else |rest|;
      assert rest[a..b] == path[a + m .. b + m];
    }
  }

  /** The chunks concatenate back to the path. */
  lemma {:induction false} SliceFlatten<T>(path: seq<T>, m: int)
    requires m > 0
    ensures Flatten(SlicePath(path, m)) == path
    decreases |path|
  {
    if |path| > m {
      var r := SlicePath(path, m);
      assert r == [path[..m]] + SlicePath(path[m..], m);
      assert r[0] == path[..m] && r[1..] == SlicePath(path[m..], m);
      SliceFlatten(path[m..], m);
      assert Flatten(r) == path[..m] + path[m..];
    }
  }

  /**
   * Every chunk but the last holds exactly `m` cells; the last is non-empty
   * and holds at most `m`.
   */
  lemma {:induction false} SliceShape<T>(path: seq<T>, m: int)
    requires m > 0
    ensures forall k :: 0 <= k < |SlicePath(path, m)| - 1 ==> |SlicePath(path, m)[k]| == m
    ensures forall k :: 0 <= k < |SlicePath(path, m)| ==> 0 < |SlicePath(path, m)[k]| <= m
    decreases |path|
  {
    if path == [] || |path| <= m {
    } else {
      SliceShape(path[m..], m);
      var r := SlicePath(path, m);
      assert r == [path[..m]] + SlicePath(path[m..], m);
      forall k | 0 < k < |r| ensures r[k] == SlicePath(path[m..], m)[k - 1] { }
    }
  }
}
