/**
 * The few Python list operations the entity code relies on: `list.index`,
 * slices `s[:k]` and `s[k:]` with Python's treatment of negative and
 * out-of-range bounds, and flattening a list of lists.
 */
module PySeq {

  /** `xs.index(x)`: the first position of `x` in `xs`. */
  function IndexOf<T(==)>(xs: seq<T>, x: T): (i: nat)
    requires x in xs
    ensures i < |xs| && xs[i] == x
    ensures forall j :: 0 <= j < i ==> xs[j] != x
  {
    if xs[0] == x then 0 else 1 + IndexOf(xs[1..], x)
  }

  /** In a list without repeats, `list.index` finds an element's own position. */
  lemma IndexOfDistinct<T>(xs: seq<T>, i: nat)
    requires i < |xs|
    requires forall j, k :: 0 <= j < k < |xs| ==> xs[j] != xs[k]
    ensures IndexOf(xs, xs[i]) == i
  {
  }

  /**
   * The position a Python slice bound `k` denotes in a list of length `n`:
   * a negative bound counts from the end, and both ends are clamped.
   */
  function Bound(k: int, n: nat): (i: nat)
    ensures i <= n
    ensures 0 <= k <= n ==> i == k
    ensures k > n ==> i == n
    ensures k < 0 && 0 <= n + k ==> i == n + k
    ensures n + k < 0 ==> i == 0
  {
    if k < 0 then (if n + k < 0 then 0 else n + k) else (if k > n then n else k)
  }

  /** `s[:k]` */
  function Take<T>(s: seq<T>, k: int): (r: seq<T>)
    ensures r <= s
    ensures |r| == Bound(k, |s|)
  {
    s[..Bound(k, |s|)]
  }

  /** `s[k:]` */
  function Drop<T>(s: seq<T>, k: int): (r: seq<T>)
    ensures Take(s, k) + r == s
    ensures |r| == |s| - Bound(k, |s|)
  {
    s[Bound(k, |s|)..]
  }

  /** The concatenation of a list of lists, in order. */
  function Flatten<T>(ss: seq<seq<T>>): seq<T> {
    if ss == [] then [] else ss[0] + Flatten(ss[1..])
  }

  lemma {:induction false} FlattenAppend<T>(a: seq<seq<T>>, b: seq<seq<T>>)
    ensures Flatten(a + b) == Flatten(a) + Flatten(b)
  {
    if a == [] {
      assert a + b == b;
    } else {
      assert (a + b)[1..] == a[1..] + b;
      FlattenAppend(a[1..], b);
    }
  }

  /** Dropping leading chunks drops a prefix of the flattened list. */
  lemma {:induction false} FlattenPrefix<T>(a: seq<seq<T>>, b: seq<seq<T>>)
    requires a <= b
    ensures Flatten(a) <= Flatten(b)
  {
    var rest := b[|a|..];
    assert b == a + rest;
    FlattenAppend(a, rest);
  }

  /**
   * When the chunks spell out a prefix of `s`, the first chunk is a prefix of
   * `s` and the other chunks spell out a prefix of what follows it.
   */
  lemma FlattenPrefixTail<T>(q: seq<seq<T>>, s: seq<T>)
    requires q != [] && Flatten(q) <= s
    ensures q[0] <= s
    ensures Flatten(q[1..]) <= s[|q[0]|..]
    ensures Flatten(q) == s ==> Flatten(q[1..]) == s[|q[0]|..]
  {
  }
}
