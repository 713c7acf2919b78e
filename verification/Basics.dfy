/** Vocabulary shared by every part of the model. */
module Basics {

  /** Message identifiers: the numeric value of a 128-bit ULID. */
  type Id = nat

  /** Lease receipts. The engine draws a fresh one for every hand-out. */
  type Receipt = nat

  type byte = b: int | 0 <= b < 256

  type Bytes = seq<byte>

  datatype Option<+T> = None | Some(value: T)

  /** No value occurs at two positions of `s`. */
  ghost predicate NoDup<T>(s: seq<T>) {
    forall i, j :: 0 <= i < j < |s| ==> s[i] != s[j]
  }

  function Elems<T>(s: seq<T>): set<T> {
    set x | x in s
  }

  function Min(a: int, b: int): int {
    if a <= b then a else b
  }

  function Max(a: int, b: int): int {
    if a <= b then b else a
  }

  /** Rust's `a.saturating_sub(b)`. */
  function SatSub(a: nat, b: nat): nat {
    if b <= a then a - b else 0
  }

  lemma Assoc<T>(a: seq<T>, b: seq<T>, c: seq<T>)
    ensures (a + b) + c == a + (b + c)
  {
  }

  lemma Snoc<T>(s: seq<T>, x: T)
    ensures (s + [x])[..|s + [x]| - 1] == s && (s + [x])[|s + [x]| - 1] == x
  {
  }

  lemma PrefixStep<T>(s: seq<T>, k: nat)
    requires k < |s|
    ensures s[..k + 1] == s[..k] + [s[k]] && s[..k + 1][..k] == s[..k]
  {
  }

  lemma EmptyRight<T>(s: seq<T>)
    ensures s + [] == s
  {
  }

  /** Consuming a slice one element at a time. */
  lemma SnocSlice<T>(done: seq<T>, s: seq<T>, at: nat, end: nat)
    requires at < end <= |s|
    ensures done + s[at..end] == (done + [s[at]]) + s[at + 1..end]
  {
  }

  lemma Cancel<T>(a: seq<T>, b: seq<T>, c: seq<T>)
    ensures a + b == a + c ==> b == c
  {
    assert (a + b)[|a|..] == b && (a + c)[|a|..] == c;
  }

  lemma SuffixStep<T>(s: seq<T>, k: nat)
    requires k < |s|
    ensures s[k..][0] == s[k] && s[k..][1..] == s[k + 1..]
  {
  }

  lemma Unsnoc<T>(s: seq<T>)
    requires s != []
    ensures s == s[..|s| - 1] + [s[|s| - 1]]
  {
  }

  /** Euclidean division is unique. */
  lemma DivModUnique(x: int, q: int, r: int, n: int)
    requires 0 <= r < n && x == q * n + r
    ensures x / n == q && x % n == r
  {
    var d := x / n - q;
    assert d * n == r - x % n by {
      assert x == (x / n) * n + x % n;
      assert d * n == (x / n) * n - q * n;
    }
    assert (1 <= d ==> n <= d * n) && (d <= -1 ==> d * n <= -n);
  }
}
