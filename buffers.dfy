/** Bounded first-in-first-out buffers as the dashboard keeps them: the
    buffer is trimmed to its last `keep` entries (JavaScript's
    `slice(-keep)`) and then the new entry is appended, so a buffer holds
    at most `keep + 1` entries, oldest first. */
module Buffers {

  function Min(a: nat, b: nat): nat { if a <= b then a else b }

  /** The last `n` entries of `s` (all of `s` when it is shorter), i.e.
      `s.slice(-n)`. `slice(-0)` would keep everything, so only positive
      counts are modelled. */
  function KeepLast<T>(s: seq<T>, n: nat): (r: seq<T>)
    requires 0 < n
    ensures |r| == Min(n, |s|)
    ensures forall k :: 0 <= k < |r| ==> r[k] == s[|s| - |r| + k]
  {
    if |s| <= n then s else s[|s| - n..]
  }

  /** `[...s.slice(-keep), x]`: one bounded append. */
  function Push<T>(s: seq<T>, x: T, keep: nat): (r: seq<T>)
    requires 0 < keep
    ensures |r| == Min(keep, |s|) + 1 && |r| <= keep + 1
    ensures r[|r| - 1] == x
    ensures forall k :: 0 <= k < |r| - 1 ==> r[k] == s[|s| - (|r| - 1) + k]
  {
    KeepLast(s, keep) + [x]
  }

  /** Bounded appends of `xs`, one after the other, in order. */
  function PushAll<T>(s: seq<T>, xs: seq<T>, keep: nat): (r: seq<T>)
    requires 0 < keep
    ensures xs == [] ==> r == s
    ensures xs != [] ==> 0 < |r| <= keep + 1 && r[|r| - 1] == xs[|xs| - 1]
    ensures |s| <= keep + 1 ==> |r| <= keep + 1
    ensures forall y :: y in r ==> y in s || y in xs
  {
    if xs == [] then s
    else Push(PushAll(s, xs[..|xs| - 1], keep), xs[|xs| - 1], keep)
  }

  lemma PushAllSnoc<T>(s: seq<T>, xs: seq<T>, x: T, keep: nat)
    requires 0 < keep
    ensures PushAll(s, xs + [x], keep) == Push(PushAll(s, xs, keep), x, keep)
  {
    assert (xs + [x])[..|xs|] == xs;
  }

  /** Trimming to `n` then appending one entry and trimming again to `n`
      is the same as appending first and trimming once. */
  lemma KeepLastThenAppend<T>(t: seq<T>, x: T, n: nat)
    requires 0 < n
    ensures KeepLast(KeepLast(t, n) + [x], n) == KeepLast(t + [x], n)
  {
    var a := KeepLast(KeepLast(t, n) + [x], n);
    var b := KeepLast(t + [x], n);
    assert |a| == |b|;
    forall k | 0 <= k < |a| ensures a[k] == b[k] {
      if k == |a| - 1 {
      } else {
        var u := KeepLast(t, n) + [x];
        assert a[k] == u[|u| - |a| + k];
      }
    }
  }

  /** A bounded append keeps exactly the `keep + 1` most recent entries. */
  lemma PushIsWindow<T>(s: seq<T>, x: T, keep: nat)
    requires 0 < keep
    ensures Push(s, x, keep) == KeepLast(s + [x], keep + 1)
  {
    var a := Push(s, x, keep);
    var b := KeepLast(s + [x], keep + 1);
    assert |a| == |b|;
    forall k | 0 <= k < |a| ensures a[k] == b[k] {
      if k < |a| - 1 {
        assert (s + [x])[|s + [x]| - |b| + k] == s[|s| - (|a| - 1) + k];
      }
    }
  }

  /** After any non-empty run of bounded appends the buffer holds the
      `keep + 1` most recent entries of everything ever appended, oldest
      first. */
  lemma {:induction false} PushAllIsWindow<T>(s: seq<T>, xs: seq<T>, keep: nat)
    requires 0 < keep && xs != []
    ensures PushAll(s, xs, keep) == KeepLast(s + xs, keep + 1)
  {
    var front, x := xs[..|xs| - 1], xs[|xs| - 1];
    assert xs == front + [x];
    assert s + xs == (s + front) + [x];
    if front == [] {
      PushIsWindow(s, x, keep);
    } else {
      PushAllIsWindow(s, front, keep);
      PushIsWindow(PushAll(s, front, keep), x, keep);
      KeepLastThenAppend(s + front, x, keep + 1);
    }
  }
}
