/** Facts about sequences that several modules share. */
module Sequences {
  lemma Associative<T>(a: seq<T>, b: seq<T>, c: seq<T>)
    ensures a + b + c == a + (b + c)
  {
  }

  lemma AssociativeFour<T>(p: seq<T>, a: seq<T>, b: seq<T>, c: seq<T>)
    ensures p + a + b + c == p + (a + b + c)
  {
  }

  /** A prefix one longer ends with the next element. */
  lemma TakeStep<T>(s: seq<T>, j: nat)
    requires j < |s|
    ensures s[..j + 1] == s[..j] + [s[j]]
  {
  }

  /** The elements of the middle part of `a + b + c`. */
  lemma IndexMiddle<T>(a: seq<T>, b: seq<T>, c: seq<T>, i: nat)
    requires i < |b|
    ensures |a| + i < |a + b + c| && (a + b + c)[|a| + i] == b[i]
  {
  }

  /** The elements of the last part of `a + b + c`. */
  lemma IndexLast<T>(a: seq<T>, b: seq<T>, c: seq<T>, i: nat)
    requires i < |c|
    ensures |a| + |b| + i < |a + b + c| && (a + b + c)[|a| + |b| + i] == c[i]
  {
  }

  /** The blocks of `xss`, one after another. */
  function Concat<T>(xss: seq<seq<T>>): (r: seq<T>)
    ensures xss == [] ==> r == []
  {
    if xss == [] then [] else Concat(xss[..|xss| - 1]) + xss[|xss| - 1]
  }

  /** One more block appends that block. */
  lemma ConcatStep<T>(xss: seq<seq<T>>, i: nat)
    requires i < |xss|
    ensures Concat(xss[..i + 1]) == Concat(xss[..i]) + xss[i]
  {
    assert xss[..i + 1][..i] == xss[..i];
  }

  /** The blocks of two sequences of blocks are the blocks of the first, then of the second. */
  lemma {:induction false} ConcatAppend<T>(a: seq<seq<T>>, b: seq<seq<T>>)
    ensures Concat(a + b) == Concat(a) + Concat(b)
    decreases |b|
  {
    if b == [] {
      assert a + b == a;
    } else {
      var init := b[..|b| - 1];
      ConcatAppend(a, init);
      assert (a + b)[..|a + b| - 1] == a + init;
      Associative(Concat(a), Concat(init), b[|b| - 1]);
    }
  }

  /** Block `i` sits between the blocks before it and the blocks after it. */
  lemma ConcatSplit<T>(xss: seq<seq<T>>, i: nat)
    requires i < |xss|
    ensures Concat(xss) == Concat(xss[..i]) + xss[i] + Concat(xss[i + 1..])
  {
    assert xss == xss[..i + 1] + xss[i + 1..];
    ConcatAppend(xss[..i + 1], xss[i + 1..]);
    ConcatStep(xss, i);
  }

  /** The total length is the sum of the block lengths; a block of `n` elements per entry gives `n` times as many. */
  lemma {:induction false} ConcatUniform<T>(xss: seq<seq<T>>, n: nat)
    requires forall k | 0 <= k < |xss| :: |xss[k]| == n
    ensures |Concat(xss)| == n * |xss|
  {
    if xss != [] {
      var init := xss[..|xss| - 1];
      ConcatUniform(init, n);
      assert |Concat(xss)| == n * |init| + n;
      assert n * |init| + n == n * |xss|;
    }
  }

  /** In blocks of `n` elements each, element `j` of block `k` is element `n * k + j` of the whole. */
  lemma {:induction false} ConcatUniformAt<T>(xss: seq<seq<T>>, n: nat, k: nat, j: nat)
    requires forall m | 0 <= m < |xss| :: |xss[m]| == n
    requires k < |xss| && j < n
    ensures n * k + j < |Concat(xss)| && Concat(xss)[n * k + j] == xss[k][j]
  {
    var init := xss[..|xss| - 1];
    ConcatUniform(init, n);
    if k < |xss| - 1 {
      ConcatUniformAt(init, n, k, j);
    }
  }
}
