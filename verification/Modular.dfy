/** Remainders: which positions of an un-wrapped counter name the same entry. */
module Modular {

  lemma MulMonotone(n: nat, a: int, b: int)
    ensures a <= b ==> n * a <= n * b
  {
  }

  lemma ModuloOf(n: nat, a: nat, r: nat)
    requires r < n
    ensures (n * a + r) % n == r
  {
    var x := n * a + r;
    var q := x / n;
    assert x == n * q + x % n;
    MulMonotone(n, q + 1, a);
    MulMonotone(n, a + 1, q);
    assert n * (q + 1) == n * q + n;
    assert n * (a + 1) == n * a + n;
  }

  /** Fewer than `n` apart, two positions name different entries of `n`. */
  lemma DistinctEntries(n: nat, p: nat, q: nat)
    requires 0 < n && p < q < p + n
    ensures p % n != q % n
  {
    var a, b := p / n, q / n;
    assert p == n * a + p % n && q == n * b + q % n;
    if b <= a {
      MulMonotone(n, b, a);
    } else {
      MulMonotone(n, a + 1, b);
      assert n * (a + 1) == n * a + n;
    }
  }

  /** Any `n` consecutive positions reach every entry. */
  lemma EntryInWindow(n: nat, start: nat, e: nat) returns (p: nat)
    requires e < n
    ensures start <= p < start + n && p % n == e
  {
    var r := start % n;
    assert start == n * (start / n) + r;
    if e >= r {
      p := start + (e - r);
      ModuloOf(n, start / n, e);
    } else {
      p := start + (e + n - r);
      ModuloOf(n, start / n + 1, e);
      assert n * (start / n + 1) == n * (start / n) + n;
    }
  }

  lemma WrapHarmless(w: nat, n: nat, i: nat)
    requires 0 < n <= w && w % n == 0
    ensures (i % w) % n == i % n
  {
    var k, q := w / n, i / w;
    var a, b := (i % w) / n, (i % w) % n;
    assert w == n * k;
    assert i == w * q + i % w;
    Factor(n, k, q, a, b);
    assert i == n * (k * q + a) + b;
    ModuloOf(n, k * q + a, b);
  }

  lemma Factor(n: nat, k: nat, q: nat, a: nat, b: nat)
    ensures (n * k) * q + (n * a + b) == n * (k * q + a) + b
  {
    assert (n * k) * q == n * (k * q);
    assert n * (k * q + a) == n * (k * q) + n * a;
  }

  /** `n` consecutive positions of a counter that wraps at `w` name different entries. */
  ghost predicate WindowApart(w: nat, n: nat, start: nat)
    requires 0 < w && 0 < n
  {
    forall i, j | start <= i < j < start + n :: (i % w) % n != (j % w) % n
  }

  /** Wrapping the counter keeps neighbouring positions on different entries, wherever it stands, if
      and only if the number of entries divides the wrap-around point (2^64 for a 64-bit counter). */
  lemma WrapKeepsEntriesApart(w: nat, n: nat)
    requires 0 < n <= w
    ensures (forall start: nat | start < w :: WindowApart(w, n, start)) <==> w % n == 0
  {
    if w % n == 0 {
      forall start: nat | start < w ensures WindowApart(w, n, start) {
        forall i, j | start <= i < j < start + n ensures (i % w) % n != (j % w) % n {
          WrapHarmless(w, n, i);
          WrapHarmless(w, n, j);
          DistinctEntries(n, i, j);
        }
      }
    } else {
      WrapCollides(w, n);
    }
  }

  lemma WrapCollides(w: nat, n: nat)
    requires 0 < n <= w && w % n != 0
    ensures !WindowApart(w, n, w - 1)
  {
    var r := w % n;
    var i, j := w - 1, w - 1 + r;
    ModuloOf(w, 1, r - 1);
    ModuloOf(w, 0, i);
    assert w == n * (w / n) + r;
    ModuloOf(n, w / n, r - 1);
    ModuloOf(n, 0, r - 1);
    assert (i % w) % n == (j % w) % n;
  }

  /** Three entries and a 64-bit counter: the last position before the wrap-around and the first one after
      it name the same entry. */
  lemma ThreeEntriesCollide()
    ensures var w := 0x1_0000_0000_0000_0000;
            ((w - 1) % w) % 3 == (w % w) % 3 && !WindowApart(w, 3, w - 1)
  {
    WrapCollides(0x1_0000_0000_0000_0000, 3);
  }
}
