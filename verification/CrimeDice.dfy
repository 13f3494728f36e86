/** Rolling a uniform number from random bytes by rejection. */
module CrimeDice {

  const TWO63: int := 0x8000_0000_0000_0000
  const TWO64: int := 0x1_0000_0000_0000_0000

  newtype byte = b: int | 0 <= b < 256

  /** The word eight bytes spell, most significant first. */
  function BigEndian(bytes: seq<byte>): (w: nat) {
    if bytes == [] then 0 else 256 * BigEndian(bytes[..|bytes| - 1]) + bytes[|bytes| - 1] as int
  }

  function Pow256(n: nat): nat { if n == 0 then 1 else 256 * Pow256(n - 1) }

  lemma {:induction false} BigEndianRange(bytes: seq<byte>)
    ensures BigEndian(bytes) < Pow256(|bytes|)
    decreases |bytes|
  {
    if bytes != [] {
      BigEndianRange(bytes[..|bytes| - 1]);
    }
  }

  /** Different buffers spell different words, so uniform bytes are a uniform word. */
  lemma {:induction false} BigEndianInjective(a: seq<byte>, b: seq<byte>)
    requires |a| == |b| && BigEndian(a) == BigEndian(b)
    ensures a == b
    decreases |a|
  {
    if a != [] {
      var n := |a| - 1;
      BigEndianInjective(a[..n], b[..n]);
      assert a == a[..n] + [a[n]] && b == b[..n] + [b[n]];
    }
  }

  lemma EightBytes(bytes: seq<byte>)
    requires |bytes| == 8
    ensures BigEndian(bytes) < TWO64
  {
    BigEndianRange(bytes);
    assert Pow256(8) == 256 * 256 * 256 * 256 * Pow256(4);
    assert Pow256(4) == 256 * 256 * 256 * 256;
  }

  /** Draws at or above this are thrown away. */
  function Limit(n: int): int
    requires n > 0
  {
    TWO63 - TWO63 % n
  }

  predicate Accepted(w: int, n: int)
    requires n > 0
  {
    w / 2 < Limit(n)
  }

  predicate Leaves(n: int, r: int, w: int)
    requires n > 0
  {
    w / 2 % n == r
  }

  /** The words that roll `r`. */
  ghost function Rolling(n: int, r: int): set<int>
    requires n > 0
  {
    set w | 0 <= w < TWO64 && Accepted(w, n) && Leaves(n, r, w)
  }

  lemma LimitIsWhole(n: int)
    requires 0 < n < TWO63
    ensures Limit(n) == TWO63 / n * n && Limit(n) / n == TWO63 / n
    ensures TWO63 < 2 * Limit(n) <= TWO64
  {
    var q := TWO63 / n;
    assert TWO63 == q * n + TWO63 % n;
    assert q >= 1;
    assert q * n >= n by { Grows(1, q, n); }
    QuotientOf(q * n, n, q);
  }

  lemma Grows(a: int, b: int, n: nat)
    requires a <= b
    ensures a * n <= b * n
  {
    assert (b - a) * n >= 0;
    assert b * n == a * n + (b - a) * n;
  }

  lemma QuotientOf(v: int, n: int, q: int)
    requires n > 0 && q * n <= v < q * n + n
    ensures v / n == q && v % n == v - q * n
  {
    var p := v / n;
    assert v == p * n + v % n;
    if p < q {
      Grows(p + 1, q, n);
    } else if q < p {
      Grows(q + 1, p, n);
    }
  }

  /** The words of the first `k` runs of `n` draws that leave `r`. */
  ghost function RollingBelow(n: int, r: int, k: nat): set<int>
    requires n > 0
  {
    set w | 0 <= w < 2 * (k * n) && Leaves(n, r, w)
  }

  /** Of the draws of one run, two leave `r`: one value of the draw, either value of the dropped bit. */
  lemma InThisRun(n: int, r: int, q: int, w: int)
    requires 0 <= r < n
    ensures 2 * (q * n) <= w < 2 * (q * n) + 2 * n ==>
      (Leaves(n, r, w) <==> w == 2 * (q * n + r) || w == 2 * (q * n + r) + 1)
  {
    if q * n <= w / 2 < q * n + n {
      QuotientOf(w / 2, n, q);
    }
  }

  lemma {:induction false} EachRunRollsOnce(n: int, r: int, k: nat)
    requires 0 <= r < n
    ensures |RollingBelow(n, r, k)| == 2 * k
  {
    hide Leaves;
    if k == 0 {
      assert RollingBelow(n, r, 0) == {};
    } else {
      EachRunRollsOnce(n, r, k - 1);
      NextRun(n, r, k - 1);
    }
  }

  lemma NextRun(n: int, r: int, k: nat)
    requires 0 <= r < n
    ensures |RollingBelow(n, r, k + 1)| == |RollingBelow(n, r, k)| + 2
  {
    hide Leaves;
    var was, now, v := RollingBelow(n, r, k), RollingBelow(n, r, k + 1), 2 * (k * n + r);
    assert (k + 1) * n == k * n + n;
    assert k * n >= 0;
    forall w: int
      ensures w in now <==> w in was || w == v || w == v + 1
    {
      InThisRun(n, r, k, w);
    }
    assert now == was + {v, v + 1};
    assert v !in was && v + 1 !in was;
  }

  /** The roll is uniform: of all the words the bytes can spell, exactly the same number
      roll each value, and more than half of them roll something. */
  lemma RollIsUnbiased(n: int, r: int)
    requires 1 < n < TWO63 && 0 <= r < n
    ensures |Rolling(n, r)| == 2 * (Limit(n) / n)
    ensures n * |Rolling(n, r)| == 2 * Limit(n) > TWO63
  {
    LimitIsWhole(n);
    var k := TWO63 / n;
    EachRunRollsOnce(n, r, k);
    assert Rolling(n, r) == RollingBelow(n, r, k);
    assert n * (2 * k) == 2 * (k * n);
  }

  datatype Rolled = OutOfBytes | Value(value: int)

  /** The first accepted buffer decides; a supply that runs out first decides nothing. */
  method Roll(n: int, buffers: seq<seq<byte>>) returns (r: Rolled)
    requires n < TWO63 && forall b | b in buffers :: |b| == 8
    ensures n <= 1 ==> r == Value(0)
    ensures n > 1 && r.Value? ==> exists k | 0 <= k < |buffers| ::
      && Accepted(BigEndian(buffers[k]), n) && (forall j | 0 <= j < k :: !Accepted(BigEndian(buffers[j]), n))
      && BigEndian(buffers[k]) in Rolling(n, r.value) && 0 <= r.value < n
    ensures n > 1 && r.OutOfBytes? ==> forall k | 0 <= k < |buffers| :: !Accepted(BigEndian(buffers[k]), n)
  {
    if n <= 1 {
      return Value(0);
    }
    var limit := TWO63 - TWO63 % n;
    for k := 0 to |buffers|
      invariant forall j | 0 <= j < k :: !Accepted(BigEndian(buffers[j]), n)
    {
      EightBytes(buffers[k]);
      var v := BigEndian(buffers[k]) / 2;
      if v < limit {
        return Value(v % n);
      }
    }
    return OutOfBytes;
  }
}
