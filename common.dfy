/**
 * Machine integer types, the Option wrapper and a few facts about page
 * bitmaps that several stages of the bootloader share.
 */
module Common {
  type u8 = x: int | 0 <= x < 0x100
  type u16 = x: int | 0 <= x < 0x1_0000
  type u32 = x: int | 0 <= x < 0x1_0000_0000
  type u64 = x: int | 0 <= x < 0x1_0000_0000_0000_0000

  const U32_MOD: int := 0x1_0000_0000
  const U64_MOD: int := 0x1_0000_0000_0000_0000

  datatype Option<T> = None | Some(value: T)

  /** 4 KiB page, as used by UEFI and by the bootloader's page bitmaps. */
  const PAGE_SIZE: int := 0x1000
  const KIBYTE: int := 1024

  /**
   * The length of the run of set entries that starts at index 0 of a page
   * bitmap: both stage 1 loaders size conventional memory this way.
   */
  function RunFromZero(avail: seq<bool>): (n: nat)
    ensures n <= |avail|
    ensures forall i :: 0 <= i < n ==> avail[i]
    ensures n < |avail| ==> !avail[n]
  {
    if |avail| == 0 || !avail[0] then 0 else 1 + RunFromZero(avail[1..])
  }

  /** A power of two, the only alignments the allocators are asked for. */
  predicate IsPow2(a: int)
    decreases if a < 1 then 0 else a
  {
    a == 1 || (a > 1 && a % 2 == 0 && IsPow2(a / 2))
  }

  predicate Aligned(x: int, align: int)
    requires align >= 1
  {
    x % align == 0
  }

  /** What `x & -align` computes for a power-of-two `align`. */
  function AlignDown(x: int, align: int): (r: int)
    requires x >= 0 && align >= 1
    ensures Aligned(r, align) && r <= x < r + align && r >= 0
  {
    DivMod(x, align);
    x - x % align
  }

  lemma DivMod(x: int, align: int)
    requires x >= 0 && align >= 1
    ensures x - x % align == (x / align) * align
    ensures ((x / align) * align) % align == 0
    ensures 0 <= x % align < align
  {
    MulMod(x / align, align);
  }

  lemma MulMod(q: int, align: int)
    requires align >= 1
    ensures (q * align) % align == 0
  {
    var t, m := (q * align) / align, (q * align) % align;
    assert (q - t) * align == m;
    SmallMultiple(q - t, align);
  }

  lemma SmallMultiple(d: int, k: int)
    requires k >= 1 && 0 <= d * k < k
    ensures d * k == 0
  {
  }

  /** What `(x + align - 1) & -align` computes for a power-of-two `align`. */
  function AlignUp(x: int, align: int): (r: int)
    requires x >= 0 && align >= 1
    ensures Aligned(r, align) && x <= r < x + align
  {
    AlignDown(x + align - 1, align)
  }

  /** Every aligned value at or above x is at or above AlignUp(x). */
  lemma AlignUpLeast(x: int, align: int, a: int)
    requires x >= 0 && align >= 1 && Aligned(a, align) && a >= x
    ensures a >= AlignUp(x, align)
  {
    var r := AlignUp(x, align);
    if a < r {
      // a and r are both multiples of align; a < r forces a <= r - align < x.
      MultiplesApart(a, r, align);
    }
  }

  /** Every aligned value at or below x is at or below AlignDown(x). */
  lemma AlignDownGreatest(x: int, align: int, a: int)
    requires x >= 0 && align >= 1 && Aligned(a, align) && a <= x
    ensures a <= AlignDown(x, align)
  {
    var r := AlignDown(x, align);
    if a > r {
      MultiplesApart(r, a, align);
    }
  }

  lemma MultiplesApart(a: int, b: int, align: int)
    requires align >= 1 && Aligned(a, align) && Aligned(b, align) && a < b
    ensures a + align <= b
  {
    var qa, qb := a / align, b / align;
    assert a == qa * align && b == qb * align;
    var d := qb - qa;
    assert d * align == b - a;
    PositiveFactor(d, align);
    MulMono(1, d, align);
  }

  lemma PositiveFactor(d: int, k: int)
    requires k >= 1 && d * k > 0
    ensures d >= 1
  {
    if d <= 0 {
      MulMono(d, 0, k);
    }
  }

  lemma MulMono(x: int, y: int, k: int)
    requires x <= y && k >= 0
    ensures x * k <= y * k
  {
  }

  /** Quotient and remainder are determined by any exact decomposition. */
  lemma DivModUnique(x: int, k: int, q: int, r: int)
    requires k >= 1 && 0 <= r < k && x == q * k + r
    ensures x / k == q && x % k == r
  {
    var q', r' := x / k, x % k;
    assert (q - q') * k == r' - r;
    if q > q' {
      MulMono(1, q - q', k);
    } else if q < q' {
      MulMono(1, q' - q, k);
    }
  }

  lemma DivDiv(x: int, j: int, k: int)
    requires x >= 0 && j >= 1 && k >= 1
    ensures x / j / k == x / (j * k)
  {
    var q := x / j / k;
    var r := (x / j) % k;
    var s := x % j;
    assert x == (q * k + r) * j + s;
    assert x == q * (j * k) + (r * j + s);
    assert r * j + s < j * k by {
      MulMono(r, k - 1, j);
    }
    DivModUnique(x, j * k, q, r * j + s);
  }

  lemma ProperSubsetSmaller<T>(a: set<T>, b: set<T>)
    requires a < b
    ensures |a| < |b|
  {
    var x :| x in b && x !in a;
    var c := b - {x};
    assert b == c + {x};
    assert a <= c;
    assert |a| <= |c| by {
      assert c == a + (c - a);
    }
  }

  /** The counting loop both stage 1 loaders use on their page bitmaps. */
  method CountFromZero(avail: array<bool>) returns (n: int)
    ensures n == RunFromZero(avail[..])
  {
    n := 0;
    while n < avail.Length && avail[n]
      invariant 0 <= n <= avail.Length
      invariant forall i :: 0 <= i < n ==> avail[i]
    {
      n := n + 1;
    }
  }
}
