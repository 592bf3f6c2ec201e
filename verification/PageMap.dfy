/**
 * The page arithmetic of little_sys_mmap and little_sys_munmap in nalu_datafifo.c, masks and 64-bit
 * wrap-around included, for any page size that is a power of two.
 */
module PageMap {
  import opened Bytes

  // ----- bits -----

  function Pow2(k: nat): (p: nat)
    ensures p > 0
  {
    if k == 0 then 1 else 2 * Pow2(k - 1)
  }

  /** Bitwise and. */
  function And(x: nat, y: nat): nat {
    if x == 0 || y == 0 then 0 else 2 * And(x / 2, y / 2) + (x % 2) * (y % 2)
  }

  const TWO64: nat := 0x1_0000_0000_0000_0000

  /** `~x` on 64 bits, and a sum cut to 64 bits. */
  function Not64(x: u64): u64 {
    TWO64 - 1 - x
  }

  function And64(x: u64, y: u64): u64 {
    And(x, y) % TWO64
  }

  function Add64(x: u64, y: u64): u64 {
    (x + y) % TWO64
  }

  lemma {:induction false} Times(m: nat, a: nat, b: nat)
    requires a <= b
    ensures m * a <= m * b
  {
  }

  lemma {:induction false} DivModUnique(x: nat, m: nat, q: nat, r: nat)
    requires m > 0 && x == q * m + r && r < m
    ensures x / m == q && x % m == r
  {
    assert x == m * (x / m) + x % m;
    if x / m > q {
      Times(m, q + 1, x / m);
    } else if x / m < q {
      Times(m, x / m + 1, q);
    }
  }

  /** The remainder by a power of two, one bit at a time. */
  lemma {:induction false} ModHalf(x: nat, m: nat)
    requires m > 0
    ensures x % (2 * m) == 2 * ((x / 2) % m) + x % 2
  {
    var h := x / 2;
    var q, r := h / m, 2 * (h % m) + x % 2;
    assert h == q * m + h % m;
    assert x == q * (2 * m) + r;
    DivModUnique(x, 2 * m, q, r);
  }

  lemma {:induction false} LowBits(x: nat, k: nat)
    ensures And(x, Pow2(k) - 1) == x % Pow2(k)
  {
    if k > 0 {
      var m := Pow2(k - 1);
      LowBits(x / 2, k - 1);
      ModHalf(x, m);
      hide Pow2;
      assert (2 * m - 1) / 2 == m - 1 && (2 * m - 1) % 2 == 1;
    }
  }

  lemma {:induction false} HighBits(x: nat, k: nat, w: nat)
    requires k <= w && x < Pow2(w)
    ensures Pow2(k) <= Pow2(w) && And(x, Pow2(w) - Pow2(k)) == x - x % Pow2(k)
  {
    if k == 0 {
      LowBits(x, w);
      Small(x, Pow2(w));
    } else {
      HighBits(x / 2, k - 1, w - 1);
      ModHalf(x, Pow2(k - 1));
    }
  }

  lemma {:induction false} Small(x: nat, m: nat)
    requires x < m
    ensures x % m == x
  {
    DivModUnique(x, m, 0, x);
  }

  lemma {:induction false} EightMore(k: nat)
    ensures Pow2(k + 8) == 0x100 * Pow2(k)
  {
    assert Pow2(k + 2) == 4 * Pow2(k);
    assert Pow2(k + 4) == 4 * Pow2(k + 2);
    assert Pow2(k + 6) == 4 * Pow2(k + 4);
  }

  lemma {:induction false} Pow64()
    ensures Pow2(64) == TWO64
  {
    assert Pow2(0) == 1;
    hide Pow2;
    EightMore(0);
    EightMore(8);
    EightMore(16);
    EightMore(24);
    EightMore(32);
    EightMore(40);
    EightMore(48);
    EightMore(56);
  }

  lemma {:induction false} Pow2Grows(k: nat, w: nat)
    requires k <= w
    ensures Pow2(k) <= Pow2(w)
  {
    if k < w {
      Pow2Grows(k, w - 1);
    }
  }

  // ----- the code -----

  /** `page_offset`, `mmap_offset` and `mmap_size` as both functions compute them. */
  datatype Range = Range(offset: u64, base: u64, size: u64)

  function MapRange(phys: u64, size: u32, page: nat): Range
    requires 0 < page <= TWO64
  {
    var mask := page - 1;
    var offset := And64(phys, mask);
    Range(offset, And64(phys, Not64(mask)), And64(Add64(Add64(size, offset), mask), Not64(mask)))
  }

  // ----- what it amounts to -----

  predicate Aligned(x: nat, page: nat)
    requires page > 0
  {
    x % page == 0
  }

  predicate Covers(base: nat, len: nat, phys: nat, size: nat) {
    base <= phys && phys + size <= base + len
  }

  lemma {:induction false} Parts(x: nat, page: nat)
    requires page > 0
    ensures x == page * (x / page) + x % page
    ensures Aligned(x, page) ==> x == page * (x / page)
  {
  }

  lemma {:induction false} DownAligned(x: nat, page: nat)
    requires page > 0
    ensures x % page <= x && Aligned(x - x % page, page) && x % page < page
  {
    DivModUnique(x - x % page, page, x / page, 0);
  }

  /** Two multiples of the page size that differ do so by a page at least. */
  lemma {:induction false} Gap(a: nat, b: nat, page: nat)
    requires page > 0 && Aligned(a, page) && Aligned(b, page) && a < b
    ensures a + page <= b
  {
    Parts(a, page);
    Parts(b, page);
    if b / page <= a / page {
      Times(page, b / page, a / page);
    } else {
      Times(page, a / page + 1, b / page);
    }
  }

  lemma {:induction false} AlignedSum(a: nat, b: nat, page: nat)
    requires page > 0 && Aligned(a, page) && Aligned(b, page)
    ensures Aligned(a + b, page)
  {
    Parts(a, page);
    Parts(b, page);
    DivModUnique(a + b, page, a / page + b / page, 0);
  }

  lemma {:induction false} MaskLow(x: u64, k: nat)
    requires k <= 62 && Pow2(k) <= TWO64
    ensures And64(x, Pow2(k) - 1) == x % Pow2(k)
  {
    LowBits(x, k);
    DownAligned(x, Pow2(k));
    Small(x % Pow2(k), TWO64);
  }

  lemma {:induction false} MaskHigh(x: u64, k: nat)
    requires k <= 62 && Pow2(k) <= TWO64
    ensures And64(x, Not64(Pow2(k) - 1)) == x - x % Pow2(k)
  {
    Pow64();
    HighBits(x, k, 64);
    DownAligned(x, Pow2(k));
    Small(x - x % Pow2(k), TWO64);
  }

  lemma {:induction false} PageBound(k: nat)
    requires k <= 62
    ensures 4 * Pow2(k) <= TWO64
  {
    Pow64();
    Pow2Grows(k, 62);
    assert Pow2(64) == 4 * Pow2(62);
  }

  /** The masks round down to pages, and no step of the computation wraps. */
  lemma {:induction false} Masks(phys: u64, size: u32, k: nat)
    requires k <= 62
    ensures Pow2(k) <= TWO64
    ensures var page, r := Pow2(k), MapRange(phys, size, Pow2(k));
            var sum := size + phys % page + page - 1;
            && r.offset == phys % page && r.base == phys - phys % page
            && sum < TWO64 && r.size == sum - sum % page
  {
    hide And64, Pow2;
    PageBound(k);
    var page := Pow2(k);
    DownAligned(phys, page);
    MaskLow(phys, k);
    MaskHigh(phys, k);
    var sum := size + phys % page + page - 1;
    Small(size + phys % page, TWO64);
    Small(sum, TWO64);
    MaskHigh(sum, k);
  }

  /** A pack needs at least the pages the computed range spans. */
  lemma {:induction false} NoSmaller(b: nat, l: nat, phys: nat, size: nat, page: nat)
    requires page > 0 && Aligned(b, page) && Aligned(l, page) && Covers(b, l, phys, size)
    ensures var sum := size + phys % page + page - 1;
            phys % page <= phys && sum % page <= sum
            && b <= phys - phys % page && phys - phys % page + (sum - sum % page) <= b + l
  {
    hide Aligned;
    var base, sum := phys - phys % page, size + phys % page + page - 1;
    DownAligned(phys, page);
    DownAligned(sum, page);
    AlignedSum(b, l, page);
    AlignedSum(base, sum - sum % page, page);
    if b > base {
      Gap(base, b, page);
    }
    if b + l < base + (sum - sum % page) {
      Gap(b + l, base + (sum - sum % page), page);
    }
  }

  /**
   * The mapping is page-aligned, covers the pack, and is the smallest such range: any aligned range that
   * covers the pack contains it.
   */
  lemma {:induction false} SmallestCover(phys: u64, size: u32, k: nat)
    requires k <= 62
    ensures Pow2(k) <= TWO64
    ensures var page, r := Pow2(k), MapRange(phys, size, Pow2(k));
            && Aligned(r.base, page) && Aligned(r.size, page) && Covers(r.base, r.size, phys, size)
            && r.base + r.offset == phys
            && forall b: nat, l: nat :: Aligned(b, page) && Aligned(l, page) && Covers(b, l, phys, size) ==>
                 b <= r.base && r.base + r.size <= b + l
  {
    hide MapRange, Pow2, Aligned;
    Masks(phys, size, k);
    var page := Pow2(k);
    hide And;
    var r := MapRange(phys, size, page);
    var sum := size + phys % page + page - 1;
    DownAligned(phys, page);
    DownAligned(sum, page);
    forall b: nat, l: nat | Aligned(b, page) && Aligned(l, page) && Covers(b, l, phys, size)
      ensures b <= r.base && r.base + r.size <= b + l
    {
      NoSmaller(b, l, phys, size, page);
    }
  }

  /** The address `little_sys_mmap` returns for the start `mapped` of a mapping. */
  function Virtual(mapped: u64, phys: u64, size: u32, page: nat): u64
    requires 0 < page <= TWO64
  {
    Add64(mapped, MapRange(phys, size, page).offset)
  }

  /** What `little_sys_munmap` passes on: the start and the size of the mapping to remove. */
  function UnmapRange(virt: u64, phys: u64, size: u32, page: nat): (u64, u64)
    requires 0 < page <= TWO64
  {
    var mask := page - 1;
    var offset := And64(phys, mask);
    ((virt - offset) % TWO64, And64(Add64(Add64(size, offset), mask), Not64(mask)))
  }

  /** Unmapping gives back exactly the mapping made, wherever it was. */
  lemma {:induction false} UnmapsWhatWasMapped(mapped: u64, phys: u64, size: u32, page: nat)
    requires 0 < page <= TWO64
    ensures UnmapRange(Virtual(mapped, phys, size, page), phys, size, page) == (mapped, MapRange(phys, size, page).size)
  {
    hide And64;
    var offset := And64(phys, page - 1);
    if mapped + offset < TWO64 {
      Small(mapped + offset, TWO64);
    } else {
      DivModUnique(mapped + offset, TWO64, 1, mapped + offset - TWO64);
      assert (mapped - TWO64) % TWO64 == mapped;
    }
  }
}
