/**
 The work-item grid of an OpenCL scan: how many items the host launches for a range of `n` nonces, and which offsets
 each item of each kernel scans. All kernel arithmetic is 32-bit and wraps. The grid is exact when the items together
 scan every offset below `n` once and nothing else; that is proved to hold exactly when no product in the kernel
 wraps.
 */
module OpenClGrid {
  import opened Words

  /** The kernels that differ in how a work item finds its nonces. */
  datatype Kernel = Npi1 | Npi2 | Npi4 | RegisterHeavy | General

  /** `kernel_name_for_npi`, and the two nonces per item the register-heavy variant forces. */
  ghost predicate Serves(kernel: Kernel, npi: nat) {
    match kernel
    case Npi1 => npi == 1
    case Npi2 => npi == 2
    case Npi4 => npi == 4
    case RegisterHeavy => npi == 2
    case General => 1 <= npi <= 64
  }

  // The kernels

  /** `scan_nonce_range_npi1`: the offsets item `globalId` scans. While nothing wraps, its own as far as `n`. */
  method KernelNpi1(globalId: nat, n: U32) returns (offsets: seq<U32>)
    ensures offsets == ItemOffsets(Npi1, globalId, n, 1)
    ensures globalId + 1 <= U32_LIMIT ==> offsets == Span(Min(n, globalId), Min(n, globalId + 1))
  {
    if globalId * 1 + 1 <= U32_LIMIT {
      FixedItem(Npi1, globalId, n, 1);
    }
    offsets := [];
    var gid := Wrap32(globalId);
    if gid >= n {
      return;
    }
    offsets := offsets + [gid];
  }

  /** `scan_nonce_range_npi2`; the register-heavy kernel scans the same two offsets, one per lane. */
  method KernelNpi2(globalId: nat, n: U32) returns (offsets: seq<U32>)
    ensures offsets == ItemOffsets(Npi2, globalId, n, 2) == ItemOffsets(RegisterHeavy, globalId, n, 2)
    ensures globalId * 2 + 2 <= U32_LIMIT ==> offsets == Span(Min(n, globalId * 2), Min(n, globalId * 2 + 2))
  {
    if globalId * 2 + 2 <= U32_LIMIT {
      FixedItem(Npi2, globalId, n, 2);
    }
    offsets := [];
    var base := Wrap32(Wrap32(globalId) * 2);
    if base >= n {
      return;
    }
    offsets := offsets + [base];
    if Wrap32(base as int + 1) < n {
      offsets := offsets + [Wrap32(base as int + 1)];
    }
  }

  /** `scan_nonce_range_npi4`. */
  method KernelNpi4(globalId: nat, n: U32) returns (offsets: seq<U32>)
    ensures offsets == ItemOffsets(Npi4, globalId, n, 4)
    ensures globalId * 4 + 4 <= U32_LIMIT ==> offsets == Span(Min(n, globalId * 4), Min(n, globalId * 4 + 4))
  {
    if globalId * 4 + 4 <= U32_LIMIT {
      FixedItem(Npi4, globalId, n, 4);
    }
    hide Span;
    offsets := [];
    var base := Wrap32(Wrap32(globalId) * 4);
    if base >= n {
      return;
    }
    offsets := offsets + [base];
    if Wrap32(base as int + 1) < n {
      offsets := offsets + [Wrap32(base as int + 1)];
    }
    if Wrap32(base as int + 2) < n {
      offsets := offsets + [Wrap32(base as int + 2)];
    }
    if Wrap32(base as int + 3) < n {
      offsets := offsets + [Wrap32(base as int + 3)];
    }
  }

  /** `scan_nonce_range`, for every other number of nonces per item, and the kernel without atomics. */
  method KernelGeneral(globalId: nat, n: U32, npi: U32) returns (offsets: seq<U32>)
    requires npi > 0
    ensures offsets == ItemOffsets(General, globalId, n, npi)
    ensures n > 0 && globalId < U32_LIMIT && (globalId < ItemCount(n, npi) ==> globalId * npi + npi < U32_LIMIT) ==>
              0 <= globalId * npi && offsets == Span(Min(n, globalId * npi), Min(n, globalId * npi + npi))
  {
    offsets := [];
    var gid := Wrap32(globalId);
    if n == 0 {
      return;
    }
    if globalId < U32_LIMIT && (globalId < ItemCount(n, npi) ==> globalId * npi + npi < U32_LIMIT) {
      GeneralItem(globalId, n, npi);
    }
    hide Span;
    var items := (n - 1) / npi + 1;
    if gid >= items {
      return;
    }
    var base := Wrap32(gid * npi);
    hide Wrap32;
    var limit: int := npi;
    if Wrap32(base + limit) > n {
      limit := Wrap32(n as int - base);
    }
    offsets := ItemLoop(base, limit);
  }

  /** `for (item = 0; item < limit; ++item) SCAN_ONE(base_nonce + item)`. */
  method ItemLoop(base: U32, limit: nat) returns (offsets: seq<U32>)
    ensures offsets == WrappedSpan(base, limit)
  {
    hide Wrap32;
    offsets := [];
    for item := 0 to limit
      invariant offsets == WrappedSpan(base, item)
    {
      offsets := offsets + [Wrap32(base + item)];
    }
  }

  /** `base`, `base + 1`, ..., modulo 2^32. */
  function WrappedSpan(base: U32, count: nat): seq<U32> {
    if count == 0 then [] else WrappedSpan(base, count - 1) + [Wrap32(base + count - 1)]
  }

  function Below(base: U32, add: nat, n: U32): seq<U32> {
    var offset := Wrap32(base + add);
    if offset < n then [offset] else []
  }

  /** The offsets item `globalId` scans. */
  function ItemOffsets(kernel: Kernel, globalId: nat, n: U32, npi: U32): seq<U32>
    requires npi > 0
  {
    var gid := Wrap32(globalId);
    match kernel
    case Npi1 => if gid >= n then [] else [gid]
    case Npi2 =>
      var base := Wrap32(gid * 2);
      if base >= n then [] else [base] + Below(base, 1, n)
    case RegisterHeavy =>
      var base := Wrap32(gid * 2);
      if base >= n then [] else [base] + Below(base, 1, n)
    case Npi4 =>
      var base := Wrap32(gid * 4);
      if base >= n then [] else [base] + Below(base, 1, n) + Below(base, 2, n) + Below(base, 3, n)
    case General =>
      if n == 0 || gid >= ItemCount(n, npi) then []
      else
        var base := Wrap32(gid * npi);
        WrappedSpan(base, if Wrap32(base + npi) > n then Wrap32(n as int - base) else npi)
  }

  function ItemCount(n: U32, npi: U32): nat
    requires n > 0 && npi > 0
  {
    (n - 1) / npi + 1
  }

  /** The host's launch size: one item per `npi` nonces, rounded up to whole work groups. */
  function GlobalSize(n: U32, npi: U32, local: U32): (global: nat)
    requires npi > 0
  {
    RoundUp((n as int + npi - 1) / npi, local)
  }

  function RoundUp(items: nat, local: U32): nat {
    if local > 0 && items % local != 0 then items + local - items % local else items
  }

  /** Everything the launched items scan, item by item. */
  function Scanned(kernel: Kernel, n: U32, npi: U32, global: nat): seq<U32>
    requires npi > 0
  {
    if global == 0 then [] else Scanned(kernel, n, npi, global - 1) + ItemOffsets(kernel, global - 1, n, npi)
  }

  function Span(a: nat, b: nat): (r: seq<U32>)
    requires a <= b <= U32_LIMIT
    ensures |r| == b - a
  {
    seq(b - a, i requires 0 <= i < b - a => a + i)
  }

  /** Every offset below `n`, once. */
  function Range(n: U32): seq<U32> { Span(0, n) }

  function Min(x: int, y: int): int { if x < y then x else y }

  /** No product or sum in the launched items leaves 32 bits. A caller can test this before the launch. */
  predicate NoWrap(kernel: Kernel, n: U32, npi: U32, global: nat)
    requires n > 0 && npi > 0
  {
    if kernel == General then global <= U32_LIMIT && ItemCount(n, npi) * npi < U32_LIMIT
    else global * npi <= U32_LIMIT
  }

  lemma {:induction false} WrappedSpanIs(base: U32, count: nat)
    requires base + count <= U32_LIMIT
    ensures WrappedSpan(base, count) == Span(base, base + count)
  {
    if count > 0 {
      WrappedSpanIs(base, count - 1);
    }
  }

  lemma {:induction false} WrappedSpanLength(base: U32, count: nat)
    ensures |WrappedSpan(base, count)| == count
  {
    if count > 0 {
      WrappedSpanLength(base, count - 1);
    }
  }

  lemma WrapSmall(x: int)
    requires 0 <= x < U32_LIMIT
    ensures Wrap32(x) == x
  {
  }

  lemma SpanJoin(a: nat, b: nat, c: nat)
    requires a <= b <= c <= U32_LIMIT
    ensures Span(a, b) + Span(b, c) == Span(a, c)
  {
  }

  lemma BelowIs(base: U32, add: nat, n: U32)
    requires base + add < U32_LIMIT
    ensures Below(base, add, n) == Span(Min(n, base + add), Min(n, base + add + 1))
  {
  }

  /** A fixed kernel's item scans its own `npi` offsets, as far as they are below `n`. */
  lemma FixedItem(kernel: Kernel, gid: nat, n: U32, npi: U32)
    requires kernel != General && Serves(kernel, npi) && gid * npi + npi <= U32_LIMIT
    ensures ItemOffsets(kernel, gid, n, npi) == Span(Min(n, gid * npi), Min(n, gid * npi + npi))
  {
    hide Wrap32, Below, Span;
    var base := gid * npi;
    WrapSmall(gid);
    WrapSmall(base);
    SpanOfOne(base, n);
    if npi > 1 {
      BelowIs(base, 1, n);
      SpanJoin(Min(n, base), Min(n, base + 1), Min(n, base + 2));
    }
    if npi == 4 {
      BelowIs(base, 2, n);
      BelowIs(base, 3, n);
      SpanJoin(Min(n, base), Min(n, base + 2), Min(n, base + 3));
      SpanJoin(Min(n, base), Min(n, base + 3), Min(n, base + 4));
    }
  }

  lemma SpanOfOne(base: U32, n: U32)
    ensures base < n ==> Span(Min(n, base), Min(n, base + 1)) == [base]
    ensures base >= n ==> forall k :: base <= k <= U32_LIMIT ==> Span(Min(n, base), Min(n, k)) == []
  {
  }

  lemma LastItem(n: U32, npi: U32)
    requires n > 0 && npi > 0
    ensures (ItemCount(n, npi) - 1) * npi < n <= ItemCount(n, npi) * npi
  {
    var q := (n - 1) / npi;
    assert (n - 1) == q * npi + (n - 1) % npi;
    assert (q + 1) * npi == q * npi + npi;
  }

  /** The general kernel's item does too, as long as the end of its stretch is representable. */
  lemma GeneralItem(gid: nat, n: U32, npi: U32)
    requires n > 0 && npi > 0 && gid < U32_LIMIT
    requires gid < ItemCount(n, npi) ==> gid * npi + npi < U32_LIMIT
    ensures 0 <= gid * npi
    ensures ItemOffsets(General, gid, n, npi) == Span(Min(n, gid * npi), Min(n, gid * npi + npi))
  {
    hide Wrap32, Span, WrappedSpan, ItemCount, ItemOffsets;
    LastItem(n, npi);
    if gid < ItemCount(n, npi) {
      MultiplesOrdered(gid, ItemCount(n, npi) - 1, npi);
      WorkingItem(gid, gid * npi, n, npi);
    } else {
      MultiplesOrdered(ItemCount(n, npi), gid, npi);
      IdleItem(gid, n, npi);
      EmptySpan(n);
    }
  }

  lemma WorkingItem(gid: nat, base: nat, n: U32, npi: U32)
    requires n > 0 && npi > 0 && gid < U32_LIMIT && gid < ItemCount(n, npi)
    requires base == gid * npi && base < n && base + npi < U32_LIMIT
    ensures ItemOffsets(General, gid, n, npi) == Span(base, Min(n, base + npi))
  {
    hide Wrap32, Span, WrappedSpan, ItemCount;
    WrapSmall(gid);
    WrapSmall(base);
    WrapSmall(base + npi);
    WrapSmall(n as int - base);
    WrappedSpanIs(base, Min(n, base + npi) - base);
  }

  lemma IdleItem(gid: nat, n: U32, npi: U32)
    requires n > 0 && npi > 0 && gid < U32_LIMIT && gid >= ItemCount(n, npi)
    ensures ItemOffsets(General, gid, n, npi) == []
  {
    hide Wrap32, Span, WrappedSpan, ItemCount;
    WrapSmall(gid);
  }

  lemma EmptySpan(n: U32)
    ensures Span(n, n) == []
  {
  }

  /** One more item continues the stretch already scanned. */
  lemma ItemExtends(kernel: Kernel, n: U32, npi: U32, gid: nat, global: nat)
    requires n > 0 && Serves(kernel, npi) && gid < global && NoWrap(kernel, n, npi, global)
    ensures 0 <= gid * npi
    ensures ItemOffsets(kernel, gid, n, npi) == Span(Min(n, gid * npi), Min(n, gid * npi + npi))
  {
    hide ItemOffsets, Span, ItemCount;
    if kernel == General {
      var items := ItemCount(n, npi);
      if gid < items {
        NextProduct(gid, npi);
        MultiplesOrdered(gid + 1, items, npi);
      }
      GeneralItem(gid, n, npi);
    } else {
      NextProduct(gid, npi);
      MultiplesOrdered(gid + 1, global, npi);
      FixedItem(kernel, gid, n, npi);
    }
  }

  /** The first `k` items scan the first `k * npi` offsets, in order. */
  lemma {:induction false} ItemsTile(kernel: Kernel, n: U32, npi: U32, k: nat, global: nat)
    requires n > 0 && Serves(kernel, npi) && k <= global && NoWrap(kernel, n, npi, global)
    ensures 0 <= k * npi && Scanned(kernel, n, npi, k) == Span(0, Min(n, k * npi))
  {
    hide ItemOffsets, NoWrap, Span;
    if k == 0 {
      NoItems();
    } else {
      var gid := k - 1;
      ItemsTile(kernel, n, npi, gid, global);
      ItemExtends(kernel, n, npi, gid, global);
      NextProduct(gid, npi);
      OneMoreItem(kernel, n, npi, gid, gid * npi);
    }
  }

  lemma NextProduct(k: nat, npi: nat)
    ensures (k + 1) * npi == k * npi + npi && 0 <= k * npi
  {
    MultiplesOrdered(0, k, npi);
  }

  lemma OneMoreItem(kernel: Kernel, n: U32, npi: U32, gid: nat, base: nat)
    requires npi > 0 && Scanned(kernel, n, npi, gid) == Span(0, Min(n, base))
    requires ItemOffsets(kernel, gid, n, npi) == Span(Min(n, base), Min(n, base + npi))
    ensures Scanned(kernel, n, npi, gid + 1) == Span(0, Min(n, base + npi))
  {
    hide ItemOffsets, Span;
    SpanJoin(0, Min(n, base), Min(n, base + npi));
  }

  lemma NoItems()
    ensures Span(0, 0) == []
  {
  }

  /** The host launches enough items, and at most one work group too many. */
  lemma LaunchIsEnough(n: U32, npi: U32, local: U32)
    requires n > 0 && npi > 0
    ensures var g := GlobalSize(n, npi, local);
            ItemCount(n, npi) <= g && n <= g * npi && g < ItemCount(n, npi) + Min(1, local) * local + 1 - Min(1, local)
  {
    var items := (n as int + npi - 1) / npi;
    assert n as int + npi - 1 == (n as int - 1) + npi;
    QuotientPlusOne(n as int - 1, npi);
    LastItem(n, npi);
    var g := GlobalSize(n, npi, local);
    assert items <= g;
    assert items * npi <= g * npi;
  }

  /** And whole work groups of them. */
  lemma WholeGroups(n: U32, npi: U32, local: U32)
    requires n > 0 && npi > 0 && local > 0
    ensures GlobalSize(n, npi, local) % local == 0
  {
    var items := (n as int + npi - 1) / npi;
    if items % local != 0 {
      QuotientUnique(RoundUp(items, local), local, items / local + 1, 0);
    }
  }

  lemma QuotientPlusOne(x: nat, d: nat)
    requires d > 0
    ensures (x + d) / d == x / d + 1
  {
    assert x == x / d * d + x % d;
    assert x + d == (x / d + 1) * d + x % d;
    QuotientUnique(x + d, d, x / d + 1, x % d);
  }

  lemma QuotientUnique(x: nat, d: nat, q: nat, r: nat)
    requires d > 0 && x == q * d + r && r < d
    ensures x / d == q
  {
    var p := x / d;
    assert x == p * d + x % d;
    if p < q {
      NextMultiple(p, q, d);
    } else if q < p {
      NextMultiple(q, p, d);
    }
  }

  lemma {:induction false} NextMultiple(a: nat, b: nat, d: nat)
    requires a < b
    ensures a * d + d <= b * d
  {
    if a + 1 < b {
      NextMultiple(a, b - 1, d);
      assert b * d == (b - 1) * d + d;
    }
  }

  lemma {:induction false} ScannedGrows(kernel: Kernel, n: U32, npi: U32, k: nat, global: nat)
    requires npi > 0 && k <= global
    ensures |Scanned(kernel, n, npi, k)| <= |Scanned(kernel, n, npi, global)|
  {
    hide ItemOffsets;
    if k < global {
      ScannedGrows(kernel, n, npi, k, global - 1);
    }
  }

  /** A fixed kernel whose products wrap starts over from offset 0. */
  lemma FixedOverruns(kernel: Kernel, n: U32, npi: U32, global: nat)
    requires kernel != General && n > 0 && Serves(kernel, npi) && global * npi > U32_LIMIT
    ensures |Scanned(kernel, n, npi, global)| > n
  {
    hide Span, Scanned, ItemOffsets;
    var k := FullLap(kernel, npi, global);
    ItemsTile(kernel, n, npi, k, k);
    assert |Scanned(kernel, n, npi, k)| == n;
    StartsOver(kernel, n, npi, k);
    ScannedStep(kernel, n, npi, k);
    ScannedGrows(kernel, n, npi, k + 1, global);
  }

  /** How many items it takes until the product wraps. */
  lemma FullLap(kernel: Kernel, npi: U32, global: nat) returns (k: nat)
    requires kernel != General && Serves(kernel, npi) && global * npi > U32_LIMIT
    ensures k * npi == U32_LIMIT && k < global
  {
    k := if npi == 1 then 4294967296 else if npi == 2 then 2147483648 else 1073741824;
  }

  lemma StartsOver(kernel: Kernel, n: U32, npi: U32, k: nat)
    requires kernel != General && n > 0 && Serves(kernel, npi) && k * npi == U32_LIMIT
    ensures |ItemOffsets(kernel, k, n, npi)| > 0
  {
    hide Below;
    if npi == 1 {
      assert Wrap32(k) == 0;
    } else if npi == 2 {
      assert Wrap32(k) * 2 == U32_LIMIT;
    } else {
      assert Wrap32(k) * 4 == U32_LIMIT;
    }
  }

  lemma ScannedStep(kernel: Kernel, n: U32, npi: U32, k: nat)
    requires npi > 0
    ensures |Scanned(kernel, n, npi, k + 1)| == |Scanned(kernel, n, npi, k)| + |ItemOffsets(kernel, k, n, npi)|
  {
    hide ItemOffsets;
  }

  /** The general kernel overruns when its last item ends beyond 32 bits, or item 2^32 repeats item 0. */
  lemma GeneralOverruns(n: U32, npi: U32, global: nat)
    requires n > 0 && 1 <= npi <= 64 && global >= ItemCount(n, npi) && !NoWrap(General, n, npi, global)
    ensures |Scanned(General, n, npi, global)| > n
  {
    hide Span, Scanned, ItemCount;
    var items := ItemCount(n, npi);
    if items * npi >= U32_LIMIT {
      LastItemOverruns(n, npi);
      ScannedGrows(General, n, npi, items, global);
    } else {
      LastItem(n, npi);
      assert items <= items * npi;
      assert U32_LIMIT * npi >= U32_LIMIT;
      ItemsTile(General, n, npi, U32_LIMIT, U32_LIMIT);
      ScannedStep(General, n, npi, U32_LIMIT);
      GeneralItemZero(n, npi);
      ScannedGrows(General, n, npi, U32_LIMIT + 1, global);
    }
  }

  /** Item 2^32 takes itself for item 0. */
  lemma GeneralItemZero(n: U32, npi: U32)
    requires n > 0 && npi > 0
    ensures |ItemOffsets(General, U32_LIMIT, n, npi)| > 0
  {
    hide WrappedSpan, ItemCount, Wrap32;
    WrapsToZero();
    WrapSmall(0);
    WrapSmall(npi);
    WrapSmall(n);
    LastItem(n, npi);
    WrappedSpanLength(0, if npi > n then n else npi);
  }

  lemma WrapsToZero()
    ensures Wrap32(U32_LIMIT) == 0
  {
  }

  lemma LastItemOverruns(n: U32, npi: U32)
    requires n > 0 && 1 <= npi <= 64 && ItemCount(n, npi) * npi >= U32_LIMIT
    ensures |Scanned(General, n, npi, ItemCount(n, npi))| >= U32_LIMIT
  {
    hide Span, Scanned, WrappedSpan, ItemCount;
    var last := ItemCount(n, npi) - 1;
    var base := last * npi;
    LastItem(n, npi);
    assert base + npi == ItemCount(n, npi) * npi;
    assert 0 <= base;
    assert last <= base;
    PrefixTiles(n, npi, last);
    ScannedStep(General, n, npi, last);
    WrapSmall(last);
    WrapSmall(base);
    assert Wrap32(base + npi) == base + npi - U32_LIMIT;
    WrappedSpanLength(base, npi);
  }

  /** Before the last item nothing wraps, whatever the last one does. */
  lemma {:induction false} PrefixTiles(n: U32, npi: U32, k: nat)
    requires n > 0 && 1 <= npi && k < ItemCount(n, npi)
    ensures 0 <= k * npi < n && Scanned(General, n, npi, k) == Span(0, k * npi)
  {
    hide ItemOffsets, Span, ItemCount;
    LastItem(n, npi);
    assert k * npi <= (ItemCount(n, npi) - 1) * npi;
    if k == 0 {
      NoItems();
    } else {
      PrefixTiles(n, npi, k - 1);
      assert k * npi == (k - 1) * npi + npi;
      assert k <= k * npi;
      GeneralItem(k - 1, n, npi);
      SpanJoin(0, (k - 1) * npi, k * npi);
    }
  }

  /** A launch that wraps scans more than `n` offsets. */
  lemma LaunchOverruns(kernel: Kernel, n: U32, npi: U32, local: U32)
    requires n > 0 && Serves(kernel, npi) && !NoWrap(kernel, n, npi, GlobalSize(n, npi, local))
    ensures |Scanned(kernel, n, npi, GlobalSize(n, npi, local))| > n
  {
    hide Scanned, GlobalSize, ItemCount;
    LaunchIsEnough(n, npi, local);
    if kernel == General {
      GeneralOverruns(n, npi, GlobalSize(n, npi, local));
    } else {
      FixedOverruns(kernel, n, npi, GlobalSize(n, npi, local));
    }
  }

  /** Grid coverage: every offset below `n` is scanned once and nothing else is, if and only if nothing wraps. */
  lemma GridIsExactIffNoWrap(kernel: Kernel, n: U32, npi: U32, local: U32)
    requires n > 0 && Serves(kernel, npi)
    ensures multiset(Scanned(kernel, n, npi, GlobalSize(n, npi, local))) == multiset(Range(n))
      <==> NoWrap(kernel, n, npi, GlobalSize(n, npi, local))
  {
    hide Scanned, GlobalSize, ItemCount;
    var g := GlobalSize(n, npi, local);
    LaunchIsEnough(n, npi, local);
    if NoWrap(kernel, n, npi, g) {
      ItemsTile(kernel, n, npi, g, g);
    } else {
      LaunchOverruns(kernel, n, npi, local);
      assert |multiset(Scanned(kernel, n, npi, g))| > |multiset(Range(n))|;
    }
  }

  /** Ranges that leave room for one padded work group below 2^32 never wrap. */
  lemma RoomForPadding(kernel: Kernel, n: U32, npi: U32, local: U32)
    requires n > 0 && local > 0 && Serves(kernel, npi) && n + npi * local <= U32_LIMIT
    ensures NoWrap(kernel, n, npi, GlobalSize(n, npi, local))
  {
    hide GlobalSize, ItemCount;
    var g, items := GlobalSize(n, npi, local), ItemCount(n, npi);
    LaunchIsEnough(n, npi, local);
    LastItem(n, npi);
    LaunchFits(g, items, n, npi, local);
  }

  lemma LaunchFits(g: nat, items: nat, n: U32, npi: U32, local: U32)
    requires npi > 0 && local > 0 && items <= g < items + local
    requires (items - 1) * npi < n && n + npi * local <= U32_LIMIT
    ensures g <= g * npi <= U32_LIMIT && items * npi < U32_LIMIT
  {
    Distribute(items - 1, local, npi);
    MultiplesOrdered(g, items - 1 + local, npi);
    MultiplesOrdered(items, g, npi);
    MultiplesOrdered(1, npi, g);
  }

  lemma Distribute(a: int, b: int, d: int)
    ensures (a + b) * d == a * d + b * d == a * d + d * b
  {
  }

  lemma MultiplesOrdered(a: int, b: int, d: nat)
    requires a <= b
    ensures a * d <= b * d && d * a <= d * b
  {
    assert b * d == a * d + (b - a) * d;
  }

  /** What an item below the launch size scans is part of what the launch scans. */
  lemma {:induction false} ItemIsScanned(kernel: Kernel, n: U32, npi: U32, gid: nat, global: nat, offset: U32)
    requires npi > 0 && gid < global && offset in ItemOffsets(kernel, gid, n, npi)
    ensures offset in Scanned(kernel, n, npi, global)
  {
    hide ItemOffsets;
    if gid < global - 1 {
      ItemIsScanned(kernel, n, npi, gid, global - 1, offset);
    }
  }

  /** A launch that scans fewer than 2^32 offsets scans no offset outside its range. */
  lemma FewStayInside(kernel: Kernel, n: U32, npi: U32, local: U32)
    requires n > 0 && Serves(kernel, npi) && |Scanned(kernel, n, npi, GlobalSize(n, npi, local))| < U32_LIMIT
    ensures forall o <- Scanned(kernel, n, npi, GlobalSize(n, npi, local)) :: o < n
  {
    hide Scanned, GlobalSize, ItemCount;
    var global := GlobalSize(n, npi, local);
    if kernel == General && ItemCount(n, npi) * npi >= U32_LIMIT {
      LaunchIsEnough(n, npi, local);
      LastItemOverruns(n, npi);
      ScannedGrows(General, n, npi, ItemCount(n, npi), global);
    }
    ItemsStayInside(kernel, n, npi, global);
  }

  lemma {:induction false} ItemsStayInside(kernel: Kernel, n: U32, npi: U32, k: nat)
    requires n > 0 && Serves(kernel, npi) && (kernel == General ==> ItemCount(n, npi) * npi < U32_LIMIT)
    ensures forall o <- Scanned(kernel, n, npi, k) :: o < n
  {
    hide ItemOffsets, ItemCount;
    if k > 0 {
      ItemsStayInside(kernel, n, npi, k - 1);
      ItemStaysInside(kernel, n, npi, k - 1);
    }
  }

  lemma ItemStaysInside(kernel: Kernel, n: U32, npi: U32, globalId: nat)
    requires n > 0 && Serves(kernel, npi) && (kernel == General ==> ItemCount(n, npi) * npi < U32_LIMIT)
    ensures forall o <- ItemOffsets(kernel, globalId, n, npi) :: o < n
  {
    if kernel == General {
      hide ItemCount, WrappedSpan, Wrap32;
      var gid := Wrap32(globalId);
      WrapSmall(gid);
      assert ItemOffsets(General, globalId, n, npi) == ItemOffsets(General, gid, n, npi);
      if gid < ItemCount(n, npi) {
        NextProduct(gid, npi);
        MultiplesOrdered(gid + 1, ItemCount(n, npi), npi);
      }
      GeneralItem(gid, n, npi);
    }
  }

  /** Work groups of 100 round a launch of 4294967201 nonces up past 2^32: items 2^32 to 2^32 + 3 take themselves for
      items 0 to 3. */
  lemma FirstFourAgain()
    ensures !NoWrap(Npi1, 4294967201, 1, GlobalSize(4294967201, 1, 100))
    ensures |Scanned(Npi1, 4294967201, 1, GlobalSize(4294967201, 1, 100))| == 4294967205
  {
    hide Scanned, Span, ItemOffsets;
    assert 4294967201 % 100 == 1;
    assert GlobalSize(4294967201, 1, 100) == 4294967300;
    ItemsTile(Npi1, 4294967201, 1, 4294967296, 4294967296);
    OneOffset(4294967296);
    OneOffset(4294967297);
    OneOffset(4294967298);
    OneOffset(4294967299);
  }

  lemma OneOffset(k: nat)
    requires k % U32_LIMIT < 4294967201
    ensures |Scanned(Npi1, 4294967201, 1, k + 1)| == |Scanned(Npi1, 4294967201, 1, k)| + 1
  {
    ScannedStep(Npi1, 4294967201, 1, k);
  }

  /** Work groups of 100 round a launch of 2^32 - 1 nonces, two to an item, up past 2^32: the kernel starts over. */
  lemma PaddingWraps()
    ensures GlobalSize(4294967295, 2, 100) == 2147483700
    ensures !NoWrap(Npi2, 4294967295, 2, GlobalSize(4294967295, 2, 100))
    ensures multiset(Scanned(Npi2, 4294967295, 2, GlobalSize(4294967295, 2, 100))) != multiset(Range(4294967295))
  {
    hide Scanned, Range;
    assert (4294967295 + 2 - 1) / 2 == 2147483648;
    assert 2147483648 % 100 == 48;
    GridIsExactIffNoWrap(Npi2, 4294967295, 2, 100);
  }

  /** With 64 nonces to an item the last item of that launch ends at 2^32, and its limit test lets offset 2^32 - 1
      through, which is not in the range; so it is with any work-group size. */
  lemma LastItemLeavesRange(local: U32)
    ensures !NoWrap(General, 4294967295, 64, GlobalSize(4294967295, 64, local))
    ensures multiset(Scanned(General, 4294967295, 64, GlobalSize(4294967295, 64, local))) != multiset(Range(4294967295))
    ensures 4294967295 in Scanned(General, 4294967295, 64, GlobalSize(4294967295, 64, local))
  {
    hide Scanned, Range, GlobalSize, ItemOffsets, WrappedSpan;
    var n, npi, gid := 4294967295, 64, 67108863;
    assert ItemCount(n, npi) == 67108864;
    GridIsExactIffNoWrap(General, n, npi, local);
    LaunchIsEnough(n, npi, local);
    WholeLastItem();
    WrappedSpanIs(4294967232, 64);
    assert 4294967295 == Span(4294967232, 4294967296)[63];
    ItemIsScanned(General, n, npi, gid, GlobalSize(n, npi, local), 4294967295);
  }

  lemma WholeLastItem()
    ensures ItemOffsets(General, 67108863, 4294967295, 64) == WrappedSpan(4294967232, 64)
  {
    hide WrappedSpan;
  }
}
