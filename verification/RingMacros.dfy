/** The expression macros of the shared ring: sizes, occupancy, slots and the notification test. */
module RingMacros {
  import opened Word32

  // ---- rounding down to a power of two

  function RoundDown2(x: nat): nat {
    if BitAnd(x, 0x2) != 0 then 0x2 else BitAnd(x, 0x1)
  }

  function RoundDown4(x: nat): nat {
    if BitAnd(x, 0xc) != 0 then RoundDown2(x / 4) * 4 else RoundDown2(x)
  }

  function RoundDown8(x: nat): nat {
    if BitAnd(x, 0xf0) != 0 then RoundDown4(x / 0x10) * 0x10 else RoundDown4(x)
  }

  function RoundDown16(x: nat): nat {
    if BitAnd(x, 0xff00) != 0 then RoundDown8(x / 0x100) * 0x100 else RoundDown8(x)
  }

  function RoundDown32(x: nat): nat {
    if BitAnd(x, 0xffff_0000) != 0 then RoundDown16(x / 0x1_0000) * 0x1_0000 else RoundDown16(x)
  }

  ghost predicate IsPow2(p: nat) {
    exists k: nat :: p == Pow2(k)
  }

  ghost predicate IsFloorPow2(x: nat, p: nat) {
    p <= x < 2 * p && IsPow2(p)
  }

  lemma QuotientBounds(x: nat, w: nat, q: nat)
    requires 0 < w && x < w * w && q == x / w
    ensures q < w
    ensures q == 0 <==> x < w
    ensures q > 0 ==> q * w > 0
  {
    Euclid(x, w);
    if q >= w { MulMono(w, q, w); }
    if q > 0 { MulMono(1, q, w); }
  }

  lemma HighMask(x: nat, h: nat, w: nat, mask: nat)
    requires w == Pow2(h) && x < w * w && mask == (w - 1) * w
    ensures BitAnd(x, mask) == 0 <==> x < w
    ensures x / w < w
  {
    var q := x / w;
    QuotientBounds(x, w, q);
    AndShifted(x, w - 1, h, mask, q);
    MaskIsMod(q, h);
    DivMod(q, w, 0, q);
  }

  lemma ScalePow2(p: nat, w: nat, scaled: nat)
    requires IsPow2(p) && IsPow2(w) && scaled == p * w
    ensures IsPow2(scaled)
  {
    var k: nat, h: nat :| p == Pow2(k) && w == Pow2(h);
    Pow2Add(k, h);
  }

  lemma Floor2(x: nat)
    requires 0 < x < 4
    ensures IsFloorPow2(x, RoundDown2(x))
  {
    assert Pow2(0) == 1 && Pow2(1) == 2;
    assert BitAnd(x, 2) == 0 <==> x < 2;
  }

  lemma Floor4(x: nat)
    requires 0 < x < 0x10
    ensures IsFloorPow2(x, RoundDown4(x))
  {
    Pow2Values();
    HighMask(x, 2, 4, 0xc);
    if x < 4 {
      Floor2(x);
    } else {
      Floor2(x / 4);
      assert IsPow2(4) by { assert 4 == Pow2(2); }
      ScalePow2(RoundDown2(x / 4), 4, RoundDown4(x));
    }
  }

  lemma Floor8(x: nat)
    requires 0 < x < 0x100
    ensures IsFloorPow2(x, RoundDown8(x))
  {
    Pow2Values();
    HighMask(x, 4, 0x10, 0xf0);
    if x < 0x10 {
      Floor4(x);
    } else {
      Floor4(x / 0x10);
      assert IsPow2(0x10) by { assert 0x10 == Pow2(4); }
      ScalePow2(RoundDown4(x / 0x10), 0x10, RoundDown8(x));
    }
  }

  lemma Floor16(x: nat)
    requires 0 < x < 0x1_0000
    ensures IsFloorPow2(x, RoundDown16(x))
  {
    Pow2Values();
    HighMask(x, 8, 0x100, 0xff00);
    if x < 0x100 {
      Floor8(x);
    } else {
      Floor8(x / 0x100);
      assert IsPow2(0x100) by { assert 0x100 == Pow2(8); }
      ScalePow2(RoundDown8(x / 0x100), 0x100, RoundDown16(x));
    }
  }

  /** For every 32-bit x > 0 the rounding macro yields a power of two p with p <= x < 2p, and 0 for 0. */
  lemma Floor32(x: nat)
    requires x < 0x1_0000_0000
    ensures if x == 0 then RoundDown32(x) == 0 else IsFloorPow2(x, RoundDown32(x))
  {
    Pow2Values();
    if x == 0 {
      return;
    }
    HighMask(x, 16, 0x1_0000, 0xffff_0000);
    if x < 0x1_0000 {
      Floor16(x);
    } else {
      Floor16(x / 0x1_0000);
      assert IsPow2(0x1_0000) by { assert 0x1_0000 == Pow2(16); }
      ScalePow2(RoundDown16(x / 0x1_0000), 0x1_0000, RoundDown32(x));
    }
  }

  /** The number of ring entries that fit into a shared area. */
  function ConstRingSize(area: nat, header: nat, entry: nat): nat
    requires header <= area && entry > 0
  {
    RoundDown32((area - header) / entry)
  }

  /** The ring is the largest power of two of entries that fits behind the header. */
  lemma RingFits(area: nat, header: nat, entry: nat)
    requires header + entry <= area < 0x1_0000_0000 && entry > 0
    ensures var n := ConstRingSize(area, header, entry);
            IsPow2(n) && header + n * entry <= area < header + 2 * n * entry
  {
    var room: nat := area - header;
    var q := room / entry;
    Euclid(room, entry);
    QuotientBelowRoom(room, entry, q);
    Floor32(q);
    var n := ConstRingSize(area, header, entry);
    MulMono(n, q, entry);
    MulMono(q + 1, 2 * n, entry);
    Distrib(q, 1, entry);
  }

  lemma QuotientBelowRoom(room: nat, entry: nat, q: nat)
    requires 0 < entry <= room && room == q * entry + room % entry && room % entry < entry
    ensures 0 < q <= room
  {
    assert q == 0 ==> q * entry == 0;
    MulMono(1, entry, q);
  }

  /** A shared page holds 32 entries: a header of six words and 40 bytes of padding, then entries of
      120 bytes (the packed request takes 117, and the response aligns the union to eight). */
  lemma PageHoldsThirtyTwo(area: nat, header: nat, entry: nat)
    requires area == 4096 && header == 6 * 4 + 40 && entry == 120
    ensures ConstRingSize(area, header, entry) == 32
  {
    var x := (area - header) / entry;
    assert x == 33;
    Floor32(x);
    OnlyThirtyTwo(RoundDown32(x));
  }

  lemma OnlyThirtyTwo(p: nat)
    requires IsFloorPow2(33, p)
    ensures p == 32
  {
    var k: nat :| p == Pow2(k);
    Pow2Values();
    assert Pow2(5) == 32 && Pow2(6) == 64;
    if k <= 4 {
      Pow2Monotone(k, 4);
    } else if k >= 6 {
      Pow2Monotone(6, k);
    }
  }

  // ---- occupancy macros

  function FreeRequests(n: nat, reqPvt: u32, rspCons: u32): u32 {
    Wrap(n - Sub(reqPvt, rspCons))
  }

  predicate RingFull(n: nat, reqPvt: u32, rspCons: u32) {
    FreeRequests(n, reqPvt, rspCons) == 0
  }

  function UnconsumedResponses(rspProd: u32, rspCons: u32): u32 {
    Sub(rspProd, rspCons)
  }

  function UnconsumedRequests(n: nat, reqProd: u32, reqCons: u32, rspPvt: u32): u32 {
    var req := Sub(reqProd, reqCons);
    var rsp := Wrap(n - Sub(reqCons, rspPvt));
    if req < rsp then req else rsp
  }

  predicate ConsOverflow(n: nat, cons: u32, rspPvt: u32) {
    Sub(cons, rspPvt) >= n
  }

  /** The slot of an index: the index masked with the ring size minus one. */
  function Slot(idx: u32, n: nat): nat
    requires n > 0
  {
    BitAnd(idx, n - 1)
  }

  /** Legal ring sizes: powers of two small enough for the frontend's list terminator not to be an id. */
  ghost predicate RingSize(n: nat) {
    exists k: nat :: k <= 27 && n == Pow2(k)
  }

  lemma RingSizeBounds(n: nat)
    requires RingSize(n)
    ensures 0 < n <= 0x800_0000
  {
    var k: nat :| k <= 27 && n == Pow2(k);
    Pow2Values();
    Pow2Monotone(k, 27);
  }

  /** Masking the wrapped index selects the slot of the unbounded index, so slot order is
      continuous when the 32-bit index wraps. */
  lemma SlotOfWrapped(i: nat, n: nat)
    requires RingSize(n)
    ensures n > 0 && Slot(Wrap(i), n) == i % n < n
  {
    var k: nat :| k <= 27 && n == Pow2(k);
    MaskIsMod(Wrap(i), k);
    Pow2Add(k, 32 - k);
    Pow2Values();
    ModOfMod(i, n, Pow2(32 - k), 0x1_0000_0000);
  }

  // ---- the macros under the ring order

  /** The unbounded counters behind the stored indexes, in ring order. */
  ghost predicate Ordered(n: nat, rspCons: nat, rspPvt: nat, reqCons: nat, reqProd: nat, reqPvt: nat) {
    n <= 0x800_0000 && rspCons <= rspPvt <= reqCons <= reqProd <= reqPvt <= rspCons + n
  }

  lemma FreeExact(n: nat, rspCons: nat, reqPvt: nat)
    requires n <= 0x800_0000 && rspCons <= reqPvt <= rspCons + n
    ensures FreeRequests(n, Wrap(reqPvt), Wrap(rspCons)) == n - (reqPvt - rspCons)
  {
    SubWrap(reqPvt, rspCons);
  }

  lemma OverflowExact(n: nat, rspPvt: nat, reqCons: nat)
    requires n <= 0x800_0000 && rspPvt <= reqCons <= rspPvt + n
    ensures ConsOverflow(n, Wrap(reqCons), Wrap(rspPvt)) <==> reqCons == rspPvt + n
  {
    SubWrap(reqCons, rspPvt);
  }

  lemma UnreadExact(n: nat, rspPvt: nat, reqCons: nat, reqProd: nat)
    requires n <= 0x800_0000 && rspPvt <= reqCons <= reqProd <= rspPvt + n
    ensures UnconsumedRequests(n, Wrap(reqProd), Wrap(reqCons), Wrap(rspPvt)) == reqProd - reqCons
  {
    SubWrap(reqProd, reqCons);
    SubWrap(reqCons, rspPvt);
  }

  /** Under the ring order each occupancy macro yields the true count: the ring is full exactly when
      n requests are outstanding, the overflow guard holds only when nothing is unread, and the
      minimum in the request macro is always the unread count. */
  lemma GuardsExact(n: nat, rspCons: nat, rspPvt: nat, reqCons: nat, reqProd: nat, reqPvt: nat)
    requires Ordered(n, rspCons, rspPvt, reqCons, reqProd, reqPvt)
    ensures FreeRequests(n, Wrap(reqPvt), Wrap(rspCons)) == n - (reqPvt - rspCons)
    ensures RingFull(n, Wrap(reqPvt), Wrap(rspCons)) <==> reqPvt == rspCons + n
    ensures ConsOverflow(n, Wrap(reqCons), Wrap(rspPvt)) <==> reqCons == rspPvt + n
    ensures ConsOverflow(n, Wrap(reqCons), Wrap(rspPvt)) ==> reqProd == reqCons
    ensures UnconsumedRequests(n, Wrap(reqProd), Wrap(reqCons), Wrap(rspPvt)) == reqProd - reqCons
    ensures Wrap(reqCons) == Wrap(reqProd) <==> reqCons == reqProd
  {
    FreeExact(n, rspCons, reqPvt);
    OverflowExact(n, rspPvt, reqCons);
    UnreadExact(n, rspPvt, reqCons, reqProd);
    WrapInjective(reqCons, reqProd);
  }

  // ---- the notification test

  /** The value computed by both PUSH_AND_CHECK_NOTIFY macros. */
  predicate MustNotify(old_: u32, new_: u32, event: u32) {
    Sub(new_, event) < Sub(new_, old_)
  }

  lemma NotifyInWindow(old_: nat, new_: nat, e: int)
    requires old_ < e <= new_ < old_ + 0x1_0000_0000
    ensures MustNotify(Wrap(old_), Wrap(new_), Wrap(e))
  {
    SubWrap(new_, e);
    SubWrap(new_, old_);
  }

  lemma Behind(new_: int, event: int)
    ensures Wrap(new_ - Wrap(new_ - event)) == Wrap(event)
  {
  }

  lemma WindowOfNotify(old_: nat, new_: nat, event: int) returns (e: int)
    requires old_ <= new_ < old_ + 0x1_0000_0000
    requires MustNotify(Wrap(old_), Wrap(new_), Wrap(event))
    ensures Wrap(e) == Wrap(event) && old_ < e <= new_
  {
    SubWrap(new_, event);
    SubWrap(new_, old_);
    e := new_ - Wrap(new_ - event);
    Behind(new_, event);
  }

  /** The wrapped test holds exactly when some unbounded index behind the event lies in (old, new]. */
  lemma NotifyExact(old_: nat, new_: nat, event: int)
    requires old_ <= new_ < old_ + 0x1_0000_0000
    ensures MustNotify(Wrap(old_), Wrap(new_), Wrap(event)) <==>
            exists e: int :: Wrap(e) == Wrap(event) && old_ < e <= new_
  {
    if MustNotify(Wrap(old_), Wrap(new_), Wrap(event)) {
      var e := WindowOfNotify(old_, new_, event);
    } else if e: int :| Wrap(e) == Wrap(event) && old_ < e <= new_ {
      NotifyInWindow(old_, new_, e);
    }
  }
}
