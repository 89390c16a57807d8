/** Segments on their way through the ring, and the bios built from them. */
module Dispatch {
  import opened Word32
  import opened Protocol

  // ---- segments

  /** A scatter entry of whole sectors within one page. */
  predicate WholeSectors(sg: Scatter) {
    sg.offset % 512 == 0 && sg.length % 512 == 0 && sg.length > 0 && sg.offset + sg.length <= 4096
  }

  function StartByte(seg: Segment): int {
    seg.first * 512
  }

  function Bytes(seg: Segment): int {
    Sectors(seg) * 512
  }

  /** The byte range decoded from a segment is the one that was encoded, and passes the range check. */
  lemma SegmentRoundTrip(sg: Scatter, gref: nat)
    requires WholeSectors(sg)
    ensures var seg := EncodeSegment(sg, gref);
            StartByte(seg) == sg.offset && Bytes(seg) == sg.length && GoodSegment(seg)
  {
    var seg := EncodeSegment(sg, gref);
    assert sg.offset / 512 < 8 && sg.length / 512 <= 8;
  }

  /** For a block size of 512 << k the alignment check holds exactly when the start sector and every
      segment length are multiples of the block size. */
  lemma AlignedExactly(req: Request, blockSize: nat, k: nat)
    requires blockSize == 512 * Pow2(k) && k <= 32
    requires forall i :: 0 <= i < |req.segs| ==> GoodSegment(req.segs[i])
    ensures blockSize >= 512
    ensures req.segs != [] ==>
              (Aligned(req, blockSize) <==>
                 req.sector % Pow2(k) == 0 && forall i :: 0 <= i < |req.segs| ==> Sectors(req.segs[i]) % Pow2(k) == 0)
  {
    assert blockSize / 512 == Pow2(k);
    forall i | 0 <= i < |req.segs|
      ensures BitAnd(BitOr(req.sector % 0x1_0000_0000, Sectors(req.segs[i])), Pow2(k) - 1) == 0
         <==> req.sector % Pow2(k) == 0 && Sectors(req.segs[i]) % Pow2(k) == 0
    {
      AlignedAt(req.sector, Sectors(req.segs[i]), k);
    }
    if req.segs != [] {
      assert GoodSegment(req.segs[0]);
    }
  }

  lemma AlignedAt(sector: nat, sectors: nat, k: nat)
    requires k <= 32
    ensures BitAnd(BitOr(sector % 0x1_0000_0000, sectors), Pow2(k) - 1) == 0
       <==> sector % Pow2(k) == 0 && sectors % Pow2(k) == 0
  {
    LowBits(sector, k);
    OrMaskZero(sector % 0x1_0000_0000, sectors, k);
  }

  lemma LowBits(x: nat, k: nat)
    requires k <= 32
    ensures (x % 0x1_0000_0000) % Pow2(k) == x % Pow2(k)
  {
    Pow2Add(k, 32 - k);
    Pow2Values();
    ModOfMod(x, Pow2(k), Pow2(32 - k), 0x1_0000_0000);
  }

  /** Every request of 1 to 11 whole-sector scatter entries passes all the backend's checks on a device
      with 512-byte blocks, so it is rejected only if a grant cannot be mapped. */
  lemma QueuedRequestPasses(blk: BlkReq, refs: seq<nat>, id: nat, b: Back, maps: map<int, nat>, p: nat, o: Outcome)
    requires |refs| == |blk.sg| && 0 < |blk.sg| <= MAX_SEGMENTS && (blk.dir == 0 || blk.dir == 1)
    requires forall i :: 0 <= i < |blk.sg| ==> WholeSectors(blk.sg[i])
    requires p < |b.pool| && |o.row| == |o.refuse| == |blk.sg|
    ensures var req := Request(id, blk.dir, blk.sector, EncodeSegments(blk.sg, refs));
            && GoodShape(req) && GoodSegments(req, 512)
            && (DispatchRequest(b, maps, 512, p, req, o).Submitted? <==> INVALID_HANDLE !in o.row)
  {
    var req := Request(id, blk.dir, blk.sector, EncodeSegments(blk.sg, refs));
    forall i | 0 <= i < |req.segs|
      ensures GoodSegment(req.segs[i])
    {
      SegmentRoundTrip(blk.sg[i], refs[i]);
    }
    assert Pow2(0) == 1;
    AlignedExactly(req, 512, 0);
  }

  /** The bytes of a segment are some, and within one page. */
  predicate WithinPage(seg: Segment) {
    Bytes(seg) > 0 && StartByte(seg) + Bytes(seg) <= 4096
  }

  /** For a block size of 512 << k: a request is submitted exactly if its direction is 0 or 1, it has 1 to 11 segments,
      each with some bytes within its page, sector and lengths are multiples of the block size, and every grant is
      mapped. So no bio reaches past a granted page. */
  lemma SubmittedExactly(b: Back, maps: map<int, nat>, blockSize: nat, k: nat, p: nat, req: Request, o: Outcome)
    requires blockSize == 512 * Pow2(k) && k <= 32 && p < |b.pool| && |o.row| == |o.refuse| == |req.segs|
    ensures blockSize >= 512
    ensures DispatchRequest(b, maps, blockSize, p, req, o).Submitted? <==>
              && (req.dir == 0 || req.dir == 1) && 1 <= |req.segs| <= 11
              && (forall i :: 0 <= i < |req.segs| ==> WithinPage(req.segs[i]))
              && req.sector % Pow2(k) == 0 && (forall i :: 0 <= i < |req.segs| ==> Bytes(req.segs[i]) % blockSize == 0)
              && (forall i :: 0 <= i < |req.segs| ==> o.row[i] != -1)
  {
    if (forall i :: 0 <= i < |req.segs| ==> GoodSegment(req.segs[i])) && req.segs != [] {
      AlignedExactly(req, blockSize, k);
      forall i | 0 <= i < |req.segs|
        ensures Bytes(req.segs[i]) % blockSize == 0 <==> Sectors(req.segs[i]) % Pow2(k) == 0
      {
        assert GoodSegment(req.segs[i]);
        BlockMultiple(Sectors(req.segs[i]), Pow2(k));
      }
    }
    forall i | 0 <= i < |req.segs|
      ensures GoodSegment(req.segs[i]) <==> WithinPage(req.segs[i])
    {
    }
  }

  lemma BlockMultiple(x: nat, m: nat)
    requires m > 0
    ensures (x * 512) % (512 * m) == 0 <==> x % m == 0
  {
    Euclid(x, m);
    Assoc(x / m, m, 512);
    DivMod(x * 512, 512 * m, x / m, x % m * 512);
  }

  // ---- bios

  /** A bio: the sector it starts at, and the segments whose pages it has taken. */
  datatype Bio = Bio(sector: int, pages: seq<Segment>)

  /** Sectors in the first i segments. */
  function TotalTo(segs: seq<Segment>, i: nat): int
    requires i <= |segs|
  {
    if i == 0 then 0 else TotalTo(segs, i - 1) + Sectors(segs[i - 1])
  }

  function Total(segs: seq<Segment>): int {
    TotalTo(segs, |segs|)
  }

  /** The segments of the first k bios, in order. */
  function FlattenTo(bios: seq<Bio>, k: nat): seq<Segment>
    requires k <= |bios|
  {
    if k == 0 then [] else FlattenTo(bios, k - 1) + bios[k - 1].pages
  }

  function Flatten(bios: seq<Bio>): seq<Segment> {
    FlattenTo(bios, |bios|)
  }

  function AddPage(bios: seq<Bio>, seg: Segment): seq<Bio>
    requires bios != []
  {
    var last := |bios| - 1;
    bios[last := Bio(bios[last].sector, bios[last].pages + [seg])]
  }

  /** A new bio at the first page and at a refused one; otherwise the open bio takes the page. */
  function NextBios(before: seq<Bio>, next: int, seg: Segment, refused: bool): seq<Bio> {
    if before == [] || refused then before + [Bio(next, [seg])] else AddPage(before, seg)
  }

  /** The bios for the first i segments. */
  function SplitTo(segs: seq<Segment>, sector: int, refuse: seq<bool>, i: nat): seq<Bio>
    requires |refuse| == |segs| && i <= |segs|
  {
    if i == 0 then []
    else NextBios(SplitTo(segs, sector, refuse, i - 1), sector + TotalTo(segs, i - 1), segs[i - 1], refuse[i - 1])
  }

  function Split(segs: seq<Segment>, sector: int, refuse: seq<bool>): seq<Bio>
    requires |refuse| == |segs|
  {
    SplitTo(segs, sector, refuse, |segs|)
  }

  /** Sectors in the first k bios. */
  function Extent(bios: seq<Bio>, k: nat): int
    requires k <= |bios|
  {
    if k == 0 then 0 else Extent(bios, k - 1) + Total(bios[k - 1].pages)
  }

  /** Bio k has taken a page, and starts where the ones before it end. */
  predicate Follows(bios: seq<Bio>, sector: int, k: nat)
    requires k < |bios|
  {
    bios[k].pages != [] && bios[k].sector == sector + Extent(bios, k)
  }

  ghost predicate Contiguous(bios: seq<Bio>, sector: int) {
    forall k :: 0 <= k < |bios| ==> Follows(bios, sector, k)
  }

  lemma {:induction false} TotalPrefix(segs: seq<Segment>, segs': seq<Segment>, i: nat)
    requires i <= |segs| && i <= |segs'| && forall k :: 0 <= k < i ==> segs[k] == segs'[k]
    ensures TotalTo(segs, i) == TotalTo(segs', i)
  {
    if i > 0 {
      TotalPrefix(segs, segs', i - 1);
    }
  }

  lemma {:induction false} PrefixSame(bios: seq<Bio>, bios': seq<Bio>, k: nat)
    requires k <= |bios| && k <= |bios'| && forall j :: 0 <= j < k ==> bios[j] == bios'[j]
    ensures FlattenTo(bios, k) == FlattenTo(bios', k)
    ensures Extent(bios, k) == Extent(bios', k)
  {
    if k > 0 {
      PrefixSame(bios, bios', k - 1);
    }
  }

  lemma ContiguousPrefix(bios: seq<Bio>, bios': seq<Bio>, sector: int, n: nat)
    requires Contiguous(bios, sector) && n <= |bios| && n <= |bios'| && forall j :: 0 <= j < n ==> bios[j] == bios'[j]
    ensures forall k :: 0 <= k < n ==> Follows(bios', sector, k)
  {
    forall k | 0 <= k < n
      ensures Follows(bios', sector, k)
    {
      assert Follows(bios, sector, k);
      PrefixSame(bios, bios', k);
    }
  }

  lemma TotalSnoc(pages: seq<Segment>, seg: Segment)
    ensures Total(pages + [seg]) == Total(pages) + Sectors(seg)
  {
    TotalPrefix(pages + [seg], pages, |pages|);
  }

  lemma NextFlatten(before: seq<Bio>, next: int, seg: Segment, refused: bool)
    ensures Flatten(NextBios(before, next, seg, refused)) == Flatten(before) + [seg]
  {
    var bios := NextBios(before, next, seg, refused);
    PrefixSame(before, bios, |bios| - 1);
    if before != [] && !refused {
      var m := |before| - 1;
      assert FlattenTo(before, m) + (before[m].pages + [seg]) == (FlattenTo(before, m) + before[m].pages) + [seg];
    }
  }

  lemma NextContiguous(before: seq<Bio>, total: int, sector: int, seg: Segment, refused: bool)
    requires Contiguous(before, sector) && Extent(before, |before|) == total
    ensures var bios := NextBios(before, sector + total, seg, refused);
            Contiguous(bios, sector) && Extent(bios, |bios|) == total + Sectors(seg)
  {
    var bios := NextBios(before, sector + total, seg, refused);
    var m := |bios| - 1;
    PrefixSame(before, bios, m);
    ContiguousPrefix(before, bios, sector, m);
    TotalSnoc(if before == [] || refused then [] else before[m].pages, seg);
    assert [] + [seg] == [seg];
    if before != [] && !refused {
      assert Follows(before, sector, m);
    }
    assert Follows(bios, sector, m);
  }

  lemma {:induction false} SplitFlattenTo(segs: seq<Segment>, sector: int, refuse: seq<bool>, i: nat)
    requires |refuse| == |segs| && i <= |segs|
    ensures Flatten(SplitTo(segs, sector, refuse, i)) == segs[..i]
  {
    if i > 0 {
      SplitFlattenTo(segs, sector, refuse, i - 1);
      NextFlatten(SplitTo(segs, sector, refuse, i - 1), sector + TotalTo(segs, i - 1), segs[i - 1], refuse[i - 1]);
      SnocPrefix(segs, i - 1);
    }
  }

  lemma SnocPrefix(segs: seq<Segment>, i: nat)
    requires i < |segs|
    ensures segs[..i + 1] == segs[..i] + [segs[i]]
  {
  }

  lemma {:induction false} SplitTilesTo(segs: seq<Segment>, sector: int, refuse: seq<bool>, i: nat)
    requires |refuse| == |segs| && i <= |segs|
    ensures var bios := SplitTo(segs, sector, refuse, i);
            Contiguous(bios, sector) && Extent(bios, |bios|) == TotalTo(segs, i)
  {
    if i > 0 {
      SplitTilesTo(segs, sector, refuse, i - 1);
      NextContiguous(SplitTo(segs, sector, refuse, i - 1), TotalTo(segs, i - 1), sector, segs[i - 1], refuse[i - 1]);
    }
  }

  /** For every way the pages may be refused: the bios hold the segments in order, none is empty, each
      starts where the previous one ended, and together they are as long as the request. */
  lemma SplitTiles(segs: seq<Segment>, sector: int, refuse: seq<bool>)
    requires |refuse| == |segs|
    ensures var bios := Split(segs, sector, refuse);
            Flatten(bios) == segs && Contiguous(bios, sector) && Extent(bios, |bios|) == Total(segs)
  {
    SplitFlattenTo(segs, sector, refuse, |segs|);
    SplitTilesTo(segs, sector, refuse, |segs|);
    assert segs[..|segs|] == segs;
  }

  lemma {:induction false} SplitCountTo(segs: seq<Segment>, sector: int, refuse: seq<bool>, i: nat)
    requires |refuse| == |segs| && i <= |segs|
    ensures |SplitTo(segs, sector, refuse, i)| == BiosTo(refuse, i) <= i
  {
    if i > 0 {
      SplitCountTo(segs, sector, refuse, i - 1);
    }
  }

  /** One bio for the first page and one for each later refusal, so at most one per segment: the number
      the completion counter is set to. */
  lemma SplitCount(segs: seq<Segment>, sector: int, refuse: seq<bool>)
    requires |refuse| == |segs|
    ensures |Split(segs, sector, refuse)| == BioCount(refuse) <= |segs|
  {
    SplitCountTo(segs, sector, refuse, |segs|);
  }

  // ---- where bios begin

  lemma {:induction false} FlattenGrows(bios: seq<Bio>, j: nat, k: nat)
    requires j <= k <= |bios|
    ensures |FlattenTo(bios, j)| <= |FlattenTo(bios, k)|
  {
    if j < k {
      FlattenGrows(bios, j, k - 1);
    }
  }

  /** Some bio begins with segment i. */
  ghost predicate Begins(bios: seq<Bio>, i: nat) {
    exists k :: 0 <= k < |bios| && |FlattenTo(bios, k)| == i
  }

  lemma BeginsAfter(before: seq<Bio>, next: int, seg: Segment, refused: bool, i: nat)
    requires forall k :: 0 <= k < |before| ==> before[k].pages != []
    ensures var bios := NextBios(before, next, seg, refused);
            var m := |Flatten(before)|;
            && (i < m ==> (Begins(bios, i) <==> Begins(before, i)))
            && (Begins(bios, m) <==> before == [] || refused)
  {
    var bios := NextBios(before, next, seg, refused);
    forall k | 0 <= k <= |before| && k < |bios|
      ensures |FlattenTo(bios, k)| == |FlattenTo(before, k)|
    {
      PrefixSame(before, bios, k);
    }
    if before != [] {
      var last := |before| - 1;
      forall k | 0 <= k < |before|
        ensures |FlattenTo(before, k)| < |Flatten(before)|
      {
        FlattenGrows(before, k, last);
      }
    }
    if before == [] || refused {
      assert |FlattenTo(bios, |before|)| == |Flatten(before)|;
    }
  }

  lemma SplitSoFar(segs: seq<Segment>, sector: int, refuse: seq<bool>, m: nat)
    requires |refuse| == |segs| && m <= |segs|
    ensures var bios := SplitTo(segs, sector, refuse, m);
            && |Flatten(bios)| == m && (bios == [] <==> m == 0)
            && (forall k :: 0 <= k < |bios| ==> bios[k].pages != [])
  {
    var bios := SplitTo(segs, sector, refuse, m);
    SplitFlattenTo(segs, sector, refuse, m);
    SplitTilesTo(segs, sector, refuse, m);
    forall k | 0 <= k < |bios|
      ensures bios[k].pages != []
    {
      assert Follows(bios, sector, k);
    }
  }

  lemma {:induction false} BeginsExactlyTo(segs: seq<Segment>, sector: int, refuse: seq<bool>, m: nat, i: nat)
    requires |refuse| == |segs| && i < m <= |segs|
    ensures Begins(SplitTo(segs, sector, refuse, m), i) <==> i == 0 || refuse[i]
  {
    SplitSoFar(segs, sector, refuse, m - 1);
    BeginsAfter(SplitTo(segs, sector, refuse, m - 1), sector + TotalTo(segs, m - 1), segs[m - 1], refuse[m - 1], i);
    if i < m - 1 {
      BeginsExactlyTo(segs, sector, refuse, m - 1, i);
    }
  }

  /** A bio begins with the first segment and with every one whose page the open bio refuses, and with no other. */
  lemma BeginsExactly(segs: seq<Segment>, sector: int, refuse: seq<bool>, i: nat)
    requires |refuse| == |segs| && i < |segs|
    ensures Begins(Split(segs, sector, refuse), i) <==> i == 0 || refuse[i]
  {
    BeginsExactlyTo(segs, sector, refuse, |segs|, i);
  }

  /** From scatter list to bios: the bios hold, in order, for each entry its reference and its bytes; they start at
      the request's sector, follow each other without a gap and are together as long as the list. */
  lemma TransferExact(sg: seq<Scatter>, refs: seq<nat>, sector: int, refuse: seq<bool>)
    requires |refs| == |sg| == |refuse| && forall i :: 0 <= i < |sg| ==> WholeSectors(sg[i])
    ensures var bios := Split(EncodeSegments(sg, refs), sector, refuse);
            && |Flatten(bios)| == |sg|
            && (forall i :: 0 <= i < |sg| ==>
                  var seg := Flatten(bios)[i];
                  seg.gref == refs[i] && StartByte(seg) == sg[i].offset && Bytes(seg) == sg[i].length)
            && Contiguous(bios, sector) && 512 * Extent(bios, |bios|) == LengthTo(sg, |sg|)
  {
    var segs := EncodeSegments(sg, refs);
    SplitTiles(segs, sector, refuse);
    forall i | 0 <= i < |sg|
      ensures StartByte(segs[i]) == sg[i].offset && Bytes(segs[i]) == sg[i].length
    {
      SegmentRoundTrip(sg[i], refs[i]);
    }
    EncodedLength(sg, refs, |sg|);
  }

  function LengthTo(sg: seq<Scatter>, i: nat): nat
    requires i <= |sg|
  {
    if i == 0 then 0 else LengthTo(sg, i - 1) + sg[i - 1].length
  }

  lemma {:induction false} EncodedLength(sg: seq<Scatter>, refs: seq<nat>, i: nat)
    requires |refs| == |sg| && i <= |sg| && forall k :: 0 <= k < |sg| ==> WholeSectors(sg[k])
    ensures 512 * TotalTo(EncodeSegments(sg, refs), i) == LengthTo(sg, i)
  {
    if i > 0 {
      EncodedLength(sg, refs, i - 1);
      SegmentRoundTrip(sg[i - 1], refs[i - 1]);
    }
  }

  // ---- every sector once

  predicate Covers(b: Bio, x: int) {
    b.sector <= x < b.sector + Total(b.pages)
  }

  /** How many of the first k bios cover sector x. */
  function CountCovering(bios: seq<Bio>, k: nat, x: int): nat
    requires k <= |bios|
  {
    if k == 0 then 0 else CountCovering(bios, k - 1, x) + (if Covers(bios[k - 1], x) then 1 else 0)
  }

  ghost predicate AllGood(segs: seq<Segment>) {
    forall i :: 0 <= i < |segs| ==> GoodSegment(segs[i])
  }

  lemma {:induction false} GoodTotal(segs: seq<Segment>, i: nat)
    requires AllGood(segs) && i <= |segs|
    ensures TotalTo(segs, i) >= i
  {
    if i > 0 {
      GoodTotal(segs, i - 1);
    }
  }

  /** Every page of a bio is one of the segments. */
  lemma {:induction false} PagesAreSegments(bios: seq<Bio>, k: nat, j: nat)
    requires j < k <= |bios|
    ensures forall i :: 0 <= i < |bios[j].pages| ==> bios[j].pages[i] in FlattenTo(bios, k)
  {
    if j < k - 1 {
      PagesAreSegments(bios, k - 1, j);
    }
  }

  /** Contiguous bios of good segments cover every sector of their whole range exactly once, and no other. */
  lemma {:induction false} CoveredOnce(bios: seq<Bio>, k: nat, sector: int, x: int)
    requires Contiguous(bios, sector) && k <= |bios| && forall j :: 0 <= j < k ==> AllGood(bios[j].pages)
    ensures Extent(bios, k) >= 0
    ensures CountCovering(bios, k, x) == if sector <= x < sector + Extent(bios, k) then 1 else 0
  {
    if k > 0 {
      CoveredOnce(bios, k - 1, sector, x);
      assert Follows(bios, sector, k - 1);
      GoodTotal(bios[k - 1].pages, |bios[k - 1].pages|);
    }
  }

  /** The bios built for good segments cover the request's sectors once each, and no other sector. */
  lemma BiosCoverRequest(segs: seq<Segment>, sector: int, refuse: seq<bool>, x: int)
    requires |refuse| == |segs| && AllGood(segs)
    ensures var bios := Split(segs, sector, refuse);
            CountCovering(bios, |bios|, x) == if sector <= x < sector + Total(segs) then 1 else 0
  {
    var bios := Split(segs, sector, refuse);
    SplitTiles(segs, sector, refuse);
    forall j | 0 <= j < |bios|
      ensures AllGood(bios[j].pages)
    {
      PagesAreSegments(bios, |bios|, j);
    }
    CoveredOnce(bios, |bios|, sector, x);
  }

  lemma FirstPage(bios: seq<Bio>, sector: int, seg: Segment)
    ensures AddPage(bios + [Bio(sector, [])], seg) == bios + [Bio(sector, [seg])]
  {
    assert [] + [seg] == [seg];
  }

  /** The inner loop: open bios until one takes the page. A fresh bio takes its first page. */
  method TakePage(before: seq<Bio>, next: int, seg: Segment, refused: bool) returns (bios: seq<Bio>)
    requires before != [] ==> before[|before| - 1].pages != []
    ensures bios == NextBios(before, next, seg, refused)
  {
    bios := before;
    var taken := false;
    while !taken
      invariant taken ==> bios == NextBios(before, next, seg, refused)
      invariant !taken ==> bios == before || ((before == [] || refused) && bios == before + [Bio(next, [])])
      decreases !taken, bios == before
    {
      if bios != [] && (bios[|bios| - 1].pages == [] || !refused) {
        FirstPage(before, next, seg);
        bios := AddPage(bios, seg);
        taken := true;
      } else {
        bios := bios + [Bio(next, [])];
      }
    }
  }

  lemma LastTaken(segs: seq<Segment>, sector: int, refuse: seq<bool>, i: nat)
    requires |refuse| == |segs| && i <= |segs|
    ensures var bios := SplitTo(segs, sector, refuse, i); bios != [] ==> bios[|bios| - 1].pages != []
  {
    var bios := SplitTo(segs, sector, refuse, i);
    SplitTilesTo(segs, sector, refuse, i);
    assert bios != [] ==> Follows(bios, sector, |bios| - 1);
  }

  /** The bio-building loop; `refuse` says which pages the open bio refuses. */
  method BuildBios(segs: seq<Segment>, sector: int, refuse: seq<bool>) returns (bios: seq<Bio>)
    requires |refuse| == |segs|
    ensures bios == Split(segs, sector, refuse)
  {
    bios := [];
    var next := sector;
    for i := 0 to |segs|
      invariant bios == SplitTo(segs, sector, refuse, i)
      invariant next == sector + TotalTo(segs, i)
    {
      LastTaken(segs, sector, refuse, i);
      bios := TakePage(bios, next, segs[i], refuse[i]);
      next := next + Sectors(segs[i]);
    }
  }
}
