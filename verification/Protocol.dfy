/** Messages, the values held by each side of the ring, and the sequential code of both drivers as
    functions on those values. */
module Protocol {
  import opened Options
  import opened Word32
  import opened RingMacros

  const MAX_SEGMENTS: nat := 11
  const LIST_END: nat := 0x0fff_ffff
  const DEVICE_SIZE: nat := 2048000000
  const INVALID_HANDLE: int := -1

  // ---- messages on the ring

  datatype Segment = Segment(gref: nat, first: nat, last: nat)

  datatype Request = Request(seqNo: nat, dir: int, sector: nat, segs: seq<Segment>)

  datatype Response = Response(seqNo: nat, op: int, res: int)

  /** A slot is a union; reading it as the other member yields arbitrary bytes. */
  datatype Entry = Req(req: Request) | Rsp(rsp: Response)

  function AsRequest(e: Entry, garbage: Request): Request {
    if e.Req? then e.req else garbage
  }

  function AsResponse(e: Entry, garbage: Response): Response {
    if e.Rsp? then e.rsp else garbage
  }

  datatype Shared = Shared(reqProd: u32, reqEvent: u32, rspProd: u32, rspEvent: u32, slots: seq<Entry>)

  // ---- frontend

  datatype Scatter = Scatter(offset: nat, length: nat)

  /** A block-layer request; `tag` stands for its address. */
  datatype BlkReq = BlkReq(tag: nat, sector: nat, count: nat, dir: int, sg: seq<Scatter>)

  datatype Shadow = Shadow(req: Request, request: Option<nat>)

  /** `refs` are the grant references not in use. */
  datatype Front = Front(reqPvt: u32, rspCons: u32, shadow: seq<Shadow>, shadowFree: nat, refs: multiset<nat>)

  /** First and last sector of a scatter entry, stored in eight bits. */
  function EncodeSegment(sg: Scatter, gref: nat): Segment {
    var fsect := sg.offset / 512;
    Segment(gref, fsect % 0x100, (fsect + sg.length / 512 - 1) % 0x100)
  }

  function EncodeSegments(sg: seq<Scatter>, refs: seq<nat>): seq<Segment>
    requires |refs| == |sg|
  {
    seq(|sg|, i requires 0 <= i < |sg| => EncodeSegment(sg[i], refs[i]))
  }

  predicate BeyondEnd(blk: BlkReq) {
    ((blk.sector * 512) % 0x1_0000_0000_0000_0000 + (blk.count * 512) % 0x1_0000_0000_0000_0000)
      % 0x1_0000_0000_0000_0000 > DEVICE_SIZE
  }

  datatype Queueing = Refused | QueueBug | Queued(sh: Shared, f: Front, id: nat)

  /** idd_queue_request; `refs` are the references claimed for the segments. */
  function QueueRequest(sh: Shared, f: Front, blk: BlkReq, refs: seq<nat>): Queueing
    requires |refs| == |blk.sg| && |sh.slots| > 0
  {
    if BeyondEnd(blk) || |f.refs| < MAX_SEGMENTS then Refused
    else if f.shadowFree >= |f.shadow| || |blk.sg| > MAX_SEGMENTS then QueueBug
    else
      var id := f.shadowFree;
      var req := Request(id, blk.dir, blk.sector, EncodeSegments(blk.sg, refs));
      var slot := Slot(f.reqPvt, |sh.slots|);
      Queued(sh.(slots := sh.slots[slot := Req(req)]),
             f.(shadowFree := f.shadow[id].req.seqNo,
                shadow := f.shadow[id := Shadow(req, Some(blk.tag))],
                reqPvt := Add(f.reqPvt, 1),
                refs := f.refs - multiset(refs)),
             id)
  }

  function Grefs(segs: seq<Segment>): multiset<nat> {
    if segs == [] then multiset{} else Grefs(segs[..|segs| - 1]) + multiset{segs[|segs| - 1].gref}
  }

  datatype Draining = Skipped(f: Front) | DrainBug | Ended(f: Front, id: nat, tag: nat, rsp: Response)

  /** The body of both drain loops, for the response at index `i`. */
  function DrainResponse(sh: Shared, f: Front, i: u32, garbage: Response): Draining
    requires |sh.slots| > 0
  {
    var rsp := AsResponse(sh.slots[Slot(i, |sh.slots|)], garbage);
    var id := rsp.seqNo;
    if id >= |f.shadow| then Skipped(f)
    else
      var s := f.shadow[id];
      var f1 := if s.request.Some? then f.(refs := f.refs + Grefs(s.req.segs)) else f;
      if s.req.seqNo != id || s.request.None? then Skipped(f1)
      else if rsp.op != 0 && rsp.op != 1 then DrainBug
      else
        Ended(f1.(shadow := f.shadow[id := Shadow(s.req.(seqNo := f.shadowFree), None)], shadowFree := id),
              id, s.request.value, rsp)
  }

  // ---- backend

  datatype Pending = Pending(id: nat, op: int, status: int, pages: nat, pendcnt: int)

  /** `free` is the list of unused pool entries, by pool index; `owed` are the answered ones whose responder has
      not returned them yet, the latest first. */
  datatype Back = Back(
    rspPvt: u32, reqCons: u32, free: seq<nat>, owed: seq<nat>, pool: seq<Pending>, handles: seq<int>)

  predicate InRow(j: int, p: nat, pages: nat) {
    11 * p <= j < 11 * p + pages
  }

  function FillRow(handles: seq<int>, p: nat, row: seq<int>): (r: seq<int>)
    ensures |r| == |handles|
  {
    seq(|handles|, j requires 0 <= j < |handles| => if InRow(j, p, |row|) then row[j - 11 * p] else handles[j])
  }

  function ClearRow(handles: seq<int>, p: nat, pages: nat): (r: seq<int>)
    ensures |r| == |handles|
  {
    seq(|handles|, j requires 0 <= j < |handles| => if InRow(j, p, pages) then INVALID_HANDLE else handles[j])
  }

  /** The hypervisor's live mappings, from handle to page slot. A new mapping gets an unused handle. */
  predicate FreshHandles(maps: map<int, nat>, row: seq<int>) {
    && (forall i :: 0 <= i < |row| ==> row[i] !in maps)
    && (forall i, j :: 0 <= i < j < |row| && row[i] != INVALID_HANDLE ==> row[i] != row[j])
  }

  function MapRow(maps: map<int, nat>, p: nat, row: seq<int>): map<int, nat> {
    if row == [] then maps
    else
      var last := |row| - 1;
      var m := MapRow(maps, p, row[..last]);
      if row[last] == INVALID_HANDLE then m else m[row[last] := 11 * p + last]
  }

  /** Unmapping succeeds for a handle that is live at the page slot it was stored for. */
  predicate UnmapSucceeds(maps: map<int, nat>, handles: seq<int>, p: nat, pages: nat) {
    forall j :: 0 <= j < |handles| && InRow(j, p, pages) && handles[j] != INVALID_HANDLE ==>
      handles[j] in maps && maps[handles[j]] == j
  }

  function RowHandles(handles: seq<int>, p: nat, pages: nat): set<int> {
    set j | 0 <= j < |handles| && InRow(j, p, pages) && handles[j] != INVALID_HANDLE :: handles[j]
  }

  /** The handles that unmapping the first i pages of an entry passes to the hypervisor, in order. */
  function UnmapTo(handles: seq<int>, p: nat, i: nat): seq<int>
    requires 11 * p + i <= |handles|
  {
    if i == 0 then []
    else
      var handle := handles[11 * p + i - 1];
      UnmapTo(handles, p, i - 1) + (if handle == INVALID_HANDLE then [] else [handle])
  }

  /** make_response up to the index push; its caller still has to return entry p. */
  function WriteResponse(sh: Shared, b: Back, p: nat, rsp: Response): (Shared, Back)
    requires |sh.slots| > 0
  {
    (sh.(slots := sh.slots[Slot(b.rspPvt, |sh.slots|) := Rsp(rsp)]),
     b.(rspPvt := Add(b.rspPvt, 1), owed := [p] + b.owed))
  }

  /** free_req for the k-th entry owed. */
  function ReturnEntry(b: Back, k: nat): Back
    requires k < |b.owed|
  {
    b.(free := [b.owed[k]] + b.free, owed := b.owed[..k] + b.owed[k + 1..])
  }

  function Sectors(seg: Segment): int {
    seg.last - seg.first + 1
  }

  predicate GoodShape(req: Request) {
    (req.dir == 0 || req.dir == 1) && 0 < |req.segs| <= MAX_SEGMENTS
  }

  predicate GoodSegment(seg: Segment) {
    seg.first <= seg.last < 8
  }

  /** The low bits of the start sector and of each length against the device's block size. */
  predicate Aligned(req: Request, blockSize: nat)
    requires blockSize >= 512
  {
    forall i :: 0 <= i < |req.segs| && req.segs[i].first <= req.segs[i].last ==>
      BitAnd(BitOr(req.sector % 0x1_0000_0000, Sectors(req.segs[i])), blockSize / 512 - 1) == 0
  }

  predicate GoodSegments(req: Request, blockSize: nat)
    requires blockSize >= 512
  {
    (forall i :: 0 <= i < |req.segs| ==> GoodSegment(req.segs[i])) && Aligned(req, blockSize)
  }

  /** What the hypervisor and the block layer do with one request: a handle (or a failure) for each
      segment, and for each segment whether the open bio refuses its page. */
  datatype Outcome = Outcome(row: seq<int>, refuse: seq<bool>)

  /** Bios built for the first i segments: one for the first page, one more at each later refusal. */
  function BiosTo(refuse: seq<bool>, i: nat): (n: nat)
    requires i <= |refuse|
    ensures i > 0 ==> n > 0
  {
    if i == 0 then 0 else BiosTo(refuse, i - 1) + (if i == 1 || refuse[i - 1] then 1 else 0)
  }

  function BioCount(refuse: seq<bool>): (n: nat)
    ensures refuse != [] ==> n > 0
  {
    BiosTo(refuse, |refuse|)
  }

  datatype Dispatching =
    | Rejected(b: Back, maps: map<int, nat>)
    | UnmapFailed
    | Submitted(b: Back, maps: map<int, nat>, bios: nat)

  /** dispatch_rw_block_io up to its answer, for the request copied into pool entry `p`. */
  function DispatchRequest(b: Back, maps: map<int, nat>, blockSize: nat, p: nat, req: Request, o: Outcome): Dispatching
    requires p < |b.pool| && blockSize >= 512
    requires |o.row| == |o.refuse| == |req.segs|
  {
    if !GoodShape(req) then Rejected(b, maps)
    else
      var entry := Pending(req.seqNo, req.dir, 0, |req.segs|, b.pool[p].pendcnt);
      var b1 := b.(pool := b.pool[p := entry]);
      if !GoodSegments(req, blockSize) then Rejected(b1, maps)
      else
        var maps2 := MapRow(maps, p, o.row);
        var handles2 := FillRow(b.handles, p, o.row);
        if INVALID_HANDLE in o.row then
          if !UnmapSucceeds(maps2, handles2, p, |o.row|) then UnmapFailed
          else Rejected(b1.(handles := ClearRow(handles2, p, |o.row|)), maps2 - RowHandles(handles2, p, |o.row|))
        else
          var n := BioCount(o.refuse);
          Submitted(b.(pool := b.pool[p := entry.(pendcnt := n)], handles := handles2), maps2, n)
  }

  datatype Ending = More(b: Back) | EndBug | Last(b: Back, maps: map<int, nat>, rsp: Response)

  /** __end_block_io_op up to its answer. */
  function EndBlockIo(b: Back, maps: map<int, nat>, p: nat, error: bool): Ending
    requires p < |b.pool|
  {
    var e0 := b.pool[p];
    var e := e0.(status := if error then -1 else e0.status, pendcnt := e0.pendcnt - 1);
    var b1 := b.(pool := b.pool[p := e]);
    if e.pendcnt != 0 then More(b1)
    else if !UnmapSucceeds(maps, b.handles, p, e.pages) then EndBug
    else Last(b1.(handles := ClearRow(b.handles, p, e.pages)),
              maps - RowHandles(b.handles, p, e.pages),
              Response(e.id, e.op, e.status))
  }
}
