/** Every action of the system keeps the invariant and does to the bag what its event says. */
module SystemSteps {
  import opened Word32
  import opened RingMacros
  import opened Handshake
  import opened Options
  import opened Protocol
  import opened System
  import opened Bag
  import opened Invariant
  import opened DataSteps
  import opened BagSteps
  import opened GrantSteps
  import opened QuietSteps

  // ---- what each data action shows to the specification

  function SubmitEvent(s: State, blk: BlkReq, refs: seq<nat>): Option<Event>
    requires CanSubmit(s, blk, refs)
  {
    if RingFull(Size(s), s.f.reqPvt, s.f.rspCons) then None
    else
      var q := QueueRequest(s.sh, s.f, blk, refs);
      if q.Queued? then Some(Accept(q.id, blk.tag, NewRequest(s, blk, refs))) else None
  }

  function DrainEvent(s: State, anyRsp: Response): Option<Event>
    requires CanDrain(s)
  {
    var d := DrainResponse(s.sh, s.f, s.cursor, anyRsp);
    if d.Ended? then Some(End(d.id, d.tag, d.rsp)) else None
  }

  function DispatchEvent(s: State, o: Outcome): Option<Event>
    requires CanDispatch(s, o)
  {
    if DispatchOf(s, o).Rejected? then Some(Fault(s.claim.value.req.seqNo)) else None
  }

  function BioEvent(s: State, p: nat, error: bool): Option<Event>
    requires CanFinishBio(s, p)
  {
    if error then Some(Fault(s.b.pool[p].id)) else None
  }

  /** The event of an action, if it is one the specification sees. */
  function EventOf(s: State, a: Action): Option<Event>
    requires Enabled(s, a)
  {
    match a
    case Submit(blk, refs) => SubmitEvent(s, blk, refs)
    case DrainOne(anyRsp) => DrainEvent(s, anyRsp)
    case Dispatch(o) => DispatchEvent(s, o)
    case BioDone(p, error) => BioEvent(s, p, error)
    case _ => None
  }

  ghost predicate BagMoves(g: Ghost, g': Ghost, e: Option<Event>) {
    match e
    case None => g'.d.bag == g.d.bag
    case Some(e) => Allowed(g.d.bag, e) && g'.d.bag == Apply(g.d.bag, e)
  }


  // ---- what an action puts on the ring and takes off it

  function NewRequest(s: State, blk: BlkReq, refs: seq<nat>): Request
    requires |refs| == |blk.sg|
  {
    Request(s.f.shadowFree, blk.dir, blk.sector, EncodeSegments(blk.sg, refs))
  }

  function QueuedBySubmit(s: State, blk: BlkReq, refs: seq<nat>): seq<Request>
    requires CanSubmit(s, blk, refs)
  {
    if !RingFull(Size(s), s.f.reqPvt, s.f.rspCons) && QueueRequest(s.sh, s.f, blk, refs).Queued?
    then [NewRequest(s, blk, refs)] else []
  }

  function CopiedByConsume(s: State, anyReq: Request): seq<Request>
    requires CanConsume(s)
  {
    if ConsOverflow(Size(s), s.b.reqCons, s.b.rspPvt) || s.b.free == [] then []
    else [AsRequest(s.sh.slots[Slot(s.b.reqCons, Size(s))], anyReq)]
  }

  function DrainedByDrain(s: State, anyRsp: Response): Response
    requires CanDrain(s)
  {
    AsResponse(s.sh.slots[Slot(s.cursor, Size(s))], anyRsp)
  }

  function AnsweredByDispatch(s: State, o: Outcome): seq<Response>
    requires CanDispatch(s, o)
  {
    var req := s.claim.value.req;
    if DispatchOf(s, o).Rejected? then [Response(req.seqNo, req.dir, -1)] else []
  }

  function AnsweredByBio(s: State, p: nat, error: bool): seq<Response>
    requires CanFinishBio(s, p)
  {
    var e := EndBlockIo(s.b, s.maps, p, error);
    if e.Last? then [e.rsp] else []
  }

  function QueuedBy(s: State, a: Action): seq<Request>
    requires Enabled(s, a)
  {
    if a.Submit? then QueuedBySubmit(s, a.blk, a.refs) else []
  }

  function CopiedBy(s: State, a: Action): seq<Request>
    requires Enabled(s, a)
  {
    if a.Consume? then CopiedByConsume(s, a.anyReq) else []
  }

  function AnsweredBy(s: State, a: Action): seq<Response>
    requires Enabled(s, a)
  {
    if a.Dispatch? then AnsweredByDispatch(s, a.outcome)
    else if a.BioDone? then AnsweredByBio(s, a.p, a.error) else []
  }

  function DrainedBy(s: State, a: Action): seq<Response>
    requires Enabled(s, a)
  {
    if a.DrainOne? then [DrainedByDrain(s, a.anyRsp)] else []
  }

  /** The logs grow by what is written, and what is copied out is what the logs hold next. */
  ghost predicate LogsGrow(g: Cargo, g': Cargo, queued: seq<Request>, copied: seq<Request>,
                           answered: seq<Response>, drained: seq<Response>) {
    && g'.reqLog == g.reqLog + queued
    && g'.rspLog == g.rspLog + answered
    && g.reqCons + |copied| == g'.reqCons <= |g.reqLog| && copied == g.reqLog[g.reqCons..g'.reqCons]
    && g.cursor + |drained| == g'.cursor <= |g.rspLog| && drained == g.rspLog[g.cursor..g'.cursor]
  }

  lemma QueueLogs(g: Cargo, req: Request, tag: nat)
    requires Logged(g) && req.seqNo < |g.place| && |g.chain| > 0
    ensures LogsGrow(g, Queue(g, req, tag), [req], [], [], [])
  {
  }

  lemma TakeLogs(g: Cargo, p: nat)
    requires Logged(g) && g.reqCons < g.reqPvt && g.reqLog[g.reqCons].seqNo < |g.place|
    ensures LogsGrow(g, Take(g, p), [], [g.reqLog[g.reqCons]], [], [])
  {
  }

  lemma ReplyLogs(g: Cargo, g1: Cargo, p: nat, rsp: Response)
    requires Logged(g) && rsp.seqNo < |g1.place| && g1 == g.(jobs := g1.jobs, bag := g1.bag)
    ensures LogsGrow(g, Reply(g1, p, rsp), [], [], [rsp], [])
  {
  }

  lemma RetireLogs(g: Cargo)
    requires Logged(g) && g.cursor < g.rspPvt && g.rspLog[g.cursor].seqNo < |g.place|
    ensures LogsGrow(g, Retire(g), [], [], [], [g.rspLog[g.cursor]])
  {
  }

  lemma SameLogs(g: Cargo, g1: Cargo)
    requires Logged(g) && g1 == g.(jobs := g1.jobs, bag := g1.bag)
    ensures LogsGrow(g, g1, [], [], [], [])
  {
  }

  // ---- queueing a request

  lemma QueueData(slots: seq<Entry>, shadow: seq<Shadow>, free: nat, refs: multiset<nat>, b: Back,
                  claim: Option<Claim>, bios: multiset<nat>, maps: map<int, nat>, g: Cargo, total: multiset<nat>,
                  req: Request, tag: nat, claimed: seq<nat>)
    requires Data(slots, shadow, free, refs, b, claim, bios, maps, g, total)
    requires |g.chain| > 0 && g.reqPvt < g.cursor + |slots|
    requires req.seqNo == free && (req.dir == 0 || req.dir == 1)
    requires Grefs(req.segs) == multiset(claimed) && multiset(claimed) <= refs
    ensures free < |shadow|
    ensures Data(slots[g.reqPvt % |slots| := Req(req)], shadow[free := Shadow(req, Some(tag))],
                 shadow[free].req.seqNo, refs - multiset(claimed), b, claim, bios, maps, Queue(g, req, tag), total)
    ensures Allowed(g.bag, Accept(free, tag, req)) && Queue(g, req, tag).bag == Apply(g.bag, Accept(free, tag, req))
  {
    QueueIds(shadow, free, g, req, tag);
    WriteRequestSlot(slots, g, req, tag);
    QueueBag(shadow, free, g, req, tag);
    QueueRefs(shadow, refs, total, free, req, tag, claimed);
    assert PoolInv(b, claim, bios, Queue(g, req, tag));
  }

  lemma NotFullCounts(s: State, g: Ghost, n: nat, blk: BlkReq, refs: seq<nat>)
    requires CanSubmit(s, blk, refs) && RingSize(n) && Frame(s, g, n) && !RingFull(n, s.f.reqPvt, s.f.rspCons)
    ensures |g.d.chain| > 0 && g.d.reqPvt < g.d.cursor + n && g.d.cursor == g.rspCons
  {
    Guards(s, g, n);
    assert DrainLimit(s).None?;
  }

  lemma TopIsFree(shadow: seq<Shadow>, free: nat, g: Cargo)
    requires Logged(g) && IdInv(shadow, free, g) && |g.chain| > 0
    ensures free < |shadow|
  {
    var top := |g.chain| - 1;
    assert g.chain[top] < |shadow|;
  }

  /** When the ring is not full the free list is not empty, so the BUG_ON checks cannot fire. */
  lemma NotFullHasFree(s: State, g: Ghost, n: nat, pool: nat, total: multiset<nat>, blk: BlkReq, refs: seq<nat>)
    requires CanSubmit(s, blk, refs) && Inv(s, g, n, pool, total) && !RingFull(n, s.f.reqPvt, s.f.rspCons)
    ensures |g.d.chain| > 0 && s.f.shadowFree < |s.f.shadow|
    ensures g.d.reqPvt < g.d.cursor + n && g.d.cursor == g.rspCons
    ensures !QueueRequest(s.sh, s.f, blk, refs).QueueBug?
  {
    NotFullCounts(s, g, n, blk, refs);
    TopIsFree(s.f.shadow, s.f.shadowFree, g.d);
  }

  ghost predicate Queues(s: State, blk: BlkReq, refs: seq<nat>) {
    && CanSubmit(s, blk, refs) && !RingFull(Size(s), s.f.reqPvt, s.f.rspCons)
    && QueueRequest(s.sh, s.f, blk, refs).Queued?
  }

  lemma QueuedFields(s: State, blk: BlkReq, refs: seq<nat>)
    requires Queues(s, blk, refs)
    ensures var (n, id, req) := (Size(s), s.f.shadowFree, NewRequest(s, blk, refs));
            && id < |s.f.shadow| && multiset(refs) <= s.f.refs
            && DoSubmit(s, blk, refs) ==
               s.(sub := SubFlush,
                  sh := s.sh.(slots := s.sh.slots[Slot(s.f.reqPvt, n) := Req(req)]),
                  f := Front(Add(s.f.reqPvt, 1), s.f.rspCons, s.f.shadow[id := Shadow(req, Some(blk.tag))],
                             s.f.shadow[id].req.seqNo, s.f.refs - multiset(refs)))
  {
  }

  lemma QueuedEffect(s: State, g: Ghost, n: nat, blk: BlkReq, refs: seq<nat>)
    requires Queues(s, blk, refs) && RingSize(n) && Size(s) == n && Stored(s, g)
    ensures s.f.shadowFree < |s.f.shadow|
    ensures var req := NewRequest(s, blk, refs);
            DoSubmit(s, blk, refs) ==
              s.(sub := SubFlush,
                 sh := s.sh.(slots := s.sh.slots[g.d.reqPvt % n := Req(req)]),
                 f := Front(Wrap(g.d.reqPvt + 1), s.f.rspCons, s.f.shadow[s.f.shadowFree := Shadow(req, Some(blk.tag))],
                            s.f.shadow[s.f.shadowFree].req.seqNo, s.f.refs - multiset(refs)))
    ensures multiset(refs) <= s.f.refs
  {
    QueuedFields(s, blk, refs);
    SlotOfWrapped(g.d.reqPvt, n);
    AddWrap(g.d.reqPvt, 1);
  }

  lemma QueuedIsAccepted(s: State, blk: BlkReq, refs: seq<nat>)
    requires Queues(s, blk, refs)
    ensures SubmitEvent(s, blk, refs) == Some(Accept(s.f.shadowFree, blk.tag, NewRequest(s, blk, refs)))
  {
  }

  lemma QueuedFrame(s: State, g: Ghost, n: nat, s': State, req: Request, tag: nat)
    requires Frame(s, g, n) && |g.d.chain| > 0 && req.seqNo < |g.d.place|
    requires g.d.reqPvt < g.rspCons + n && s.sub.SubIdle? && (s.rsp.at.Top? || s.rsp.at.Asleep? || s.rsp.at.Kick?)
    requires |s'.sh.slots| == n
    requires s' == s.(sub := SubFlush, sh := s.sh.(slots := s'.sh.slots), f := s'.f)
    requires s'.f.reqPvt == Wrap(g.d.reqPvt + 1) && s'.f.rspCons == s.f.rspCons
    ensures Frame(s', g.(d := Queue(g.d, req, tag)), n)
  {
  }

  lemma QueuedInv(s: State, g: Ghost, n: nat, pool: nat, total: multiset<nat>, blk: BlkReq, refs: seq<nat>)
    returns (g': Ghost)
    requires Queues(s, blk, refs) && Inv(s, g, n, pool, total)
    ensures Inv(DoSubmit(s, blk, refs), g', n, pool, total)
    ensures BagMoves(g, g', SubmitEvent(s, blk, refs))
    ensures s.f.shadowFree < |g.d.place| && |g.d.chain| > 0 && g'.d == Queue(g.d, NewRequest(s, blk, refs), blk.tag)
  {
    var req := NewRequest(s, blk, refs);
    NotFullHasFree(s, g, n, pool, total, blk, refs);
    QueuedEffect(s, g, n, blk, refs);
    QueuedIsAccepted(s, blk, refs);
    GrefsEncoded(blk.sg, refs);
    QueueData(s.sh.slots, s.f.shadow, s.f.shadowFree, s.f.refs, s.b, s.claim, s.bios, s.maps, g.d, total,
              req, blk.tag, refs);
    QueuedFrame(s, g, n, DoSubmit(s, blk, refs), req, blk.tag);
    g' := g.(d := Queue(g.d, req, blk.tag));
  }

  lemma NothingQueued(s: State, g: Ghost, n: nat, pool: nat, total: multiset<nat>, blk: BlkReq, refs: seq<nat>)
    requires CanSubmit(s, blk, refs) && Inv(s, g, n, pool, total) && !Queues(s, blk, refs)
    ensures DoSubmit(s, blk, refs) == s
    ensures SubmitEvent(s, blk, refs) == None && QueuedBySubmit(s, blk, refs) == []
  {
    if !RingFull(n, s.f.reqPvt, s.f.rspCons) {
      NotFullHasFree(s, g, n, pool, total, blk, refs);
    }
  }

  lemma OneQueued(s: State, blk: BlkReq, refs: seq<nat>)
    requires Queues(s, blk, refs)
    ensures QueuedBySubmit(s, blk, refs) == [NewRequest(s, blk, refs)]
  {
  }

  lemma SubmitInv(s: State, g: Ghost, n: nat, pool: nat, total: multiset<nat>, blk: BlkReq, refs: seq<nat>)
    returns (g': Ghost)
    requires CanSubmit(s, blk, refs) && Inv(s, g, n, pool, total)
    ensures Inv(DoSubmit(s, blk, refs), g', n, pool, total)
    ensures BagMoves(g, g', SubmitEvent(s, blk, refs))
    ensures LogsGrow(g.d, g'.d, QueuedBySubmit(s, blk, refs), [], [], [])
  {
    if Queues(s, blk, refs) {
      g' := QueuedInv(s, g, n, pool, total, blk, refs);
      QueueLogs(g.d, NewRequest(s, blk, refs), blk.tag);
      OneQueued(s, blk, refs);
    } else {
      g' := g;
      NothingQueued(s, g, n, pool, total, blk, refs);
      SameLogs(g.d, g.d);
    }
  }

  // ---- draining a response

  lemma RetireData(slots: seq<Entry>, shadow: seq<Shadow>, free: nat, refs: multiset<nat>, b: Back,
                   claim: Option<Claim>, bios: multiset<nat>, maps: map<int, nat>, g: Cargo, total: multiset<nat>)
    requires Data(slots, shadow, free, refs, b, claim, bios, maps, g, total) && g.cursor < g.rspPvt
    ensures g.rspLog[g.cursor].seqNo < |shadow| && |g.place| == |shadow|
    ensures var id := g.rspLog[g.cursor].seqNo;
            && Busy(shadow[id], id)
            && Data(slots, shadow[id := Shadow(shadow[id].req.(seqNo := free), None)], id,
                    refs + Grefs(shadow[id].req.segs), b, claim, bios, maps, Retire(g), total)
    ensures var rsp := g.rspLog[g.cursor];
            && shadow[rsp.seqNo].req.dir == rsp.op
            && var e := End(rsp.seqNo, shadow[rsp.seqNo].request.value, rsp);
            Allowed(g.bag, e) && Retire(g).bag == Apply(g.bag, e)
  {
    var id := g.rspLog[g.cursor].seqNo;
    RetireIds(shadow, free, g);
    RetireBag(shadow, free, g);
    RetireRefs(shadow, refs, total, id, Shadow(shadow[id].req.(seqNo := free), None));
    assert PoolInv(b, claim, bios, Retire(g));
  }

  /** The slots of live indexes hold what was written at those indexes. */
  lemma LiveSlots(slots: seq<Entry>, g: Cargo, n: nat, i: nat)
    requires RingSize(n) && |slots| == n && n > 0 && Logged(g) && SlotInv(slots, g)
    ensures g.cursor <= i < g.rspPvt ==> slots[Slot(Wrap(i), n)] == Rsp(g.rspLog[i])
    ensures g.reqCons <= i < g.reqPvt ==> slots[Slot(Wrap(i), n)] == Req(g.reqLog[i])
  {
    SlotOfWrapped(i, n);
    if g.cursor <= i < g.rspPvt {
      var rsp := g.rspLog[i];
    }
    if g.reqCons <= i < g.reqPvt {
      var req := g.reqLog[i];
    }
  }

  lemma DrainSlot(s: State, g: Ghost, n: nat, pool: nat, total: multiset<nat>, anyRsp: Response)
    requires CanDrain(s) && Inv(s, g, n, pool, total)
    ensures g.d.cursor < g.snap && g.d.cursor < g.rspProd
    ensures AsResponse(s.sh.slots[Slot(s.cursor, n)], anyRsp) == g.d.rspLog[g.d.cursor]
  {
    DrainBounds(s, g, n);
    LiveSlots(s.sh.slots, g.d, n, g.d.cursor);
  }

  lemma DrainBounds(s: State, g: Ghost, n: nat)
    requires CanDrain(s) && Stored(s, g) && Control(s, g) && Order(g, n)
    ensures g.d.cursor < g.snap && g.d.cursor < g.rspProd
  {
  }

  lemma DrainFrame(s: State, g: Ghost, n: nat, s': State)
    requires Frame(s, g, n) && DrainLimit(s).Some? && g.d.cursor < g.snap
    requires g.d.rspLog != [] && g.d.cursor < |g.d.rspLog| && g.d.rspLog[g.d.cursor].seqNo < |g.d.place|
    requires s' == s.(f := s'.f, cursor := s'.cursor) && s'.cursor == Wrap(g.d.cursor + 1)
    requires s'.f.reqPvt == s.f.reqPvt && s'.f.rspCons == s.f.rspCons
    ensures Frame(s', g.(d := Retire(g.d)), n)
  {
  }

  lemma DrainEffect(s: State, g: Ghost, n: nat, anyRsp: Response)
    requires Size(s) == n && Stored(s, g) && CanDrain(s)
    requires g.d.cursor < |g.d.rspLog|
    requires AsResponse(s.sh.slots[Slot(s.cursor, n)], anyRsp) == g.d.rspLog[g.d.cursor]
    requires var rsp := g.d.rspLog[g.d.cursor];
             rsp.seqNo < |s.f.shadow| && Busy(s.f.shadow[rsp.seqNo], rsp.seqNo)
             && s.f.shadow[rsp.seqNo].req.dir == rsp.op
    ensures var rsp := g.d.rspLog[g.d.cursor];
            var e := s.f.shadow[rsp.seqNo];
            && DrainEvent(s, anyRsp) == Some(End(rsp.seqNo, e.request.value, rsp))
            && DoDrainOne(s, anyRsp) ==
                 s.(cursor := Wrap(g.d.cursor + 1),
                    f := s.f.(shadow := s.f.shadow[rsp.seqNo := Shadow(e.req.(seqNo := s.f.shadowFree), None)],
                              shadowFree := rsp.seqNo,
                              refs := s.f.refs + Grefs(e.req.segs)))
  {
    AddWrap(g.d.cursor, 1);
  }

  lemma RetiredInv(s: State, g: Ghost, n: nat, pool: nat, total: multiset<nat>, anyRsp: Response) returns (g': Ghost)
    requires CanDrain(s) && Inv(s, g, n, pool, total)
    ensures Inv(DoDrainOne(s, anyRsp), g', n, pool, total)
    ensures BagMoves(g, g', DrainEvent(s, anyRsp))
    ensures g.d.cursor < g.d.rspPvt && g.d.rspLog[g.d.cursor].seqNo < |g.d.place| && g'.d == Retire(g.d)
  {
    DrainSlot(s, g, n, pool, total, anyRsp);
    RetireData(s.sh.slots, s.f.shadow, s.f.shadowFree, s.f.refs, s.b, s.claim, s.bios, s.maps, g.d, total);
    DrainEffect(s, g, n, anyRsp);
    DrainFrame(s, g, n, DoDrainOne(s, anyRsp));
    g' := g.(d := Retire(g.d));
  }

  /** Draining ends exactly the request that the response was made for. */
  lemma DrainInv(s: State, g: Ghost, n: nat, pool: nat, total: multiset<nat>, anyRsp: Response) returns (g': Ghost)
    requires CanDrain(s) && Inv(s, g, n, pool, total)
    ensures Inv(DoDrainOne(s, anyRsp), g', n, pool, total)
    ensures BagMoves(g, g', DrainEvent(s, anyRsp))
    ensures LogsGrow(g.d, g'.d, [], [], [], [DrainedByDrain(s, anyRsp)])
  {
    DrainSlot(s, g, n, pool, total, anyRsp);
    g' := RetiredInv(s, g, n, pool, total, anyRsp);
    RetireLogs(g.d);
  }

  // ---- consuming a request

  lemma TakeHandles(handles: seq<int>, maps: map<int, nat>, jobs: map<nat, Job>, pool: nat, p: nat, req: Request)
    requires HandleInv(handles, maps, jobs, pool) && p !in jobs
    ensures HandleInv(handles, maps, jobs[p := Job(req, false, false)], pool)
  {
  }

  lemma TakeData(slots: seq<Entry>, shadow: seq<Shadow>, free: nat, refs: multiset<nat>, b: Back,
                 bios: multiset<nat>, maps: map<int, nat>, g: Cargo, total: multiset<nat>, rc: u32)
    requires Data(slots, shadow, free, refs, b, None, bios, maps, g, total)
    requires b.free != [] && g.reqCons < g.reqPvt
    ensures g.reqLog[g.reqCons].seqNo < |g.place|
    ensures b.free[0] !in g.jobs
    ensures Data(slots, shadow, free, refs, b.(free := b.free[1..], reqCons := rc),
                 Some(Claim(b.free[0], g.reqLog[g.reqCons])), bios, maps, Take(g, b.free[0]), total)
    ensures |Take(g, b.free[0]).jobs| == |g.jobs| + 1
  {
    var p := b.free[0];
    assert p !in g.jobs;
    TakeIds(shadow, free, g, p);
    TakeBag(shadow, free, g, p);
    TakePool(b, bios, g, rc);
    TakeHandles(b.handles, maps, g.jobs, |b.pool|, p, g.reqLog[g.reqCons]);
    assert SlotInv(slots, Take(g, p));
  }

  lemma ConsumeSlot(s: State, g: Ghost, n: nat, pool: nat, total: multiset<nat>, anyReq: Request)
    requires CanConsume(s) && Inv(s, g, n, pool, total)
    ensures g.d.reqCons < g.pass && g.d.reqCons < g.reqProd
    ensures AsRequest(s.sh.slots[Slot(s.b.reqCons, n)], anyReq) == g.d.reqLog[g.d.reqCons]
    ensures !ConsOverflow(n, s.b.reqCons, s.b.rspPvt)
  {
    ConsumeBounds(s, g, n);
    LiveSlots(s.sh.slots, g.d, n, g.d.reqCons);
  }

  lemma ConsumeBounds(s: State, g: Ghost, n: nat)
    requires CanConsume(s) && RingSize(n) && Frame(s, g, n)
    ensures g.d.reqCons < g.pass <= g.reqProd && g.d.reqCons - g.d.rspPvt < n
    ensures !ConsOverflow(n, s.b.reqCons, s.b.rspPvt)
  {
    Guards(s, g, n);
  }

  lemma ConsumeFrame(s: State, g: Ghost, n: nat, s': State, p: nat)
    requires Frame(s, g, n) && s.req.at.Drain? && g.d.reqCons < g.pass
    requires |g.d.reqLog| == g.d.reqPvt && g.d.reqLog[g.d.reqCons].seqNo < |g.d.place|
    requires |Take(g.d, p).jobs| == |g.d.jobs| + 1
    requires s' == s.(b := s'.b, claim := s'.claim)
    requires s'.b.reqCons == Wrap(g.d.reqCons + 1) && s'.b.rspPvt == s.b.rspPvt
    ensures Frame(s', g.(d := Take(g.d, p)), n)
  {
  }

  lemma ConsumeEffect(s: State, g: Ghost, n: nat, anyReq: Request)
    requires Size(s) == n && Stored(s, g) && CanConsume(s) && g.d.reqCons < |g.d.reqLog|
    requires AsRequest(s.sh.slots[Slot(s.b.reqCons, n)], anyReq) == g.d.reqLog[g.d.reqCons]
    requires !ConsOverflow(n, s.b.reqCons, s.b.rspPvt) && s.b.free != []
    ensures DoConsume(s, anyReq) ==
              s.(b := s.b.(free := s.b.free[1..], reqCons := Wrap(g.d.reqCons + 1)),
                 claim := Some(Claim(s.b.free[0], g.d.reqLog[g.d.reqCons])))
  {
    AddWrap(g.d.reqCons, 1);
  }

  lemma TakenInv(s: State, g: Ghost, n: nat, pool: nat, total: multiset<nat>, anyReq: Request) returns (g': Ghost)
    requires CanConsume(s) && s.b.free != [] && Inv(s, g, n, pool, total)
    ensures Inv(DoConsume(s, anyReq), g', n, pool, total)
    ensures g.d.reqCons < g.d.reqPvt && g.d.reqLog[g.d.reqCons].seqNo < |g.d.place|
    ensures g'.d == Take(g.d, s.b.free[0])
  {
    ConsumeSlot(s, g, n, pool, total, anyReq);
    ConsumeEffect(s, g, n, anyReq);
    TakeData(s.sh.slots, s.f.shadow, s.f.shadowFree, s.f.refs, s.b, s.bios, s.maps, g.d, total, Wrap(g.d.reqCons + 1));
    var s' := DoConsume(s, anyReq);
    ConsumeFrame(s, g, n, s', s.b.free[0]);
    g' := g.(d := Take(g.d, s.b.free[0]));
    assert UnreadRequests(s) by { Guards(s, g, n); }
    NextInv(s.req, UnreadRequests(s), s'.req, UnreadRequests(s'));
  }

  lemma BrokenOffEffect(s: State, anyReq: Request)
    requires CanConsume(s) && s.b.free == [] && !ConsOverflow(Size(s), s.b.reqCons, s.b.rspPvt)
    ensures DoConsume(s, anyReq) == s.(req := BreakOff(s.req))
  {
  }

  lemma BrokenOffFrame(s: State, g: Ghost, n: nat)
    requires Frame(s, g, n) && s.req.at.Drain? && s.claim.None?
    ensures Frame(s.(req := BreakOff(s.req)), g, n)
  {
  }

  /** An empty pool breaks the loop off and changes nothing else. */
  lemma BrokenOffInv(s: State, g: Ghost, n: nat, pool: nat, total: multiset<nat>, anyReq: Request)
    requires CanConsume(s) && s.b.free == [] && Inv(s, g, n, pool, total)
    ensures DoConsume(s, anyReq) == s.(req := BreakOff(s.req))
    ensures Inv(DoConsume(s, anyReq), g, n, pool, total)
  {
    ConsumeBounds(s, g, n);
    BrokenOffEffect(s, anyReq);
    BrokenOffFrame(s, g, n);
    NextInv(s.req, UnreadRequests(s), BreakOff(s.req), UnreadRequests(s));
  }

  /** The consume loop is never stopped by the overflow guard; unless the pool is empty it copies out exactly
      the request written at its index. */
  lemma ConsumeInv(s: State, g: Ghost, n: nat, pool: nat, total: multiset<nat>, anyReq: Request) returns (g': Ghost)
    requires CanConsume(s) && Inv(s, g, n, pool, total)
    ensures Inv(DoConsume(s, anyReq), g', n, pool, total) && g'.d.bag == g.d.bag
    ensures LogsGrow(g.d, g'.d, [], CopiedByConsume(s, anyReq), [], [])
    ensures DoConsume(s, anyReq).claim.Some? <==> s.b.free != []
  {
    if s.b.free == [] {
      g' := g;
      BrokenOffInv(s, g, n, pool, total, anyReq);
      SameLogs(g.d, g.d);
    } else {
      ConsumeSlot(s, g, n, pool, total, anyReq);
      ConsumeEffect(s, g, n, anyReq);
      g' := TakenInv(s, g, n, pool, total, anyReq);
      TakeLogs(g.d, s.b.free[0]);
    }
  }
}
