/** Runs of the whole system that lose a wakeup: of either thread by the race of the two stores, and of the backend
    thread by a pass that an empty pool breaks off. */
module LostRuns {
  import opened Word32
  import opened RingMacros
  import opened Handshake
  import opened Options
  import opened Protocol
  import opened System
  import opened Bag
  import opened Invariant
  import opened QuietSteps
  import opened SystemSteps
  import opened AnswerSteps
  import opened Reachability
  import opened EndToEnd
  import opened Wakeups
  import opened Progress
  import DriverRuns
  import Bios = Dispatch

  // ---- composing runs

  ghost predicate Leads(s: State, acts: seq<Action>, s': State) {
    Legal(s, acts) && Exec(s, acts) == s'
  }

  lemma {:induction false} Join(s: State, acts: seq<Action>, s1: State, more: seq<Action>, s2: State)
    requires Leads(s, acts, s1) && Leads(s1, more, s2)
    ensures Leads(s, acts + more, s2)
    decreases |acts|
  {
    if acts == [] {
      assert acts + more == more;
    } else {
      Join(Step(s, acts[0]), acts[1..], s1, more, s2);
      assert (acts + more)[1..] == acts[1..] + more;
    }
  }

  lemma Then(s: State, acts: seq<Action>, s1: State, a: Action)
    requires Leads(s, acts, s1) && Enabled(s1, a)
    ensures Leads(s, acts + [a], Step(s1, a))
  {
    var s2 := Step(s1, a);
    assert [a][1..] == [];
    assert Legal(s2, []) && Exec(s2, []) == s2;
    Join(s, acts, s1, [a], s2);
  }

  lemma {:induction false} InvAfter(s: State, g: Ghost, n: nat, pool: nat, total: multiset<nat>, acts: seq<Action>,
                                    s': State) returns (g': Ghost)
    requires Inv(s, g, n, pool, total) && Leads(s, acts, s')
    ensures Inv(s', g', n, pool, total)
    decreases |acts|
  {
    if acts == [] {
      g' := g;
    } else {
      var g1 := StepInv(s, g, n, pool, total, acts[0]);
      g' := InvAfter(Step(s, acts[0]), g1, n, pool, total, acts[1..], s');
    }
  }

  lemma Readings(s: State, g: Ghost, n: nat)
    requires RingSize(n) && Frame(s, g, n)
    ensures Size(s) > 0
    ensures MoreToDo(s, Requests) <==> UnreadRequests(s)
    ensures MoreToDo(s, Responses) <==> UnreadResponses(s)
    ensures UnreadRequests(s) ==> !ConsOverflow(Size(s), s.b.reqCons, s.b.rspPvt)
  {
    RingSizeBounds(n);
    Guards(s, g, n);
  }

  // ---- the backend thread

  /** From the waiting flag to the decision to sleep, with nothing to do. */
  lemma ToChosen(s: State) returns (acts: seq<Action>)
    requires !s.bug && Size(s) > 0 && s.req.at.Top? && s.req.waiting && s.req.status == Running
    requires s.b.free != [] && !UnreadRequests(s)
    ensures Leads(s, acts, s.(req := s.req.(at := Chosen, cut := false)))
  {
    var c := s.req.(cut := false);
    acts := [];
    Then(s, acts, s, WakeUp(Requests));
    acts := acts + [WakeUp(Requests)];
    var s1 := s.(req := c.(at := Scan));
    Then(s, acts, s1, ReadIndex(Requests));
    acts, s1 := acts + [ReadIndex(Requests)], s.(req := c.(at := Decide));
    Then(s, acts, s1, Sleepy(Requests, true));
    acts := acts + [Sleepy(Requests, true)];
  }

  /** From the waiting flag to a snapshot. */
  lemma Fetch(s: State) returns (acts: seq<Action>)
    requires !s.bug && Size(s) > 0 && s.req.at.Top? && s.req.waiting
    requires s.b.free != [] && UnreadRequests(s) && !ConsOverflow(Size(s), s.b.reqCons, s.b.rspPvt)
    ensures Leads(s, acts, s.(req := s.req.(at := Drain(s.sh.reqProd), cut := false)))
  {
    var c := s.req.(cut := false);
    acts := [];
    Then(s, acts, s, WakeUp(Requests));
    acts := acts + [WakeUp(Requests)];
    var s1 := s.(req := c.(at := Scan));
    Then(s, acts, s1, ReadIndex(Requests));
    acts, s1 := acts + [ReadIndex(Requests)], s.(req := c.(at := Load));
    Then(s, acts, s1, ReadIndex(Requests));
    acts := acts + [ReadIndex(Requests)];
  }

  /** The thread clears its flag, finds the requests in its last check, and takes a snapshot. */
  lemma TakeUp(s: State) returns (acts: seq<Action>)
    requires !s.bug && Size(s) > 0 && s.req.at.Half? && s.b.free != []
    requires UnreadRequests(s) && MoreToDo(s, Requests) && !ConsOverflow(Size(s), s.b.reqCons, s.b.rspPvt)
    ensures Leads(s, acts, s.(req := ClearWaiting(s.req).(at := Drain(s.sh.reqProd))))
  {
    var c := ClearWaiting(s.req);
    var a := ReadIndex(Requests);
    acts := [];
    Then(s, acts, s, Unwait(Requests));
    acts := acts + [Unwait(Requests)];
    var s1 := s.(req := c);
    Then(s, acts, s1, a);
    acts, s1 := acts + [a], s.(req := c.(at := Scan));
    Then(s, acts, s1, a);
    acts, s1 := acts + [a], s.(req := c.(at := Load));
    Then(s, acts, s1, a);
    acts := acts + [a];
  }

  /** Both readings of the final check find nothing. */
  lemma FindNothing(s: State) returns (acts: seq<Action>)
    requires !s.bug && Size(s) > 0 && s.req.at.Check1? && !MoreToDo(s, Requests)
    ensures Leads(s, acts, s.(sh := s.sh.(reqEvent := Add(s.b.reqCons, 1)), req := s.req.(at := Decide)))
  {
    var a := ReadIndex(Requests);
    acts := [];
    Then(s, acts, s, a);
    acts := acts + [a];
    var s1 := s.(sh := s.sh.(reqEvent := Add(s.b.reqCons, 1)), req := s.req.(at := Check2));
    Then(s, acts, s1, a);
    acts := acts + [a];
  }

  /** At the end of a pass the thread finds nothing more, and does not decide to sleep. */
  lemma Rest(s: State) returns (acts: seq<Action>, s': State)
    requires !s.bug && Size(s) > 0 && s.claim.None? && s.req.at == Drain(s.b.reqCons) && !MoreToDo(s, Requests)
    ensures Leads(s, acts, s')
    ensures s' == s.(sh := s.sh.(reqEvent := Add(s.b.reqCons, 1)), req := s.req.(at := Top))
  {
    Then(s, [], s, PassDone);
    acts := [] + [PassDone];
    var s1 := s.(req := s.req.(at := Check1));
    var more := FindNothing(s1);
    s' := s1.(sh := s.sh.(reqEvent := Add(s.b.reqCons, 1)), req := s.req.(at := Decide));
    Join(s, acts, s1, more, s');
    acts := acts + more;
    Then(s, acts, s', Sleepy(Requests, false));
    acts, s' := acts + [Sleepy(Requests, false)], s'.(req := s.req.(at := Top));
  }

  /** A handler runs to its end. */
  lemma HandleAll(s: State, side: Side) returns (acts: seq<Action>, s': State)
    requires !s.bug && Size(s) > 0
    requires Chan(s, side).handler == Quiet && Chan(s, side).irq && !Chan(s, side).at.Asleep?
    ensures Leads(s, acts, s')
    ensures s' == SetChan(s, side, Chan(s, side).(waiting := true, irq := false, status := Running))
  {
    var c := Chan(s, side).(waiting := true, irq := false);
    var a := Interrupt(side);
    acts := [];
    Then(s, acts, s, a);
    acts := acts + [a];
    var s1 := SetChan(s, side, c.(handler := Flagged));
    Then(s, acts, s1, a);
    acts, s1 := acts + [a], SetChan(s, side, c.(handler := Looked));
    Then(s, acts, s1, a);
    acts, s' := acts + [a], SetChan(s, side, c.(status := Running));
  }

  // ---- requests for one page, which every block size up to a page accepts

  function Page(tag: nat): BlkReq {
    BlkReq(tag, 0, 8, 0, [Scatter(0, 4096)])
  }

  function PageRequest(id: nat, gref: nat): Request {
    Request(id, 0, 0, [Segment(gref, 0, 7)])
  }

  /** Block sizes of 512 << k bytes up to a page. */
  predicate BlockSize(blockSize: nat, k: nat) {
    k <= 3 && blockSize == 512 * Pow2(k)
  }

  lemma PageIsGood(id: nat, gref: nat, blockSize: nat, k: nat)
    requires BlockSize(blockSize, k)
    ensures blockSize >= 512
    ensures EncodeSegments([Scatter(0, 4096)], [gref]) == PageRequest(id, gref).segs
    ensures GoodShape(PageRequest(id, gref)) && GoodSegments(PageRequest(id, gref), blockSize)
  {
    var req := PageRequest(id, gref);
    assert EncodeSegment(Scatter(0, 4096), gref) == Segment(gref, 0, 7);
    assert Pow2(0) == 1 && Pow2(1) == 2 && Pow2(2) == 4 && Pow2(3) == 8;
    Bios.AlignedExactly(req, blockSize, k);
    assert Sectors(req.segs[0]) % Pow2(k) == 0;
  }

  lemma PageEncoded(id: nat, gref: nat)
    ensures Request(id, 0, 0, EncodeSegments(Page(0).sg, [gref])) == PageRequest(id, gref)
  {
    assert Pow2(0) == 1;
    PageIsGood(id, gref, 512, 0);
  }

  lemma PageFits(tag: nat)
    ensures !BeyondEnd(Page(tag))
  {
  }

  ghost predicate CanQueue(s: State, blk: BlkReq, refs: seq<nat>) {
    && !s.bug && CanSubmit(s, blk, refs) && !RingFull(Size(s), s.f.reqPvt, s.f.rspCons)
    && QueueRequest(s.sh, s.f, blk, refs).Queued? && s.sh.rspProd == s.f.rspCons
  }

  ghost function Queue1(s: State, blk: BlkReq, refs: seq<nat>): State
    requires CanQueue(s, blk, refs)
  {
    var q := QueueRequest(s.sh, s.f, blk, refs);
    s.(sh := q.sh.(reqProd := q.f.reqPvt), f := q.f, req := Signal(Push(s.req)))
  }

  /** The frontend queues one request, pushes it, reads the status word and finds no response. */
  lemma QueueOne(s: State, blk: BlkReq, refs: seq<nat>) returns (acts: seq<Action>)
    requires CanQueue(s, blk, refs)
    ensures Leads(s, acts, Queue1(s, blk, refs))
  {
    var q := QueueRequest(s.sh, s.f, blk, refs);
    acts := [];
    var s1 := s;
    Then(s, acts, s1, Submit(blk, refs));
    acts, s1 := acts + [Submit(blk, refs)], s.(sh := q.sh, f := q.f, sub := SubFlush);
    Then(s, acts, s1, PushRequests);
    acts := acts + [PushRequests];
    s1 := s.(sh := q.sh.(reqProd := q.f.reqPvt), f := q.f, req := Push(s.req), sub := SubSignal);
    Then(s, acts, s1, SignalBackend);
    acts, s1 := acts + [SignalBackend], Queue1(s, blk, refs).(sub := SubPoll);
    Then(s, acts, s1, Poll(true));
    acts := acts + [Poll(true)];
  }

  /** A page request has been queued and pushed. */
  ghost predicate QueuedAs(s: State, gref: nat, s': State)
    requires Size(s) > 0
  {
    && s' == s.(sh := s'.sh, f := s'.f, req := Signal(Push(s.req)))
    && s'.sh == s.sh.(slots := s.sh.slots[Slot(s.f.reqPvt, Size(s)) := Req(PageRequest(s.f.shadowFree, gref))],
                      reqProd := Add(s.f.reqPvt, 1))
    && s'.f.reqPvt == Add(s.f.reqPvt, 1) && s'.f.rspCons == s.f.rspCons
    && s'.f.refs == s.f.refs - multiset{gref}
  }

  /** Nothing stands in the way of queueing a page. */
  ghost predicate RoomForPage(s: State, gref: nat) {
    && s.sub.SubIdle? && (s.rsp.at.Top? || s.rsp.at.Asleep?) && s.sh.rspProd == s.f.rspCons
    && !RingFull(Size(s), s.f.reqPvt, s.f.rspCons) && gref in s.f.refs && |s.f.refs| >= MAX_SEGMENTS
  }

  lemma PageQueued(s: State, tag: nat, gref: nat)
    requires !s.bug && Size(s) > 0 && RoomForPage(s, gref) && s.f.shadowFree < |s.f.shadow|
    ensures CanQueue(s, Page(tag), [gref]) && QueuedAs(s, gref, Queue1(s, Page(tag), [gref]))
  {
    PageFits(tag);
    PageEncoded(s.f.shadowFree, gref);
    assert multiset([gref]) == multiset{gref};
    assert CanSubmit(s, Page(tag), [gref]);
  }

  lemma QueuePage(s: State, g: Ghost, n: nat, pool: nat, total: multiset<nat>, tag: nat, gref: nat)
    returns (acts: seq<Action>, s': State)
    requires Inv(s, g, n, pool, total) && RoomForPage(s, gref)
    ensures Leads(s, acts, s') && Size(s) > 0 && QueuedAs(s, gref, s')
  {
    RingSizeBounds(n);
    assert multiset([gref]) == multiset{gref};
    NotFullHasFree(s, g, n, pool, total, Page(tag), [gref]);
    PageQueued(s, tag, gref);
    acts := QueueOne(s, Page(tag), [gref]);
    s' := Queue1(s, Page(tag), [gref]);
  }

  /** The next request of the pass is one for a page. */
  ghost predicate PageNext(s: State, gref: nat) {
    && CanConsume(s) && !ConsOverflow(Size(s), s.b.reqCons, s.b.rspPvt)
    && s.b.free != [] && s.b.free[0] < |s.b.pool| && s.maps == map[]
    && exists id :: s.sh.slots[Slot(s.b.reqCons, Size(s))] == Req(PageRequest(id, gref))
  }

  /** It has been taken off the ring, mapped and submitted as one bio. */
  ghost predicate ServedAs(s: State, s': State) {
    && s.b.free != []
    && s' == s.(b := s'.b, maps := s'.maps, bios := s.bios[s.b.free[0] := s.bios[s.b.free[0]] + 1])
    && s'.b.reqCons == Add(s.b.reqCons, 1) && s'.b.rspPvt == s.b.rspPvt
    && s'.b.free == s.b.free[1..] && s'.b.owed == s.b.owed
  }

  lemma ServePage(s: State, gref: nat, k: nat) returns (acts: seq<Action>, s': State)
    requires !s.bug && PageNext(s, gref) && BlockSize(s.blockSize, k)
    ensures Leads(s, acts, s') && ServedAs(s, s')
  {
    var id :| s.sh.slots[Slot(s.b.reqCons, Size(s))] == Req(PageRequest(id, gref));
    var req, o := PageRequest(id, gref), Outcome([0], [false]);
    PageIsGood(id, gref, s.blockSize, k);
    acts := [];
    Then(s, acts, s, Consume(req));
    acts := acts + [Consume(req)];
    var s1 := DoConsume(s, req);
    assert s1.claim == Some(Claim(s.b.free[0], req));
    OneBio(o.refuse);
    Then(s, acts, s1, Dispatch(o));
    acts := acts + [Dispatch(o)];
    s' := Step(s1, Dispatch(o));
  }

  lemma OneBio(refuse: seq<bool>)
    requires |refuse| == 1
    ensures BioCount(refuse) == 1
  {
    assert BiosTo(refuse, 0) == 0;
  }

  // ---- the answer

  /** The only unfinished bio has ended and its request has been answered. */
  ghost predicate AnsweredAs(s: State, p: nat, s': State) {
    && s' == s.(sh := s'.sh, b := s'.b, maps := s'.maps, bios := multiset{}, rsp := Signal(Push(s.rsp)))
    && s'.sh == s.sh.(slots := s'.sh.slots, rspProd := Add(s.b.rspPvt, 1)) && Size(s') == Size(s)
    && s'.b.rspPvt == Add(s.b.rspPvt, 1) && s'.b.reqCons == s.b.reqCons && s'.b.free == s.b.free
  }

  lemma LastBioEffect(s: State, p: nat)
    requires CanFinishBio(s, p) && s.bios == multiset{p} && s.b.pool[p].pendcnt == 1
    requires UnmapSucceeds(s.maps, s.b.handles, p, s.b.pool[p].pages)
    ensures var s1 := DoBioDone(s, p, false);
            && s1 == s.(sh := s1.sh, b := s1.b, maps := s1.maps, bios := multiset{}, writing := true)
            && s1.sh == s.sh.(slots := s1.sh.slots) && Size(s1) == Size(s)
            && s1.b.rspPvt == Add(s.b.rspPvt, 1) && s1.b.reqCons == s.b.reqCons && s1.b.free == s.b.free
  {
    assert multiset{p}[p := 0] == multiset{};
  }

  lemma Finish(s: State, g: Ghost, n: nat, pool: nat, total: multiset<nat>, p: nat)
    returns (acts: seq<Action>, s': State)
    requires Inv(s, g, n, pool, total) && LockFree(s) && s.bios == multiset{p}
    ensures Leads(s, acts, s') && AnsweredAs(s, p, s')
  {
    RingSizeBounds(n);
    BioFacts(s, g, n, pool, total, p);
    LastUnmaps(s, g, n, pool, total, p);
    assert s.bios[p] == 1;
    LastBioEffect(s, p);
    acts := [];
    Then(s, acts, s, BioDone(p, false));
    acts := acts + [BioDone(p, false)];
    var s1 := DoBioDone(s, p, false);
    Then(s, acts, s1, PushResponse);
    acts := acts + [PushResponse];
    s1 := s1.(sh := s1.sh.(rspProd := s1.b.rspPvt), rsp := Push(s.rsp), writing := false);
    Then(s, acts, s1, SignalFrontend);
    acts := acts + [SignalFrontend];
    s' := s1.(rsp := Signal(s1.rsp));
  }

  // ---- the frontend thread

  /** The only response has been read and nothing is outstanding; the thread is back at its waiting flag. */
  ghost predicate DrainedAs(s: State, s': State) {
    && s' == s.(f := s'.f, cursor := s.sh.rspProd, sh := s.sh.(rspEvent := Add(s.sh.rspProd, 1)),
                rsp := s.rsp.(at := Top))
    && s'.f.reqPvt == s.f.reqPvt && s'.f.rspCons == s.sh.rspProd
  }

  lemma DrainOnlyOne(s: State, anyRsp: Response)
    requires CanDrain(s) && DrainResponse(s.sh, s.f, s.cursor, anyRsp).Ended?
    ensures var s1 := DoDrainOne(s, anyRsp);
            && s1 == s.(f := s1.f, cursor := Add(s.cursor, 1))
            && s1.f.reqPvt == s.f.reqPvt && s1.f.rspCons == s.f.rspCons
  {
  }

  lemma LoadSnapshot(s: State, g: Ghost, n: nat, pool: nat, total: multiset<nat>) returns (s': State, g': Ghost)
    requires Inv(s, g, n, pool, total) && s.rsp.at.Load?
    ensures Leads(s, [ReadIndex(Responses)], s') && Inv(s', g', n, pool, total)
    ensures s' == s.(cursor := s.f.rspCons, rsp := s.rsp.(at := Drain(s.sh.rspProd)))
  {
    RingSizeBounds(n);
    s' := s.(cursor := s.f.rspCons, rsp := s.rsp.(at := Drain(s.sh.rspProd)));
    Then(s, [], s, ReadIndex(Responses));
    assert [] + [ReadIndex(Responses)] == [ReadIndex(Responses)];
    g' := StepInv(s, g, n, pool, total, ReadIndex(Responses));
  }

  lemma ReadNext(s: State, g: Ghost, n: nat, pool: nat, total: multiset<nat>, anyRsp: Response) returns (s': State)
    requires Inv(s, g, n, pool, total) && s.rsp.at.Drain? && s.sub.SubIdle? && s.rsp.at.limit == Add(s.cursor, 1)
    ensures Enabled(s, DrainOne(anyRsp)) && s' == Step(s, DrainOne(anyRsp))
    ensures s' == s.(f := s'.f, cursor := Add(s.cursor, 1))
    ensures s'.f.reqPvt == s.f.reqPvt && s'.f.rspCons == s.f.rspCons
  {
    RingSizeBounds(n);
    WordNext(s.cursor);
    DriverRuns.DrainEnds(s, g, n, pool, total, anyRsp);
    DrainOnlyOne(s, anyRsp);
    s' := DoDrainOne(s, anyRsp);
  }

  lemma ReadOnlyOne(s: State, g: Ghost, n: nat, pool: nat, total: multiset<nat>)
    returns (acts: seq<Action>, s': State)
    requires Inv(s, g, n, pool, total) && s.sub.SubIdle? && s.rsp.at.Load? && s.sh.rspProd == Add(s.f.rspCons, 1)
    ensures Leads(s, acts, s')
    ensures s' == s.(f := s'.f, cursor := s.sh.rspProd, rsp := s.rsp.(at := Drain(s.sh.rspProd)))
    ensures s'.f.reqPvt == s.f.reqPvt && s'.f.rspCons == s.f.rspCons
  {
    var a := DrainOne(Response(0, 0, 0));
    var s1, g1 := LoadSnapshot(s, g, n, pool, total);
    s' := ReadNext(s1, g1, n, pool, total, a.anyRsp);
    Then(s, [ReadIndex(Responses)], s1, a);
    acts := [ReadIndex(Responses)] + [a];
  }

  /** The end of a drain loop that leaves nothing outstanding. */
  lemma AllRead(s: State) returns (acts: seq<Action>, s': State)
    requires !s.bug && Size(s) > 0 && s.sub.SubIdle? && s.rsp.at == Drain(s.cursor) && s.cursor == s.f.reqPvt
    ensures Leads(s, acts, s')
    ensures s' == s.(f := s.f.(rspCons := s.cursor), sh := s.sh.(rspEvent := Add(s.cursor, 1)),
                     rsp := s.rsp.(at := Top))
  {
    acts := [];
    Then(s, acts, s, DrainDone);
    acts := acts + [DrainDone];
    var t := s.(f := s.f.(rspCons := s.cursor), sh := s.sh.(rspEvent := Add(s.cursor, 1)));
    var s1 := t.(rsp := s.rsp.(at := Kick));
    Then(s, acts, s1, KickDone);
    acts, s1 := acts + [KickDone], t.(rsp := s.rsp.(at := Decide));
    Then(s, acts, s1, Sleepy(Responses, false));
    acts, s' := acts + [Sleepy(Responses, false)], t.(rsp := s.rsp.(at := Top));
  }

  lemma FrontDrain(s: State, g: Ghost, n: nat, pool: nat, total: multiset<nat>) returns (acts: seq<Action>, s': State)
    requires Inv(s, g, n, pool, total) && s.sub.SubIdle? && s.rsp.at.Load?
    requires s.sh.rspProd == Add(s.f.rspCons, 1) == s.f.reqPvt
    ensures Leads(s, acts, s') && DrainedAs(s, s')
  {
    RingSizeBounds(n);
    var s1, more;
    acts, s1 := ReadOnlyOne(s, g, n, pool, total);
    more, s' := AllRead(s1);
    Join(s, acts, s1, more, s');
    acts := acts + more;
  }

  /** With a request outstanding and no response: through the drain loop to the final check. */
  lemma FrontLooks(s: State) returns (acts: seq<Action>, s': State)
    requires !s.bug && Size(s) > 0 && s.sub.SubIdle? && s.rsp.at.Top? && s.rsp.waiting && !s.rsp.cut
    requires s.sh.rspProd == s.f.rspCons != s.f.reqPvt
    ensures Leads(s, acts, s')
    ensures s' == s.(cursor := s.f.rspCons, rsp := s.rsp.(at := Check1))
  {
    var i := s.f.rspCons;
    acts := [];
    Then(s, acts, s, WakeUp(Responses));
    acts := acts + [WakeUp(Responses)];
    var s1 := s.(rsp := s.rsp.(at := Load));
    Then(s, acts, s1, ReadIndex(Responses));
    acts, s1 := acts + [ReadIndex(Responses)], s.(cursor := i, rsp := s.rsp.(at := Drain(i)));
    Then(s, acts, s1, DrainDone);
    acts, s' := acts + [DrainDone], s.(cursor := i, rsp := s.rsp.(at := Check1));
  }

  lemma FrontFindsNothing(s: State) returns (acts: seq<Action>, s': State)
    requires !s.bug && Size(s) > 0 && s.sub.SubIdle? && s.rsp.at.Check1? && s.sh.rspProd == s.f.rspCons
    ensures Leads(s, acts, s')
    ensures s' == s.(sh := s.sh.(rspEvent := Add(s.f.rspCons, 1)), rsp := s.rsp.(at := Kick))
  {
    var i, a := s.f.rspCons, ReadIndex(Responses);
    WordSub(i, i);
    acts := [];
    Then(s, acts, s, a);
    acts := acts + [a];
    var s1 := s.(sh := s.sh.(rspEvent := Add(i, 1)), rsp := s.rsp.(at := Check2));
    Then(s, acts, s1, a);
    acts, s' := acts + [a], s1.(rsp := s.rsp.(at := Kick));
  }

  /** Up to the first of the two stores. */
  lemma FrontDecides(s: State) returns (acts: seq<Action>, s': State)
    requires !s.bug && Size(s) > 0 && s.sub.SubIdle? && s.rsp.at.Kick? && s.rsp.status == Running && !s.rsp.cut
    ensures Leads(s, acts, s') && s' == s.(rsp := s.rsp.(status := Sleeping, at := Half))
  {
    acts := [];
    Then(s, acts, s, KickDone);
    acts := acts + [KickDone];
    var s1 := s.(rsp := s.rsp.(at := Decide));
    Then(s, acts, s1, Sleepy(Responses, true));
    acts, s1 := acts + [Sleepy(Responses, true)], s.(rsp := s.rsp.(at := Chosen));
    Then(s, acts, s1, SayAsleep(Responses));
    acts, s' := acts + [SayAsleep(Responses)], s.(rsp := s.rsp.(status := Sleeping, at := Half));
  }

  lemma FrontHalfAsleep(s: State) returns (acts: seq<Action>, s': State)
    requires !s.bug && Size(s) > 0 && s.sub.SubIdle? && s.rsp == START && s.sh.rspProd == s.f.rspCons != s.f.reqPvt
    ensures Leads(s, acts, s')
    ensures s' == s.(cursor := s.f.rspCons, sh := s.sh.(rspEvent := Add(s.f.rspCons, 1)),
                     rsp := START.(status := Sleeping, at := Half))
  {
    var s1, s2, more;
    acts, s1 := FrontLooks(s);
    more, s2 := FrontFindsNothing(s1);
    Join(s, acts, s1, more, s2);
    acts := acts + more;
    more, s' := FrontDecides(s2);
    Join(s, acts, s2, more, s');
    acts := acts + more;
  }

  // ---- a system at rest

  /** Nothing is queued, served, answered or unread. */
  ghost predicate Still(s: State) {
    && s.sub.SubIdle? && LockFree(s) && s.claim.None? && s.bios == multiset{} && !s.req.signalling
    && s.f.reqPvt == s.f.rspCons == s.sh.reqProd == s.sh.rspProd == s.b.reqCons == s.b.rspPvt
  }

  lemma StillCounters(s: State, g: Ghost, n: nat)
    requires RingSize(n) && Frame(s, g, n) && Still(s)
    ensures g.d.reqCons == g.d.reqPvt && g.d.cursor == g.d.rspPvt && |g.d.jobs| == 0
    ensures !RingFull(Size(s), s.f.reqPvt, s.f.rspCons)
  {
    RingSizeBounds(n);
    WrapInjective(g.d.reqPvt, g.rspCons);
    Guards(s, g, n);
  }

  lemma NoMappings(handles: seq<int>, maps: map<int, nat>, jobs: map<nat, Job>, pool: nat)
    requires HandleInv(handles, maps, jobs, pool) && |jobs| == 0
    ensures maps == map[]
  {
    assert jobs == map[];
    assert forall j :: 0 <= j < |handles| ==> handles[j] == INVALID_HANDLE;
    assert forall h :: h !in maps;
    assert maps.Keys == {};
  }

  lemma AllRefsFree(shadow: seq<Shadow>, free: nat, refs: multiset<nat>, total: multiset<nat>, g: Cargo)
    requires Logged(g) && IdInv(shadow, free, g) && refs + Granted(shadow) == total
    requires g.reqCons == g.reqPvt && g.cursor == g.rspPvt && |g.jobs| == 0
    ensures refs == total
  {
    assert g.jobs == map[];
    NothingPlaced(shadow, free, g);
    NothingGranted(shadow);
  }

  lemma StillFacts(s: State, g: Ghost, n: nat, pool: nat, total: multiset<nat>)
    requires Inv(s, g, n, pool, total) && Still(s)
    ensures Size(s) > 0 && s.f.refs == total && s.maps == map[]
    ensures |s.b.free| + |s.b.owed| == pool && (forall k :: 0 <= k < |s.b.free| ==> s.b.free[k] < |s.b.pool|)
    ensures !RingFull(Size(s), s.f.reqPvt, s.f.rspCons)
  {
    RingSizeBounds(n);
    StillCounters(s, g, n);
    NoMappings(s.b.handles, s.maps, g.d.jobs, pool);
    AllRefsFree(s.f.shadow, s.f.shadowFree, s.f.refs, total, g.d);
  }

  /** Enough grant references, and a block size that a page suits. */
  predicate Supplied(s: State, total: multiset<nat>, gref: nat, k: nat) {
    gref in total && |total| >= MAX_SEGMENTS && BlockSize(s.blockSize, k)
  }

  /** One page has been queued from rest. */
  ghost predicate OneQueued(s: State, gref: nat) {
    && s.sub.SubIdle? && LockFree(s) && s.claim.None? && s.bios == multiset{} && !s.req.signalling
    && s.f.rspCons == s.sh.rspProd == s.b.reqCons == s.b.rspPvt
    && s.f.reqPvt == s.sh.reqProd == Add(s.b.reqCons, 1)
    && Size(s) > 0 && s.maps == map[] && (forall k :: 0 <= k < |s.b.free| ==> s.b.free[k] < |s.b.pool|)
    && exists id :: s.sh.slots[Slot(s.b.reqCons, Size(s))] == Req(PageRequest(id, gref))
  }

  lemma QueueFromRest(s: State, g: Ghost, n: nat, pool: nat, total: multiset<nat>, tag: nat, gref: nat, k: nat)
    returns (acts: seq<Action>, s': State, g': Ghost)
    requires Inv(s, g, n, pool, total) && Still(s) && (s.rsp.at.Top? || s.rsp.at.Asleep?) && Supplied(s, total, gref, k)
    ensures Leads(s, acts, s') && Inv(s', g', n, pool, total) && OneQueued(s', gref)
    ensures s' == s.(sh := s'.sh, f := s'.f, req := Signal(Push(s.req)))
    ensures UnreadRequests(s') && MoreToDo(s', Requests) && !ConsOverflow(Size(s'), s'.b.reqCons, s'.b.rspPvt)
  {
    StillFacts(s, g, n, pool, total);
    acts, s' := QueuePage(s, g, n, pool, total, tag, gref);
    QueuedFromRest(s, gref, s');
    g' := InvAfter(s, g, n, pool, total, acts, s');
    Readings(s', g', n);
  }

  lemma QueuedFromRest(s: State, gref: nat, s': State)
    requires Size(s) > 0 && Still(s) && QueuedAs(s, gref, s') && s.maps == map[]
    requires forall k :: 0 <= k < |s.b.free| ==> s.b.free[k] < |s.b.pool|
    ensures OneQueued(s', gref) && UnreadRequests(s')
  {
    WordNext(s.b.reqCons);
    assert s'.sh.slots[Slot(s'.b.reqCons, Size(s'))] == Req(PageRequest(s.f.shadowFree, gref));
  }

  /** One page has been served from rest: its bio is the only unfinished one. */
  ghost predicate OneServed(s: State) {
    && s.sub.SubIdle? && LockFree(s) && s.claim.None? && !s.req.signalling
    && (exists p :: s.bios == multiset{p})
    && s.f.rspCons == s.sh.rspProd == s.b.rspPvt
    && s.f.reqPvt == s.sh.reqProd == s.b.reqCons == Add(s.b.rspPvt, 1)
  }

  lemma ServeOnly(s: State, gref: nat, k: nat) returns (acts: seq<Action>, s': State)
    requires !s.bug && OneQueued(s, gref) && BlockSize(s.blockSize, k) && s.b.free != []
    requires s.req.at == Drain(s.sh.reqProd) && !ConsOverflow(Size(s), s.b.reqCons, s.b.rspPvt)
    ensures Leads(s, acts, s') && OneServed(s') && s'.b.free == s.b.free[1..]
    ensures s' == s.(b := s'.b, maps := s'.maps, bios := s'.bios)
  {
    WordNext(s.b.reqCons);
    acts, s' := ServePage(s, gref, k);
    assert s'.bios == multiset{s.b.free[0]};
  }

  lemma RestAfter(s: State, g: Ghost, n: nat, pool: nat, total: multiset<nat>) returns (acts: seq<Action>, s': State)
    requires Inv(s, g, n, pool, total) && OneServed(s) && s.req.at == Drain(s.b.reqCons)
    ensures Leads(s, acts, s') && OneServed(s')
    ensures s' == s.(sh := s.sh.(reqEvent := s'.sh.reqEvent), req := s.req.(at := Top))
  {
    Readings(s, g, n);
    acts, s' := Rest(s);
  }

  /** Its answer: written, published and read by the frontend thread, which goes back to its waiting flag. */
  lemma EndOnly(s: State, g: Ghost, n: nat, pool: nat, total: multiset<nat>)
    returns (acts: seq<Action>, s': State, g': Ghost)
    requires Inv(s, g, n, pool, total) && OneServed(s) && s.rsp == START
    ensures Leads(s, acts, s') && Inv(s', g', n, pool, total) && Still(s')
    ensures s'.req == s.req && s'.rsp == START && s'.b.free == s.b.free && s'.blockSize == s.blockSize
  {
    var p :| s.bios == multiset{p};
    var s1;
    acts, s1 := Finish(s, g, n, pool, total, p);
    assert Signal(Push(START)) == START;
    RingSizeBounds(n);
    Then(s, acts, s1, WakeUp(Responses));
    acts := acts + [WakeUp(Responses)];
    var s2 := s1.(rsp := START.(at := Load));
    var g2 := InvAfter(s, g, n, pool, total, acts, s2);
    var more;
    more, s' := FrontDrain(s2, g2, n, pool, total);
    g' := InvAfter(s2, g2, n, pool, total, more, s');
    Join(s, acts, s2, more, s');
    acts := acts + more;
  }

  // ---- the backend thread, lost by the race

  lemma InitStill(n: nat, pool: nat, refs: multiset<nat>, blockSize: nat) returns (g: Ghost)
    requires Setup(n, pool, blockSize)
    ensures n > 0
    ensures var s := Init(n, pool, refs, blockSize);
            Inv(s, g, n, pool, refs) && Still(s) && s.req == START && s.rsp == START && s.blockSize == blockSize
            && |s.b.free| == pool
  {
    g := InitInv(n, pool, refs, blockSize);
  }

  /** The channel of a thread that has cleared its flag after a whole handler run between its two stores. */
  const RACED := Channel(Running, false, false, Quiet, false, Top, true, false)

  /** A page is queued between the two stores, and the handler runs there. */
  lemma RaceOnRequest(s: State, g: Ghost, n: nat, pool: nat, total: multiset<nat>, gref: nat, k: nat)
    returns (acts: seq<Action>, s': State)
    requires Inv(s, g, n, pool, total) && Still(s) && s.rsp == START && Supplied(s, total, gref, k)
    requires s.req == START.(status := Sleeping, at := Half) && s.b.free != []
    ensures Leads(s, acts, s') && OneQueued(s', gref) && s' == s.(sh := s'.sh, f := s'.f, req := s'.req)
    ensures s'.req == RACED.(at := Drain(s'.sh.reqProd)) && !ConsOverflow(Size(s'), s'.b.reqCons, s'.b.rspPvt)
  {
    var s1, g1, s2, more;
    acts, s1, g1 := QueueFromRest(s, g, n, pool, total, 0, gref, k);
    more, s2 := HandleAll(s1, Requests);
    Join(s, acts, s1, more, s2);
    acts := acts + more;
    more := TakeUp(s2);
    s' := s2.(req := ClearWaiting(s2.req).(at := Drain(s2.sh.reqProd)));
    Join(s, acts, s2, more, s');
    acts := acts + more;
  }

  /** The thread serves the page and goes to sleep under RUNNING. */
  lemma ServeAndPark(s: State, g: Ghost, n: nat, pool: nat, total: multiset<nat>, gref: nat, k: nat)
    returns (acts: seq<Action>, s': State)
    requires Inv(s, g, n, pool, total) && OneQueued(s, gref) && BlockSize(s.blockSize, k) && s.b.free != []
    requires s.req.at == Drain(s.sh.reqProd) && !s.req.waiting && !ConsOverflow(Size(s), s.b.reqCons, s.b.rspPvt)
    ensures Leads(s, acts, s') && OneServed(s') && s'.req == s.req.(at := Asleep) && s'.rsp == s.rsp
    ensures s'.blockSize == s.blockSize
  {
    var s1, s2, more;
    acts, s1 := ServeOnly(s, gref, k);
    var g1 := InvAfter(s, g, n, pool, total, acts, s1);
    more, s2 := RestAfter(s1, g1, n, pool, total);
    Join(s, acts, s1, more, s2);
    acts := acts + more;
    Then(s, acts, s2, WakeUp(Requests));
    acts, s' := acts + [WakeUp(Requests)], s2.(req := s.req.(at := Asleep));
  }

  lemma HalfAsleep(s: State) returns (acts: seq<Action>, s': State)
    requires !s.bug && Size(s) > 0 && s.req == START && s.b.free != [] && !UnreadRequests(s)
    ensures Leads(s, acts, s') && s' == s.(req := START.(status := Sleeping, at := Half))
  {
    acts := ToChosen(s);
    var s1 := s.(req := START.(at := Chosen));
    Then(s, acts, s1, SayAsleep(Requests));
    acts, s' := acts + [SayAsleep(Requests)], s.(req := START.(status := Sleeping, at := Half));
  }

  /** From rest to the thread asleep under RUNNING, everything ended. */
  lemma ParkedByRace(s: State, g: Ghost, n: nat, pool: nat, total: multiset<nat>, gref: nat, k: nat)
    returns (acts: seq<Action>, s': State, g': Ghost)
    requires Inv(s, g, n, pool, total) && Still(s) && s.req == START && s.rsp == START && s.b.free != []
    requires Supplied(s, total, gref, k)
    ensures Leads(s, acts, s') && Inv(s', g', n, pool, total) && Still(s') && Supplied(s', total, gref, k)
    ensures s'.req == RACED.(at := Asleep) && s'.rsp == START
  {
    RingSizeBounds(n);
    var s1, s2, s3, more;
    acts, s1 := HalfAsleep(s);
    var g1 := InvAfter(s, g, n, pool, total, acts, s1);
    more, s2 := RaceOnRequest(s1, g1, n, pool, total, gref, k);
    var g2 := InvAfter(s1, g1, n, pool, total, more, s2);
    Join(s, acts, s1, more, s2);
    acts := acts + more;
    more, s3 := ServeAndPark(s2, g2, n, pool, total, gref, k);
    var g3 := InvAfter(s2, g2, n, pool, total, more, s3);
    Join(s, acts, s2, more, s3);
    acts := acts + more;
    more, s', g' := EndOnly(s3, g3, n, pool, total);
    Join(s, acts, s3, more, s');
    acts := acts + more;
  }

  /** For every ring, every pool, every block size up to a page and whatever the grant references, if they suffice
      for one request: there is a run of the whole system after which the backend thread sleeps over an unread
      request, and no continuation ever wakes it. */
  lemma BackendCanBeLost(n: nat, pool: nat, blockSize: nat, k: nat, refs: multiset<nat>, gref: nat) returns (r: Run)
    requires RingSize(n) && pool > 0 && BlockSize(blockSize, k) && gref in refs && |refs| >= MAX_SEGMENTS
    ensures r.Legal() && r.n == n && r.pool == pool && r.blockSize == blockSize && r.refs == refs
    ensures r.Final().req.at.Asleep? && UnreadRequests(r.Final())
    ensures forall acts :: !Wakes(r.Final(), Requests, acts)
  {
    PageIsGood(0, gref, blockSize, k);
    var g0 := InitStill(n, pool, refs, blockSize);
    var s0 := Init(n, pool, refs, blockSize);
    var acts, s1, g1 := ParkedByRace(s0, g0, n, pool, refs, gref, k);
    var more, s2, g2 := QueueFromRest(s1, g1, n, pool, refs, 1, gref, k);
    Join(s0, acts, s1, more, s2);
    r := Run(n, pool, refs, blockSize, acts + more);
    assert r.Final() == s2;
    SleeperWakesExactly(r, Requests);
  }

  // ---- the frontend thread, lost by the race

  /** From one page served: the answer comes between the frontend thread's two stores, the handler runs there, and
      the thread reads the answer and goes to sleep under RUNNING. */
  lemma RaceOnResponse(s: State, g: Ghost, n: nat, pool: nat, total: multiset<nat>)
    returns (acts: seq<Action>, s': State, g': Ghost)
    requires Inv(s, g, n, pool, total) && OneServed(s) && s.rsp == START.(status := Sleeping, at := Half)
    ensures Leads(s, acts, s') && Inv(s', g', n, pool, total) && Still(s')
    ensures s'.rsp == RACED.(at := Asleep) && s'.blockSize == s.blockSize
  {
    var p :| s.bios == multiset{p};
    var s1, s2, more;
    acts, s1 := Finish(s, g, n, pool, total, p);
    RingSizeBounds(n);
    more, s2 := HandleAll(s1, Responses);
    Join(s, acts, s1, more, s2);
    acts := acts + more;
    var g2 := InvAfter(s, g, n, pool, total, acts, s2);
    more, s', g' := ReadAndPark(s2, g2, n, pool, total);
    Join(s, acts, s2, more, s');
    acts := acts + more;
  }

  lemma LookAgain(s: State) returns (acts: seq<Action>, s': State)
    requires !s.bug && Size(s) > 0 && s.sub.SubIdle? && s.rsp == START.(at := Half) && MoreToDo(s, Responses)
    ensures Leads(s, acts, s') && s' == s.(rsp := RACED.(at := Load))
  {
    acts := [];
    Then(s, acts, s, Unwait(Responses));
    acts := acts + [Unwait(Responses)];
    var s1 := s.(rsp := RACED.(at := Last1));
    Then(s, acts, s1, ReadIndex(Responses));
    acts, s' := acts + [ReadIndex(Responses)], s.(rsp := RACED.(at := Load));
  }

  lemma ReadAndPark(s: State, g: Ghost, n: nat, pool: nat, total: multiset<nat>)
    returns (acts: seq<Action>, s': State, g': Ghost)
    requires Inv(s, g, n, pool, total) && s.sub.SubIdle? && s.rsp == START.(at := Half)
    requires s.sh.rspProd == Add(s.f.rspCons, 1) == s.f.reqPvt
    ensures Leads(s, acts, s') && Inv(s', g', n, pool, total)
    ensures s' == s.(f := s'.f, cursor := s'.cursor, sh := s.sh.(rspEvent := s'.sh.rspEvent),
                     rsp := RACED.(at := Asleep))
    ensures s'.f.reqPvt == s.f.reqPvt && s'.f.rspCons == s.sh.rspProd
  {
    Readings(s, g, n);
    WordNext(s.f.rspCons);
    var s1, s2, more;
    acts, s1 := LookAgain(s);
    var g1 := InvAfter(s, g, n, pool, total, acts, s1);
    more, s2 := FrontDrain(s1, g1, n, pool, total);
    Join(s, acts, s1, more, s2);
    acts := acts + more;
    Then(s, acts, s2, WakeUp(Responses));
    acts, s' := acts + [WakeUp(Responses)], s2.(rsp := RACED.(at := Asleep));
    g' := InvAfter(s, g, n, pool, total, acts, s');
  }

  /** From rest to one page served, with the frontend thread between its two stores. */
  lemma ServedAndHalfAsleep(s: State, g: Ghost, n: nat, pool: nat, total: multiset<nat>, gref: nat, k: nat)
    returns (acts: seq<Action>, s': State, g': Ghost)
    requires Inv(s, g, n, pool, total) && Still(s) && s.req == START && s.rsp == START && s.b.free != []
    requires Supplied(s, total, gref, k)
    ensures Leads(s, acts, s') && Inv(s', g', n, pool, total) && OneServed(s')
    ensures s'.rsp == START.(status := Sleeping, at := Half) && s'.blockSize == s.blockSize
  {
    var s1, g1, s3, more;
    acts, s1, g1 := QueueFromRest(s, g, n, pool, total, 0, gref, k);
    more := Fetch(s1);
    var s2 := s1.(req := START.(at := Drain(s1.sh.reqProd)));
    Join(s, acts, s1, more, s2);
    acts := acts + more;
    more, s3 := ServeOnly(s2, gref, k);
    Join(s, acts, s2, more, s3);
    acts := acts + more;
    WordNext(s3.b.rspPvt);
    more, s' := FrontHalfAsleep(s3);
    Join(s, acts, s3, more, s');
    acts := acts + more;
    g' := InvAfter(s, g, n, pool, total, acts, s');
  }

  /** Likewise there is a run after which the frontend thread sleeps with a request outstanding: no continuation
      wakes it, and none without new requests ends the request. */
  lemma FrontendCanBeLost(n: nat, pool: nat, blockSize: nat, k: nat, refs: multiset<nat>, gref: nat) returns (r: Run)
    requires RingSize(n) && pool > 0 && BlockSize(blockSize, k) && gref in refs && |refs| >= MAX_SEGMENTS
    ensures r.Legal() && r.n == n && r.pool == pool && r.blockSize == blockSize && r.refs == refs
    ensures r.Final().rsp.at.Asleep? && !AllEnded(r.Final())
    ensures forall acts :: !Wakes(r.Final(), Responses, acts)
    ensures forall acts :: !Finishes(r.Final(), acts)
  {
    PageIsGood(0, gref, blockSize, k);
    var g0 := InitStill(n, pool, refs, blockSize);
    var s0 := Init(n, pool, refs, blockSize);
    var acts, s1, g1 := ServedAndHalfAsleep(s0, g0, n, pool, refs, gref, k);
    var more, s2, g2 := RaceOnResponse(s1, g1, n, pool, refs);
    Join(s0, acts, s1, more, s2);
    acts := acts + more;
    var s3, g3;
    more, s3, g3 := QueueFromRest(s2, g2, n, pool, refs, 1, gref, k);
    Join(s0, acts, s2, more, s3);
    r := Run(n, pool, refs, blockSize, acts + more);
    assert r.Final() == s3;
    SubPositive(s3.f.reqPvt, s3.b.reqCons);
    WorkIsOutstanding(s3, g3, n, pool, refs);
    EverythingCanEnd(r);
    forall more
      ensures !Wakes(s3, Responses, more)
    {
      if Legal(s3, more) {
        LostForever(s3, Responses, more);
      }
    }
  }

  // ---- the backend thread, lost by an empty pool

  /** One page from queueing to its end, its pool entry not returned. */
  lemma Cycle(s: State, g: Ghost, n: nat, pool: nat, total: multiset<nat>, gref: nat, k: nat)
    returns (acts: seq<Action>, s': State, g': Ghost)
    requires Inv(s, g, n, pool, total) && Still(s) && s.req == START && s.rsp == START && s.b.free != []
    requires Supplied(s, total, gref, k)
    ensures Leads(s, acts, s') && Inv(s', g', n, pool, total) && Still(s') && Supplied(s', total, gref, k)
    ensures s'.req == START && s'.rsp == START && s'.b.free == s.b.free[1..]
  {
    var s1, g1, s3, s4, more;
    acts, s1, g1 := QueueFromRest(s, g, n, pool, total, 0, gref, k);
    more := Fetch(s1);
    var s2 := s1.(req := START.(at := Drain(s1.sh.reqProd)));
    Join(s, acts, s1, more, s2);
    acts := acts + more;
    more, s3 := ServeOnly(s2, gref, k);
    Join(s, acts, s2, more, s3);
    acts := acts + more;
    var g3 := InvAfter(s, g, n, pool, total, acts, s3);
    more, s4 := RestAfter(s3, g3, n, pool, total);
    var g4 := InvAfter(s3, g3, n, pool, total, more, s4);
    Join(s, acts, s3, more, s4);
    acts := acts + more;
    more, s', g' := EndOnly(s4, g4, n, pool, total);
    Join(s, acts, s4, more, s');
    acts := acts + more;
  }

  /** Down to one free entry. */
  lemma {:induction false} Exhaust(s: State, g: Ghost, n: nat, pool: nat, total: multiset<nat>, gref: nat, k: nat)
    returns (acts: seq<Action>, s': State, g': Ghost)
    requires Inv(s, g, n, pool, total) && Still(s) && s.req == START && s.rsp == START && s.b.free != []
    requires Supplied(s, total, gref, k)
    ensures Leads(s, acts, s') && Inv(s', g', n, pool, total) && Still(s') && Supplied(s', total, gref, k)
    ensures s'.req == START && s'.rsp == START && |s'.b.free| == 1
    decreases |s.b.free|
  {
    if |s.b.free| == 1 {
      acts, s', g' := [], s, g;
    } else {
      var s1, g1, more;
      acts, s1, g1 := Cycle(s, g, n, pool, total, gref, k);
      more, s', g' := Exhaust(s1, g1, n, pool, total, gref, k);
      Join(s, acts, s1, more, s');
      acts := acts + more;
    }
  }

  lemma NextSlotDiffers(i: u32, n: nat)
    requires RingSize(n) && n >= 2
    ensures n > 0 && Slot(i, n) != Slot(Add(i, 1), n)
  {
    WrapSmall(i);
    SlotOfWrapped(i, n);
    SlotOfWrapped(i + 1, n);
    ModDistinct(i, i + 1, n);
  }

  lemma RoomForSecond(n: nat, i: u32)
    requires 2 <= n <= 0x800_0000
    ensures !RingFull(n, Add(i, 1), i)
  {
    WordNext(i);
    WordSub(Add(i, 1), i);
    assert Wrap(n - 1) == n - 1;
  }

  /** A second page behind the first one. */
  lemma QueueSecond(s: State, g: Ghost, n: nat, pool: nat, total: multiset<nat>, gref: nat, gref': nat)
    returns (acts: seq<Action>, s': State, g': Ghost)
    requires Inv(s, g, n, pool, total) && n >= 2 && OneQueued(s, gref) && s.rsp == START
    requires gref' in s.f.refs && |s.f.refs| >= MAX_SEGMENTS
    ensures Leads(s, acts, s') && Inv(s', g', n, pool, total) && TwoQueued(s', gref)
    ensures s' == s.(sh := s'.sh, f := s'.f, req := Signal(Push(s.req)))
    ensures UnreadRequests(s') && MoreToDo(s', Requests) && !ConsOverflow(Size(s'), s'.b.reqCons, s'.b.rspPvt)
  {
    RingSizeBounds(n);
    RoomForSecond(n, s.f.rspCons);
    acts, s' := QueuePage(s, g, n, pool, total, 1, gref');
    NextSlotDiffers(s.b.reqCons, n);
    WordNext(s.b.reqCons);
    WordNext(Add(s.b.reqCons, 1));
    g' := InvAfter(s, g, n, pool, total, acts, s');
    Readings(s', g', n);
  }

  ghost predicate TwoQueued(s: State, gref: nat) {
    && s.sub.SubIdle? && s.claim.None? && s.bios == multiset{} && !s.req.signalling
    && s.sh.reqProd == Add(Add(s.b.reqCons, 1), 1)
    && Size(s) > 0 && s.maps == map[] && (forall k :: 0 <= k < |s.b.free| ==> s.b.free[k] < |s.b.pool|)
    && exists id :: s.sh.slots[Slot(s.b.reqCons, Size(s))] == Req(PageRequest(id, gref))
  }

  /** The pass breaks off, and the thread goes to sleep. */
  lemma BreakOffAndPark(s: State) returns (acts: seq<Action>, s': State)
    requires !s.bug && CanConsume(s) && s.b.free == [] && !ConsOverflow(Size(s), s.b.reqCons, s.b.rspPvt)
    requires s.req.status == Sleeping && !s.req.waiting
    ensures Leads(s, acts, s') && s' == s.(req := s.req.(at := Asleep, cut := true))
  {
    var req := Request(0, 0, 0, []);
    BrokenOffEffect(s, req);
    acts := [];
    Then(s, acts, s, Consume(req));
    acts := acts + [Consume(req)];
    var s1 := s.(req := BreakOff(s.req));
    Then(s, acts, s1, Sleepy(Requests, false));
    acts, s1 := acts + [Sleepy(Requests, false)], s.(req := s.req.(at := Top, cut := true));
    Then(s, acts, s1, WakeUp(Requests));
    acts, s' := acts + [WakeUp(Requests)], s.(req := s.req.(at := Asleep, cut := true));
  }

  /** The pass serves the first page and finds the pool empty. */
  lemma BreaksOffAndParks(s: State, g: Ghost, n: nat, pool: nat, total: multiset<nat>, gref: nat, k: nat)
    returns (acts: seq<Action>, s': State)
    requires Inv(s, g, n, pool, total) && TwoQueued(s, gref) && BlockSize(s.blockSize, k) && |s.b.free| == 1
    requires s.req.at == Drain(s.sh.reqProd) && s.req.status == Sleeping && !s.req.waiting
    requires !ConsOverflow(Size(s), s.b.reqCons, s.b.rspPvt)
    ensures Leads(s, acts, s') && s'.req == s.req.(at := Asleep, cut := true) && UnreadRequests(s')
    ensures s'.sub.SubIdle?
  {
    WordNext(s.b.reqCons);
    WordNext(Add(s.b.reqCons, 1));
    var s1, more;
    acts, s1 := ServePage(s, gref, k);
    var g1 := InvAfter(s, g, n, pool, total, acts, s1);
    ConsumeBounds(s1, g1, n);
    more, s' := BreakOffAndPark(s1);
    Join(s, acts, s1, more, s');
    acts := acts + more;
  }

  /** From one free entry: the thread decides to sleep, two pages are queued before it says so, and it takes them
      up in its last check. */
  lemma StartsUnderSleeping(s: State, g: Ghost, n: nat, pool: nat, total: multiset<nat>, gref: nat, gref': nat,
                            k: nat)
    returns (acts: seq<Action>, s': State, g': Ghost)
    requires Inv(s, g, n, pool, total) && n >= 2 && Still(s) && s.req == START && s.rsp == START && s.b.free != []
    requires BlockSize(s.blockSize, k) && multiset{gref, gref'} <= total && |total| > MAX_SEGMENTS
    ensures Leads(s, acts, s') && Inv(s', g', n, pool, total) && TwoQueued(s', gref) && s'.b.free == s.b.free
    ensures s'.req == START.(status := Sleeping, waiting := false, at := Drain(s'.sh.reqProd))
    ensures s'.blockSize == s.blockSize && !ConsOverflow(Size(s'), s'.b.reqCons, s'.b.rspPvt)
  {
    RingSizeBounds(n);
    StillFacts(s, g, n, pool, total);
    acts := ToChosen(s);
    var s1 := s.(req := START.(at := Chosen));
    var g1 := InvAfter(s, g, n, pool, total, acts, s1);
    var more, s2, g2 := QueueFirst(s1, g1, n, pool, total, gref, gref', k);
    Join(s, acts, s1, more, s2);
    acts := acts + more;
    var s3, g3;
    more, s3, g3 := QueueSecond(s2, g2, n, pool, total, gref, gref');
    Join(s, acts, s2, more, s3);
    acts := acts + more;
    Then(s, acts, s3, SayAsleep(Requests));
    acts := acts + [SayAsleep(Requests)];
    var s4 := s3.(req := START.(status := Sleeping, at := Half));
    more := TakeUp(s4);
    s' := s4.(req := ClearWaiting(s4.req).(at := Drain(s4.sh.reqProd)));
    Join(s, acts, s4, more, s');
    acts := acts + more;
    g' := InvAfter(s, g, n, pool, total, acts, s');
  }

  lemma QueueFirst(s: State, g: Ghost, n: nat, pool: nat, total: multiset<nat>, gref: nat, gref': nat, k: nat)
    returns (acts: seq<Action>, s': State, g': Ghost)
    requires Inv(s, g, n, pool, total) && Still(s) && s.req == START.(at := Chosen) && s.rsp == START
    requires BlockSize(s.blockSize, k) && multiset{gref, gref'} <= total && |total| > MAX_SEGMENTS
    ensures Leads(s, acts, s') && Inv(s', g', n, pool, total) && OneQueued(s', gref)
    ensures s' == s.(sh := s'.sh, f := s'.f) && gref' in s'.f.refs && |s'.f.refs| >= MAX_SEGMENTS
  {
    StillFacts(s, g, n, pool, total);
    acts, s' := QueuePage(s, g, n, pool, total, 0, gref);
    QueuedFromRest(s, gref, s');
    g' := InvAfter(s, g, n, pool, total, acts, s');
    assert gref' in total - multiset{gref} && |total - multiset{gref}| == |total| - 1;
  }

  /** For every ring of two entries or more, every pool, every block size up to a page and enough grant references:
      there is a run after which, without the race, the backend thread sleeps under SLEEPING over an unread request,
      its last pass broken off by an empty pool, and no continuation without new requests wakes it or ends the
      requests. */
  lemma PoolCanStarve(n: nat, pool: nat, blockSize: nat, k: nat, refs: multiset<nat>, gref: nat, gref': nat)
    returns (r: Run)
    requires RingSize(n) && n >= 2 && pool > 0 && BlockSize(blockSize, k)
    requires multiset{gref, gref'} <= refs && |refs| > MAX_SEGMENTS
    ensures r.Legal() && r.n == n && r.pool == pool && r.blockSize == blockSize && r.refs == refs
    ensures r.Final().req == START.(status := Sleeping, waiting := false, at := Asleep, cut := true)
    ensures UnreadRequests(r.Final())
    ensures forall acts :: NoSubmit(acts) ==> !Wakes(r.Final(), Requests, acts)
    ensures forall acts :: !Finishes(r.Final(), acts)
  {
    PageIsGood(0, gref, blockSize, k);
    var g0 := InitStill(n, pool, refs, blockSize);
    var s0 := Init(n, pool, refs, blockSize);
    assert gref in refs;
    var acts, s1, g1 := Exhaust(s0, g0, n, pool, refs, gref, k);
    var more, s2, g2 := StartsUnderSleeping(s1, g1, n, pool, refs, gref, gref', k);
    Join(s0, acts, s1, more, s2);
    acts := acts + more;
    var s3;
    more, s3 := BreaksOffAndParks(s2, g2, n, pool, refs, gref, k);
    Join(s0, acts, s2, more, s3);
    r := Run(n, pool, refs, blockSize, acts + more);
    assert r.Final() == s3;
    BackendWakesExactly(r);
    StarvedNeverEnds(r);
  }

  lemma StarvedNeverEnds(r: Run)
    requires r.Legal() && r.pool > 0 && UnreadRequests(r.Final()) && r.Final().sub.SubIdle?
    requires r.Final().req == START.(status := Sleeping, waiting := false, at := Asleep, cut := true)
    ensures forall acts :: !Finishes(r.Final(), acts)
  {
    var s := r.Final();
    PlacedRun(Init(r.n, r.pool, r.refs, r.blockSize), r.acts);
    SubPositive(s.f.reqPvt, s.b.reqCons);
    EverythingCanEnd(r);
  }
}
