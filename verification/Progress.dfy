/** Dead ends: when every outstanding request can still be ended without new ones, for every reachable state. */
module Progress {
  import opened Options
  import opened Word32
  import opened RingMacros
  import opened Handshake
  import opened Protocol
  import opened System
  import opened Bag
  import opened Invariant
  import opened QuietSteps
  import opened SystemSteps
  import opened AnswerSteps
  import opened Reachability
  import opened EndToEnd
  import opened Wakeups

  // ---- the work left, in the order in which it is done

  function ToServe(s: State): nat {
    Sub(s.f.reqPvt, s.b.reqCons)
  }

  function Claims(s: State): nat {
    if s.claim.Some? then 1 else 0
  }

  function ToEnd(s: State): nat {
    Sub(s.b.rspPvt, s.cursor)
  }

  /** Pushes, status reads and returns of pool entries that are due. */
  function Dues(s: State): nat {
    (if s.writing then 2 else 0) + (if s.rsp.signalling then 1 else 0) + |s.b.owed|
    + (if s.sub.SubFlush? then 2 else if s.sub.SubSignal? then 1 else 0)
  }

  /** Steps that a thread needs to reach its next live drain. */
  function Distance(c: Channel, live: bool): nat {
    match c.at
    case Drain(_) => if live then 0 else 3
    case Load => 1
    case Scan | Check1 | Check2 => 2
    case Last1 | Last2 => 3
    case Half => 4
    case Chosen => 5
    case Top =>
      if c.waiting then 3
      else (match c.handler case Quiet => 4 case Looked => 5 case Flagged => 6)
    case Asleep => if c.handler == Flagged then 7 else 8
    case Decide =>
      if c.waiting || c.status == Running then 9
      else (match c.handler case Quiet => 10 case Looked => 10 case Flagged => 11)
    case Kick => 12
  }

  function Steps(s: State): nat {
    if ToServe(s) > 0 then Distance(s.req, s.req.at.Drain? && s.req.at.limit != s.b.reqCons)
    else if s.sub.SubPoll? then 1
    else if s.sub.SubDrain? then (if s.cursor != s.sub.limit then 0 else 2)
    else Distance(s.rsp, s.rsp.at.Drain? && s.rsp.at.limit != s.cursor)
  }

  predicate Work(s: State) {
    ToServe(s) > 0 || s.claim.Some? || |s.bios| > 0 || ToEnd(s) > 0
  }

  /** `t` has less work left than `s`. */
  predicate Less(t: State, s: State) {
    || ToServe(t) < ToServe(s)
    || (ToServe(t) == ToServe(s) &&
        (|| Claims(t) < Claims(s)
         || (Claims(t) == Claims(s) &&
             (|| |t.bios| < |s.bios|
              || (|t.bios| == |s.bios| &&
                  (|| ToEnd(t) < ToEnd(s)
                   || (ToEnd(t) == ToEnd(s) &&
                       (Dues(t) < Dues(s) || (Dues(t) == Dues(s) && Steps(t) < Steps(s))))))))))
  }

  // ---- what else every reachable state satisfies

  predicate Placed(s: State) {
    && !s.req.at.Kick? && !s.rsp.at.Scan?
    && (!s.sub.SubFlush? ==> s.sh.reqProd == s.f.reqPvt)
  }

  lemma PlacedFront(s: State, a: Action)
    requires Placed(s) && Enabled(s, a) && (a.Submit? || a.DrainOne?)
    ensures Placed(Step(s, a))
  {
  }

  lemma PlacedConsume(s: State, anyReq: Request)
    requires Placed(s) && CanConsume(s)
    ensures Placed(DoConsume(s, anyReq))
  {
  }

  lemma PlacedDispatch(s: State, o: Outcome)
    requires Placed(s) && CanDispatch(s, o)
    ensures Placed(DoDispatch(s, o))
  {
  }

  lemma PlacedBio(s: State, p: nat, error: bool)
    requires Placed(s) && CanFinishBio(s, p)
    ensures Placed(DoBioDone(s, p, error))
  {
  }

  lemma PlacedBack(s: State, a: Action)
    requires Placed(s) && Enabled(s, a) && (a.Consume? || a.Dispatch? || a.BioDone? || a.Return?)
    ensures Placed(Step(s, a))
  {
    match a
    case Consume(anyReq) => PlacedConsume(s, anyReq);
    case Dispatch(o) => PlacedDispatch(s, o);
    case BioDone(p, error) => PlacedBio(s, p, error);
    case Return(_) =>
  }

  lemma ReadKeepsPlaces(s: State, side: Side)
    requires Enabled(s, ReadIndex(side))
    ensures var t := DoReadIndex(s, side);
            && t.sub == s.sub && t.f == s.f && t.sh.reqProd == s.sh.reqProd
            && (side.Requests? ==> t.rsp == s.rsp) && (side.Responses? ==> t.req == s.req)
  {
  }

  lemma CheckPlaces(p: Point, more: bool, entry: Point, quiet: Point)
    requires p.Check1? || p.Check2? || p.Last1? || p.Last2?
    ensures FinalCheck(p, more, entry, quiet) in {Load, Check2, Last2, Top, entry, quiet}
  {
  }

  lemma CheckGoes(s: State, side: Side)
    requires Enabled(s, ReadIndex(side)) && !Chan(s, side).at.Scan? && !Chan(s, side).at.Load?
    ensures Chan(DoReadIndex(s, side), side).at ==
            FinalCheck(Chan(s, side).at, MoreToDo(s, side), if side.Requests? then Scan else Load,
                       if side.Requests? then Decide else Kick)
  {
  }

  lemma ReadRequests(s: State)
    requires Enabled(s, ReadIndex(Requests))
    ensures !DoReadIndex(s, Requests).req.at.Kick?
  {
    if !s.req.at.Scan? && !s.req.at.Load? {
      CheckGoes(s, Requests);
      CheckPlaces(s.req.at, MoreToDo(s, Requests), Scan, Decide);
    }
  }

  lemma ReadResponses(s: State)
    requires Enabled(s, ReadIndex(Responses))
    ensures !DoReadIndex(s, Responses).rsp.at.Scan?
  {
    if !s.rsp.at.Scan? && !s.rsp.at.Load? {
      CheckGoes(s, Responses);
      CheckPlaces(s.rsp.at, MoreToDo(s, Responses), Load, Kick);
    }
  }

  lemma PlacedRead(s: State, side: Side)
    requires Placed(s) && Enabled(s, ReadIndex(side))
    ensures Placed(DoReadIndex(s, side))
  {
    ReadKeepsPlaces(s, side);
    if side.Requests? {
      ReadRequests(s);
    } else {
      ReadResponses(s);
    }
  }

  lemma PlacedSide(s: State, side: Side, c: Channel)
    requires Placed(s) && (side.Requests? ==> !c.at.Kick?) && (side.Responses? ==> !c.at.Scan?)
    ensures Placed(SetChan(s, side, c))
  {
  }

  lemma PlacedSleep(s: State, a: Action)
    requires Placed(s) && Enabled(s, a) && (a.Sleepy? || a.SayAsleep? || a.Unwait?)
    ensures Placed(Step(s, a))
  {
    SleepStep(s, a);
    PlacedSide(s, a.side, Chan(Step(s, a), a.side));
  }

  lemma PlacedInterrupt(s: State, side: Side)
    requires Placed(s) && Enabled(s, Interrupt(side))
    ensures Placed(Step(s, Interrupt(side)))
  {
    PlacedSide(s, side, Handle(Chan(s, side)));
  }

  lemma PlacedWakeUp(s: State, side: Side)
    requires Placed(s) && Enabled(s, WakeUp(side))
    ensures Placed(Step(s, WakeUp(side)))
  {
    PlacedSide(s, side, Wake(Chan(s, side), if side.Requests? then Scan else Load));
  }

  lemma PlacedKick(s: State)
    requires Placed(s) && Enabled(s, KickDone)
    ensures Placed(Step(s, KickDone))
  {
    PlacedSide(s, Responses, s.rsp.(at := Decide));
  }

  lemma PlacedQuiet(s: State, a: Action)
    requires Placed(s) && Enabled(s, a) && MovesNothing(a) && !a.ReadIndex?
    ensures Placed(Step(s, a))
  {
    match a
    case Sleepy(_, _) | SayAsleep(_) | Unwait(_) => PlacedSleep(s, a);
    case Interrupt(side) => PlacedInterrupt(s, side);
    case WakeUp(side) => PlacedWakeUp(s, side);
    case KickDone => PlacedKick(s);
    case _ =>
  }

  lemma PlacedStep(s: State, a: Action)
    requires Placed(s) && Enabled(s, a)
    ensures Placed(Step(s, a))
  {
    if a.ReadIndex? {
      PlacedRead(s, a.side);
    } else if MovesNothing(a) {
      PlacedQuiet(s, a);
    } else if a.Submit? || a.DrainOne? {
      PlacedFront(s, a);
    } else {
      PlacedBack(s, a);
    }
  }

  lemma {:induction false} PlacedRun(s: State, acts: seq<Action>)
    requires Placed(s) && Legal(s, acts)
    ensures Placed(Exec(s, acts))
    decreases |acts|
  {
    if acts != [] {
      PlacedStep(s, acts[0]);
      PlacedRun(Step(s, acts[0]), acts[1..]);
    }
  }

  // ---- one move

  /** The thread can still come to look at its index; `due` says that it will be interrupted if the status word
      says SLEEPING by then. */
  predicate Sound(c: Channel, due: bool) {
    match c.at
    case Top => c.waiting || c.irq || (c.status == Sleeping && (due || !c.cut))
    case Decide | Kick => c.waiting || c.irq || c.handler != Quiet || c.status == Running || due || !c.cut
    case Asleep =>
      && c.status == Sleeping && c.handler != Looked
      && (due || !c.cut || c.irq || (c.handler == Flagged && c.waiting))
    case _ => true
  }

  lemma UnracedIsSound(c: Channel, u: bool)
    requires ChannelInv(c, u) && !c.raced && !c.cut
    ensures Sound(c, false)
  {
  }

  /** Whoever will have to move is sound: the backend thread while requests are left to serve, and the frontend
      thread, which later responses will interrupt, unless the holder of the queue lock polls for them. */
  predicate Safe(s: State) {
    && (ToServe(s) > 0 ==> Sound(s.req, Due(s)))
    && (s.sub.SubIdle? && Work(s) ==> Sound(s.rsp, true))
  }

  /** No new request, no failing bio, no failing mapping. */
  predicate Plain(a: Action) {
    && !a.Submit? && (a.BioDone? ==> !a.error)
    && (a.Dispatch? ==> INVALID_HANDLE !in a.outcome.row)
  }

  ghost predicate Moves(s: State, a: Action) {
    Enabled(s, a) && Plain(a) && (!Step(s, a).bug ==> Less(Step(s, a), s) && Safe(Step(s, a)))
  }

  predicate Settled(s: State) {
    LockFree(s) && !s.sub.SubFlush? && !s.sub.SubSignal? && s.b.owed == []
  }

  lemma SettleMove(s: State, g: Ghost, n: nat) returns (a: Action)
    requires !s.bug && Frame(s, g, n) && n > 0 && Safe(s) && Work(s) && !Settled(s)
    ensures Moves(s, a)
  {
    if s.writing {
      a := PushResponse;
    } else if s.rsp.signalling {
      a := SignalFrontend;
    } else if s.sub.SubFlush? {
      a := PushRequests;
    } else if s.sub.SubSignal? {
      a := SignalBackend;
    } else {
      a := Return(0);
    }
  }

  /** A number above all those stored. */
  function Above(handles: seq<int>): (h: nat)
    ensures forall j :: 0 <= j < |handles| ==> handles[j] < h
  {
    if handles == [] then 0
    else
      var last, h := handles[|handles| - 1], Above(handles[..|handles| - 1]);
      if last < h then h else last + 1
  }

  lemma FreshOutcome(s: State, g: Cargo, k: nat) returns (o: Outcome)
    requires HandleInv(s.b.handles, s.maps, g.jobs, |s.b.pool|)
    ensures |o.row| == |o.refuse| == k && FreshHandles(s.maps, o.row) && INVALID_HANDLE !in o.row
  {
    var h := Above(s.b.handles);
    o := Outcome(seq(k, i => h + i), seq(k, i => false));
  }

  lemma DispatchLess(s: State, o: Outcome)
    requires CanDispatch(s, o) && Safe(s)
    ensures var t := DoDispatch(s, o); !t.bug ==> ToServe(t) == ToServe(s) && Claims(t) < Claims(s) && Safe(t)
  {
  }

  lemma ClaimInPool(s: State, g: Cargo)
    requires PoolInv(s.b, s.claim, s.bios, g) && s.claim.Some?
    ensures s.claim.value.p < |s.b.pool|
  {
  }

  lemma DispatchMove(s: State, g: Ghost, n: nat, pool: nat, total: multiset<nat>) returns (a: Action)
    requires Settled(s) && s.claim.Some? && Safe(s) && Inv(s, g, n, pool, total)
    ensures Moves(s, a)
  {
    var o := FreshOutcome(s, g.d, |s.claim.value.req.segs|);
    ClaimInPool(s, g.d);
    assert CanDispatch(s, o);
    DispatchLess(s, o);
    a := Dispatch(o);
    DispatchMoves(s, o);
  }

  lemma DispatchMoves(s: State, o: Outcome)
    requires !s.bug && CanDispatch(s, o) && INVALID_HANDLE !in o.row
    requires var t := DoDispatch(s, o); !t.bug ==> ToServe(t) == ToServe(s) && Claims(t) < Claims(s) && Safe(t)
    ensures Moves(s, Dispatch(o))
  {
  }

  lemma BioLess(s: State, p: nat)
    requires CanFinishBio(s, p) && Safe(s) && Work(s)
    ensures var t := DoBioDone(s, p, false);
            !t.bug ==> ToServe(t) == ToServe(s) && Claims(t) == Claims(s) && |t.bios| < |s.bios| && Safe(t)
  {
  }

  lemma BioMove(s: State, g: Ghost, n: nat, pool: nat, total: multiset<nat>) returns (a: Action)
    requires Settled(s) && |s.bios| > 0 && Safe(s) && Inv(s, g, n, pool, total)
    ensures Moves(s, a)
  {
    var p :| p in s.bios;
    BioInPool(s, g.d, p);
    BioLess(s, p);
    BioMoves(s, p);
    a := BioDone(p, false);
  }

  lemma BioMoves(s: State, p: nat)
    requires !s.bug && CanFinishBio(s, p)
    requires var t := DoBioDone(s, p, false);
             !t.bug ==> ToServe(t) == ToServe(s) && Claims(t) == Claims(s) && |t.bios| < |s.bios| && Safe(t)
    ensures Moves(s, BioDone(p, false))
  {
  }

  lemma BioInPool(s: State, g: Cargo, p: nat)
    requires PoolInv(s.b, s.claim, s.bios, g) && p in s.bios
    ensures p < |s.b.pool|
  {
  }

  // ---- driving the backend thread to the requests

  lemma ServeFacts(s: State, g: Ghost, n: nat, pool: nat, total: multiset<nat>)
    requires Settled(s) && Placed(s) && s.claim.None? && |s.bios| == 0 && ToServe(s) > 0
    requires pool > 0 && Inv(s, g, n, pool, total)
    ensures UnreadRequests(s) && MoreToDo(s, Requests) && !ConsOverflow(Size(s), s.b.reqCons, s.b.rspPvt)
    ensures s.b.free != [] && Size(s) > 0 && !s.req.signalling
  {
    ServeIndexes(s, g, n);
    NoJobs(s, g.d);
    FreeLeft(s.b, g.d.jobs);
    RingSizeBounds(n);
  }

  lemma ServeIndexes(s: State, g: Ghost, n: nat)
    requires s.sh.reqProd == s.f.reqPvt && ToServe(s) > 0
    requires RingSize(n) && Size(s) == n && Order(g, n) && Stored(s, g)
    ensures UnreadRequests(s) && MoreToDo(s, Requests) && !ConsOverflow(n, s.b.reqCons, s.b.rspPvt)
  {
    SubPositive(s.f.reqPvt, s.b.reqCons);
    Guards(s, g, n);
  }

  lemma FreeLeft(b: Back, jobs: map<nat, Job>)
    requires FreeInv(b, jobs) && |b.pool| > 0 && (forall p :: p !in jobs) && b.owed == []
    ensures b.free != []
  {
    assert jobs == map[];
  }

  predicate Live(s: State) {
    s.req.at.Drain? && s.req.at.limit != s.b.reqCons
  }

  /** Only the request channel has moved, and closer to a live drain. */
  predicate ReqCloser(s: State, t: State) {
    && t == s.(req := t.req, sh := t.sh)
    && Distance(t.req, Live(t)) < Distance(s.req, Live(s))
    && t.req.signalling == s.req.signalling
    && Sound(t.req, false)
  }

  lemma ReqCloserMoves(s: State, a: Action)
    requires Enabled(s, a) && ToServe(s) > 0 && Safe(s) && ReqCloser(s, Step(s, a))
    ensures Moves(s, a)
  {
  }

  lemma ConsumeMove(s: State, anyReq: Request)
    requires !s.bug && CanConsume(s) && !ConsOverflow(Size(s), s.b.reqCons, s.b.rspPvt) && s.b.free != []
    requires ToServe(s) > 0 && Safe(s)
    ensures Moves(s, Consume(anyReq))
  {
    SubPositive(s.f.reqPvt, s.b.reqCons);
    StepCloser(s.b.reqCons, s.f.reqPvt);
    TakesNext(s, anyReq);
    ConsumeMoves(s, DoConsume(s, anyReq));
  }

  lemma ConsumeMoves(s: State, t: State)
    requires s.req.at.Drain? && Safe(s) && t == s.(b := t.b, claim := t.claim) && 0 <= ToServe(t) < ToServe(s)
    ensures Less(t, s) && Safe(t)
  {
  }

  lemma ReqScans(s: State)
    requires !s.bug && Size(s) > 0 && UnreadRequests(s) && !ConsOverflow(Size(s), s.b.reqCons, s.b.rspPvt)
    requires s.b.free != [] && s.req.at.Scan?
    ensures Enabled(s, ReadIndex(Requests)) && ReqCloser(s, DoReadIndex(s, Requests))
  {
  }

  lemma ReqLoads(s: State)
    requires !s.bug && Size(s) > 0 && UnreadRequests(s) && s.req.at.Load?
    ensures Enabled(s, ReadIndex(Requests)) && ReqCloser(s, DoReadIndex(s, Requests))
  {
  }

  lemma ReqChecks(s: State)
    requires !s.bug && Size(s) > 0 && MoreToDo(s, Requests)
    requires Reading(s.req.at) && !s.req.at.Scan? && !s.req.at.Load?
    ensures Enabled(s, ReadIndex(Requests)) && ReqCloser(s, DoReadIndex(s, Requests))
  {
  }

  lemma ReqReads(s: State)
    requires !s.bug && Size(s) > 0 && UnreadRequests(s) && MoreToDo(s, Requests)
    requires !ConsOverflow(Size(s), s.b.reqCons, s.b.rspPvt) && s.b.free != [] && Reading(s.req.at)
    ensures Enabled(s, ReadIndex(Requests)) && ReqCloser(s, Step(s, ReadIndex(Requests)))
  {
    match s.req.at
    case Scan => ReqScans(s);
    case Load => ReqLoads(s);
    case _ => ReqChecks(s);
  }

  lemma ReqWaits(s: State) returns (a: Action)
    requires !s.bug && Size(s) > 0 && Sound(s.req, false) && ChannelInv(s.req, true) && !s.req.signalling
    requires s.req.at.Top? || s.req.at.Asleep?
    ensures Enabled(s, a) && ReqCloser(s, Step(s, a))
  {
    a := if s.req.at.Top? && s.req.waiting then WakeUp(Requests) else Interrupt(Requests);
  }

  lemma ReqDecides(s: State) returns (a: Action)
    requires !s.bug && Size(s) > 0 && Sound(s.req, false) && ChannelInv(s.req, true) && !s.req.signalling
    requires s.req.at.Decide?
    ensures Enabled(s, a) && ReqCloser(s, Step(s, a))
  {
    a := if s.req.waiting then Sleepy(Requests, false)
         else if s.req.status == Running then Sleepy(Requests, true)
         else Interrupt(Requests);
  }

  lemma ReqThread(s: State) returns (a: Action)
    requires !s.bug && Size(s) > 0 && s.claim.None? && Sound(s.req, false)
    requires ChannelInv(s.req, true) && !s.req.signalling && !Reading(s.req.at) && !s.req.at.Kick? && !Live(s)
    ensures Enabled(s, a) && ReqCloser(s, Step(s, a))
  {
    match s.req.at
    case Drain(_) => a := PassDone;
    case Top | Asleep => a := ReqWaits(s);
    case Decide => a := ReqDecides(s);
    case Chosen => a := SayAsleep(Requests);
    case Half => a := Unwait(Requests);
  }

  lemma BackendMove(s: State, g: Ghost, n: nat, pool: nat, total: multiset<nat>) returns (a: Action)
    requires Settled(s) && Placed(s) && s.claim.None? && |s.bios| == 0 && ToServe(s) > 0
    requires Safe(s) && pool > 0 && Inv(s, g, n, pool, total)
    ensures Moves(s, a)
  {
    ServeFacts(s, g, n, pool, total);
    if Live(s) {
      a := Consume(Request(0, 0, 0, []));
      ConsumeMove(s, a.anyReq);
    } else {
      if Reading(s.req.at) {
        a := ReadIndex(Requests);
        ReqReads(s);
      } else {
        a := ReqThread(s);
      }
      ReqCloserMoves(s, a);
    }
  }

  // ---- driving a drain loop to the responses

  lemma EndFacts(s: State, g: Ghost, n: nat, pool: nat, total: multiset<nat>)
    requires Settled(s) && ToEnd(s) > 0 && Inv(s, g, n, pool, total)
    ensures Size(s) > 0 && !s.rsp.signalling && s.cursor != s.f.reqPvt
    ensures s.sh.rspProd != s.cursor
    ensures DrainLimit(s).None? ==> UnreadResponses(s) && MoreToDo(s, Responses)
  {
    Guards(s, g, n);
    SubWrap(g.d.rspPvt, g.d.cursor);
    WrapInjective(g.d.reqPvt, g.d.cursor);
    WrapInjective(g.rspProd, g.d.cursor);
  }

  predicate RspLive(s: State) {
    s.rsp.at.Drain? && s.rsp.at.limit != s.cursor
  }

  lemma DrainMove(s: State, anyRsp: Response)
    requires !s.bug && CanDrain(s) && Safe(s) && ToEnd(s) > 0
    ensures Moves(s, DrainOne(anyRsp))
  {
    StepCloser(s.cursor, s.b.rspPvt);
  }

  /** A drain loop at the end of its snapshot, with responses left, goes round again. */
  lemma DrainDoneMove(s: State)
    requires !s.bug && Size(s) > 0 && DrainLimit(s) == Some(s.cursor) && s.cursor != s.f.reqPvt
    requires s.sub.SubDrain? || s.sub.SubIdle?
    requires ToServe(s) == 0 && ToEnd(s) > 0 && Safe(s)
    ensures Moves(s, DrainDone)
  {
  }

  lemma PollMove(s: State)
    requires !s.bug && Size(s) > 0 && s.sub.SubPoll? && s.sh.rspProd != s.f.rspCons
    requires ToServe(s) == 0 && ToEnd(s) > 0 && Safe(s) && s.cursor == s.f.rspCons
    ensures Moves(s, Poll(false))
  {
  }

  /** Only the response channel has moved, and closer to a live drain. */
  predicate RspCloser(s: State, t: State) {
    && t == s.(rsp := t.rsp, sh := t.sh)
    && Distance(t.rsp, RspLive(t)) < Distance(s.rsp, RspLive(s))
    && t.rsp.signalling == s.rsp.signalling
    && Sound(t.rsp, true)
  }

  lemma RspCloserMoves(s: State, a: Action)
    requires Enabled(s, a) && s.sub.SubIdle? && ToServe(s) == 0 && ToEnd(s) > 0 && Safe(s) && RspCloser(s, Step(s, a))
    ensures Moves(s, a)
  {
  }

  lemma RspReads(s: State)
    requires !s.bug && Size(s) > 0 && UnreadResponses(s) && MoreToDo(s, Responses) && s.cursor == s.f.rspCons
    requires Reading(s.rsp.at) && !s.rsp.at.Scan?
    ensures Enabled(s, ReadIndex(Responses)) && RspCloser(s, Step(s, ReadIndex(Responses)))
  {
  }

  lemma RspWaits(s: State) returns (a: Action)
    requires !s.bug && Size(s) > 0 && s.sub.SubIdle? && Sound(s.rsp, true) && !s.rsp.cut
    requires ChannelInv(s.rsp, true) && !s.rsp.signalling && (s.rsp.at.Top? || s.rsp.at.Asleep?)
    ensures Enabled(s, a) && RspCloser(s, Step(s, a))
  {
    a := if s.rsp.at.Top? && s.rsp.waiting then WakeUp(Responses) else Interrupt(Responses);
  }

  lemma RspDecides(s: State) returns (a: Action)
    requires !s.bug && Size(s) > 0 && s.sub.SubIdle? && !s.rsp.cut
    requires ChannelInv(s.rsp, true) && !s.rsp.signalling && s.rsp.at.Decide?
    ensures Enabled(s, a) && RspCloser(s, Step(s, a))
  {
    a := if s.rsp.waiting then Sleepy(Responses, false)
         else if s.rsp.status == Running then Sleepy(Responses, true)
         else Interrupt(Responses);
  }

  lemma RspThread(s: State) returns (a: Action)
    requires !s.bug && Size(s) > 0 && s.sub.SubIdle? && Sound(s.rsp, true) && !s.rsp.cut
    requires ChannelInv(s.rsp, true) && !s.rsp.signalling && !Reading(s.rsp.at) && !s.rsp.at.Drain?
    ensures Enabled(s, a) && RspCloser(s, Step(s, a))
  {
    match s.rsp.at
    case Top | Asleep => a := RspWaits(s);
    case Decide => a := RspDecides(s);
    case Chosen => a := SayAsleep(Responses);
    case Half => a := Unwait(Responses);
    case Kick => a := KickDone;
  }

  lemma FrontendMove(s: State, g: Ghost, n: nat, pool: nat, total: multiset<nat>) returns (a: Action)
    requires Settled(s) && Placed(s) && ToServe(s) == 0 && ToEnd(s) > 0 && Safe(s) && Inv(s, g, n, pool, total)
    ensures Moves(s, a)
  {
    EndFacts(s, g, n, pool, total);
    if DrainLimit(s).Some? {
      if s.cursor != DrainLimit(s).value {
        a := DrainOne(Response(0, 0, 0));
        DrainMove(s, a.anyRsp);
      } else {
        a := DrainDone;
        DrainDoneMove(s);
      }
    } else if s.sub.SubPoll? {
      a := Poll(false);
      PollMove(s);
    } else {
      if Reading(s.rsp.at) {
        a := ReadIndex(Responses);
        RspReads(s);
      } else {
        a := RspThread(s);
      }
      RspCloserMoves(s, a);
    }
  }

  // ---- the result

  predicate AllEnded(s: State) {
    forall id :: 0 <= id < |s.f.shadow| ==> s.f.shadow[id].request.None?
  }

  lemma NoWorkAllEnded(s: State, g: Ghost, n: nat, pool: nat, total: multiset<nat>)
    requires !Work(s) && Inv(s, g, n, pool, total)
    ensures AllEnded(s)
  {
    RingSizeBounds(n);
    NoWorkNoCargo(s, g, n);
    NoJobs(s, g.d);
    NothingPlaced(s.f.shadow, s.f.shadowFree, g.d);
  }

  lemma NothingPlaced(shadow: seq<Shadow>, free: nat, g: Cargo)
    requires Logged(g) && g.reqCons == g.reqPvt && g.cursor == g.rspPvt && (forall p :: p !in g.jobs)
    requires IdInv(shadow, free, g)
    ensures forall id :: 0 <= id < |shadow| ==> shadow[id].request.None?
  {
    forall id | 0 <= id < |shadow|
      ensures shadow[id].request.None?
    {
      assert AtPlace(shadow, g, id);
    }
  }

  lemma NoWorkNoCargo(s: State, g: Ghost, n: nat)
    requires !Work(s) && Frame(s, g, n) && n <= 0x800_0000
    ensures g.d.reqCons == g.d.reqPvt && g.d.cursor == g.d.rspPvt
  {
    SubWrap(g.d.reqPvt, g.d.reqCons);
    SubWrap(g.d.rspPvt, g.d.cursor);
  }

  lemma NoJobs(s: State, g: Cargo)
    requires PoolInv(s.b, s.claim, s.bios, g) && s.claim.None? && |s.bios| == 0
    ensures forall p :: p !in g.jobs
  {
  }

  lemma NextMove(s: State, g: Ghost, n: nat, pool: nat, total: multiset<nat>) returns (a: Action)
    requires Placed(s) && Safe(s) && Work(s) && pool > 0 && Inv(s, g, n, pool, total)
    ensures Moves(s, a)
  {
    if !Settled(s) {
      RingSizeBounds(n);
      a := SettleMove(s, g, n);
    } else if s.claim.Some? {
      a := DispatchMove(s, g, n, pool, total);
    } else if |s.bios| > 0 {
      a := BioMove(s, g, n, pool, total);
    } else if ToServe(s) > 0 {
      a := BackendMove(s, g, n, pool, total);
    } else {
      a := FrontendMove(s, g, n, pool, total);
    }
  }

  /** A continuation without new requests and failures that ends every outstanding request. */
  ghost predicate Finishes(s: State, acts: seq<Action>) {
    Legal(s, acts) && (forall i :: 0 <= i < |acts| ==> Plain(acts[i])) && AllEnded(Exec(s, acts))
  }

  lemma FinishesAfter(s: State, a: Action, rest: seq<Action>)
    requires Enabled(s, a) && Plain(a) && Finishes(Step(s, a), rest)
    ensures Finishes(s, [a] + rest)
  {
    Prepend(s, a, rest);
  }

  lemma {:induction false} FinishAll(s: State, g: Ghost, n: nat, pool: nat, total: multiset<nat>)
    returns (acts: seq<Action>)
    requires Placed(s) && Safe(s) && pool > 0 && Inv(s, g, n, pool, total)
    ensures Finishes(s, acts)
    decreases ToServe(s), Claims(s), |s.bios|, ToEnd(s), Dues(s), Steps(s)
  {
    if !Work(s) {
      NoWorkAllEnded(s, g, n, pool, total);
      acts := [];
    } else {
      var a := NextMove(s, g, n, pool, total);
      var g' := StepInv(s, g, n, pool, total, a);
      PlacedStep(s, a);
      var rest := FinishAll(Step(s, a), g', n, pool, total);
      FinishesAfter(s, a, rest);
      acts := [a] + rest;
    }
  }

  // ---- the converse: what is unsound stays so

  predicate UnsoundReq(s: State) {
    !Sound(s.req, Due(s)) && s.claim.None? && (s.sub.SubSignal? ==> s.req.signalling)
  }

  lemma UnsoundReqData(s: State, a: Action)
    requires UnsoundReq(s) && Enabled(s, a) && !a.Submit? && !MovesNothing(a)
    ensures UnsoundReq(Step(s, a)) && ToServe(Step(s, a)) == ToServe(s)
  {
  }

  lemma UnsoundReqRead(s: State, side: Side)
    requires UnsoundReq(s) && Enabled(s, ReadIndex(side))
    ensures UnsoundReq(DoReadIndex(s, side)) && ToServe(DoReadIndex(s, side)) == ToServe(s)
  {
    ReadKeepsPlaces(s, side);
    assert side.Responses?;
    ReadKeepsClaim(s, side);
  }

  lemma ReadKeepsClaim(s: State, side: Side)
    requires Enabled(s, ReadIndex(side))
    ensures DoReadIndex(s, side).claim == s.claim && DoReadIndex(s, side).b == s.b
  {
  }

  lemma UnsoundMoves(c: Channel, due: bool, c': Channel)
    requires !Sound(c, due)
    requires || (c.at.Top? && c' == Wake(c, Scan))
             || (c.at.Decide? && (c' == DecideSleep(c, true) || c' == DecideSleep(c, false)))
             || (CanHandle(c) && c' == Handle(c))
    ensures !Sound(c', due) && c'.signalling == c.signalling
  {
  }

  lemma UnsoundReqThread(s: State, a: Action)
    requires UnsoundReq(s) && Enabled(s, a)
    requires a == WakeUp(Requests) || (a.Sleepy? && a.side.Requests?) || a == Interrupt(Requests)
    ensures UnsoundReq(Step(s, a)) && ToServe(Step(s, a)) == ToServe(s)
  {
    UnsoundMoves(s.req, Due(s), Step(s, a).req);
  }

  lemma UnsoundReqQuiet(s: State, a: Action)
    requires UnsoundReq(s) && Enabled(s, a) && MovesNothing(a) && !a.ReadIndex?
    ensures UnsoundReq(Step(s, a)) && ToServe(Step(s, a)) == ToServe(s)
  {
    if a == WakeUp(Requests) || (a.Sleepy? && a.side.Requests?) || a == Interrupt(Requests) {
      UnsoundReqThread(s, a);
    }
  }

  lemma UnsoundReqStep(s: State, a: Action)
    requires UnsoundReq(s) && Enabled(s, a) && !a.Submit?
    ensures UnsoundReq(Step(s, a)) && ToServe(Step(s, a)) == ToServe(s)
  {
    if a.ReadIndex? {
      UnsoundReqRead(s, a.side);
    } else if MovesNothing(a) {
      UnsoundReqQuiet(s, a);
    } else {
      UnsoundReqData(s, a);
    }
  }

  /** Without new requests an unsound backend thread never takes the request at its index. */
  lemma {:induction false} UnsoundServesNothing(s: State, acts: seq<Action>)
    requires UnsoundReq(s) && Legal(s, acts) && NoSubmit(acts)
    ensures ToServe(Exec(s, acts)) == ToServe(s)
    decreases |acts|
  {
    if acts != [] {
      UnsoundReqStep(s, acts[0]);
      UnsoundServesNothing(Step(s, acts[0]), acts[1..]);
    }
  }

  lemma LeftIsOutstanding(s: State, g: Ghost, total: multiset<nat>)
    requires DataInv(s, g.d, total) && g.d.reqCons < g.d.reqPvt
    ensures !AllEnded(s)
  {
    QueuedIsOutstanding(s.f.shadow, s.f.shadowFree, g.d);
  }

  lemma QueuedIsOutstanding(shadow: seq<Shadow>, free: nat, g: Cargo)
    requires Logged(g) && g.reqCons < g.reqPvt && IdInv(shadow, free, g)
    ensures exists id :: 0 <= id < |shadow| && shadow[id].request.Some?
  {
    var id := g.reqLog[g.reqCons].seqNo;
    assert AtPlace(shadow, g, id);
  }

  predicate UnsoundRsp(s: State) {
    s.sub.SubIdle? && !Sound(s.rsp, true)
  }

  lemma UnsoundRspData(s: State, a: Action)
    requires UnsoundRsp(s) && Enabled(s, a) && !a.Submit? && !MovesNothing(a)
    ensures UnsoundRsp(Step(s, a)) && Step(s, a).f.shadow == s.f.shadow
  {
  }

  lemma UnsoundRspQuiet(s: State, a: Action)
    requires UnsoundRsp(s) && Enabled(s, a) && MovesNothing(a) && !a.ReadIndex?
    ensures UnsoundRsp(Step(s, a)) && Step(s, a).f.shadow == s.f.shadow
  {
  }

  lemma UnsoundRspStep(s: State, a: Action)
    requires UnsoundRsp(s) && Enabled(s, a) && !a.Submit?
    ensures UnsoundRsp(Step(s, a)) && Step(s, a).f.shadow == s.f.shadow
  {
    if a.ReadIndex? {
      ReadKeepsPlaces(s, a.side);
    } else if MovesNothing(a) {
      UnsoundRspQuiet(s, a);
    } else {
      UnsoundRspData(s, a);
    }
  }

  /** Without new requests and with an unsound frontend thread nobody reads a response. */
  lemma {:induction false} UnsoundKeepsShadow(s: State, acts: seq<Action>)
    requires UnsoundRsp(s) && Legal(s, acts) && NoSubmit(acts)
    ensures Exec(s, acts).f.shadow == s.f.shadow
    decreases |acts|
  {
    if acts != [] {
      UnsoundRspStep(s, acts[0]);
      UnsoundKeepsShadow(Step(s, acts[0]), acts[1..]);
    }
  }

  /** Work left is work for an outstanding request. */
  lemma WorkIsOutstanding(s: State, g: Ghost, n: nat, pool: nat, total: multiset<nat>)
    requires Work(s) && Inv(s, g, n, pool, total)
    ensures !AllEnded(s)
  {
    if g.d.reqCons < g.d.reqPvt {
      LeftIsOutstanding(s, g, total);
    } else if g.d.cursor < g.d.rspPvt {
      AnswerIsOutstanding(s.f.shadow, s.f.shadowFree, g.d);
    } else {
      NoneQueuedOrAnswered(s, g, n);
      var p := WorkHasJob(s, g.d);
      JobIsOutstanding(s.f.shadow, s.f.shadowFree, g.d, p);
    }
  }

  lemma NoneQueuedOrAnswered(s: State, g: Ghost, n: nat)
    requires Frame(s, g, n) && g.d.reqCons >= g.d.reqPvt && g.d.cursor >= g.d.rspPvt
    ensures ToServe(s) == 0 && ToEnd(s) == 0
  {
  }

  lemma WorkHasJob(s: State, g: Cargo) returns (p: nat)
    requires Work(s) && ToServe(s) == 0 && ToEnd(s) == 0 && PoolInv(s.b, s.claim, s.bios, g)
    ensures p in g.jobs
  {
    if s.claim.Some? {
      p := s.claim.value.p;
    } else {
      p :| p in s.bios;
    }
  }

  lemma JobIsOutstanding(shadow: seq<Shadow>, free: nat, g: Cargo, p: nat)
    requires Logged(g) && p in g.jobs && IdInv(shadow, free, g)
    ensures exists id :: 0 <= id < |shadow| && shadow[id].request.Some?
  {
    var id := g.jobs[p].req.seqNo;
    assert AtPlace(shadow, g, id);
  }

  lemma AnswerIsOutstanding(shadow: seq<Shadow>, free: nat, g: Cargo)
    requires Logged(g) && g.cursor < g.rspPvt && IdInv(shadow, free, g)
    ensures exists id :: 0 <= id < |shadow| && shadow[id].request.Some?
  {
    var id := g.rspLog[g.cursor].seqNo;
    assert AtPlace(shadow, g, id);
  }

  lemma UnsafeNeverEnds(s: State, h: History, g: Ghost, n: nat, pool: nat, total: multiset<nat>, acts: seq<Action>)
    requires !Safe(s) && Legal(s, acts) && NoSubmit(acts) && Inv(s, g, n, pool, total) && Faithful(h, g.d)
    ensures !AllEnded(Exec(s, acts))
  {
    if ToServe(s) > 0 && !Sound(s.req, Due(s)) {
      UnsoundIsLeft(s, g, n);
      UnsoundServesNothing(s, acts);
      var g' := RunInv(h, s, g, n, pool, total, acts);
      WorkIsOutstanding(Exec(s, acts), g', n, pool, total);
    } else {
      WorkIsOutstanding(s, g, n, pool, total);
      UnsoundKeepsShadow(s, acts);
    }
  }

  lemma UnsoundIsLeft(s: State, g: Ghost, n: nat)
    requires ToServe(s) > 0 && !Sound(s.req, Due(s)) && Frame(s, g, n)
    ensures UnsoundReq(s)
  {
  }

  // ---- the results

  /** In every reachable state: all outstanding requests can still be ended without new ones, and without failing
      bios or mappings, if and only if the state is safe. */
  lemma EverythingCanEnd(r: Run)
    requires r.Legal() && r.pool > 0
    ensures Safe(r.Final()) <==> exists acts :: Finishes(r.Final(), acts)
  {
    var s := r.Final();
    var g := ReachRun(r);
    if Safe(s) {
      PlacedRun(Init(r.n, r.pool, r.refs, r.blockSize), r.acts);
      var acts := FinishAll(s, g, r.n, r.pool, r.refs);
    } else {
      forall acts
        ensures !Finishes(s, acts)
      {
        if Finishes(s, acts) {
          PlainIsNoSubmit(acts);
          UnsafeNeverEnds(s, r.Recorded(), g, r.n, r.pool, r.refs, acts);
        }
      }
    }
  }

  lemma PlainIsNoSubmit(acts: seq<Action>)
    requires forall i :: 0 <= i < |acts| ==> Plain(acts[i])
    ensures NoSubmit(acts)
  {
  }

  /** A state is safe as long as no handler has come between a thread's two stores, and the backend thread has
      looked at its index since its last pass was broken off. */
  lemma UnracedIsSafe(r: Run)
    requires r.Legal() && !r.Final().req.raced && !r.Final().rsp.raced && !r.Final().req.cut
    ensures Safe(r.Final())
  {
    var g := ReachRun(r);
    var s := r.Final();
    NotCut(s, g, Responses);
    UnracedIsSound(s.req, UnreadRequests(s));
    UnracedIsSound(s.rsp, UnreadResponses(s));
  }

  /** A request not yet copied under a lost backend thread stays outstanding, even when new ones are queued. */
  lemma {:induction false} LostKeepsRequest(s: State, g: Ghost, n: nat, pool: nat, total: multiset<nat>,
                                            acts: seq<Action>)
    requires Lost(s, Requests) && g.d.reqCons < g.d.reqPvt && Legal(s, acts) && Inv(s, g, n, pool, total)
    ensures !AllEnded(Exec(s, acts))
    decreases |acts|
  {
    if acts == [] {
      QueuedIsOutstanding(s.f.shadow, s.f.shadowFree, g.d);
    } else {
      var g' := StepInv(s, g, n, pool, total, acts[0]);
      LostStep(s, Requests, acts[0]);
      LostConsumesNothing(s, g, g', acts[0]);
      LostKeepsRequest(Step(s, acts[0]), g', n, pool, total, acts[1..]);
    }
  }

  lemma LostConsumesNothing(s: State, g: Ghost, g': Ghost, a: Action)
    requires Lost(s, Requests) && Enabled(s, a) && Logged(g.d) && Logged(g'.d) && g.d.reqCons < g.d.reqPvt
    requires LogsGrow(g.d, g'.d, QueuedBy(s, a), CopiedBy(s, a), AnsweredBy(s, a), DrainedBy(s, a))
    ensures g'.d.reqCons < g'.d.reqPvt
  {
  }

  /** The case of a sleeping backend thread with requests left to serve: the status word says SLEEPING, no handler
      that has already looked at it is about to store RUNNING, after a pass broken off an interrupt is on its way,
      and the frontend thread is sound or not needed. */
  lemma SleepingBackendCanFinishExactly(r: Run)
    requires r.Legal() && r.pool > 0 && r.Final().req.at.Asleep? && ToServe(r.Final()) > 0
    ensures var (s, c) := (r.Final(), r.Final().req);
            (&& c.status == Sleeping && c.handler != Looked
             && (c.cut ==> Due(s) || c.irq || (c.handler == Flagged && c.waiting))
             && (s.sub.SubIdle? ==> Sound(s.rsp, true))) <==>
            exists acts :: Finishes(s, acts)
  {
    EverythingCanEnd(r);
  }
}
