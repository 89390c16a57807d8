/** The loops of both drivers as runs of the whole system: in every reachable state they meet no BUG, and they do
    what single steps of the system do. */
module DriverRuns {
  import opened Word32
  import opened RingMacros
  import opened Handshake
  import opened Options
  import opened Protocol
  import opened System
  import opened Bag
  import opened Dispatch
  import opened Invariant
  import opened GrantSteps
  import opened SystemSteps
  import opened AnswerSteps
  import opened Reachability
  import opened EndToEnd
  import opened Frontend
  import opened Backend

  // ---- the drain loop

  function Drains(k: nat, garbage: Response): seq<Action> {
    if k == 0 then [] else [DrainOne(garbage)] + Drains(k - 1, garbage)
  }

  /** The block requests ended by a trace, in order. */
  function EndTags(events: seq<Event>): seq<nat> {
    if events == [] then []
    else
      var last := events[|events| - 1];
      EndTags(events[..|events| - 1]) + (if last.End? then [last.tag] else [])
  }

  lemma EndTagsSnoc(events: seq<Event>, e: Event)
    ensures EndTags(events + [e]) == EndTags(events) + (if e.End? then [e.tag] else [])
  {
    assert (events + [e])[..|events|] == events;
  }

  /** In a state of the invariant a drain step ends a request. */
  lemma DrainEnds(s: State, g: Ghost, n: nat, pool: nat, total: multiset<nat>, anyRsp: Response)
    requires CanDrain(s) && Inv(s, g, n, pool, total)
    ensures DrainResponse(s.sh, s.f, s.cursor, anyRsp).Ended?
  {
    DrainSlot(s, g, n, pool, total, anyRsp);
    RetireData(s.sh.slots, s.f.shadow, s.f.shadowFree, s.f.refs, s.b, s.claim, s.bios, s.maps, g.d, total);
    DrainEffect(s, g, n, anyRsp);
  }

  ghost function DrainOf(s: State, limit: u32, garbage: Response): Drained
    requires Size(s) > 0
  {
    DrainFrom(s.sh, s.f, s.cursor, limit, garbage)
  }

  /** A run of drain steps does what the loop does, and the events it records end the loop's block requests. */
  ghost predicate DrainsAs(s: State, h: History, limit: u32, garbage: Response, d: Drained) {
    var acts := Drains(Sub(limit, s.cursor), garbage);
    && !d.bug
    && System.Legal(s, acts) && Exec(s, acts) == s.(f := d.f, cursor := limit)
    && EndTags(Record(h, s, acts).events) == EndTags(h.events) + d.tags
    && |Record(h, s, acts).events| == |h.events| + |d.tags|
  }

  lemma RecordPrepend(h: History, s: State, a: Action, acts: seq<Action>)
    requires Enabled(s, a) && System.Legal(Step(s, a), acts)
    ensures System.Legal(s, [a] + acts) && Exec(s, [a] + acts) == Exec(Step(s, a), acts)
    ensures Record(h, s, [a] + acts) == Record(Extend(h, s, a), Step(s, a), acts)
  {
    assert ([a] + acts)[1..] == acts;
  }

  /** One more drain step in front, with the event it records. */
  lemma DrainsStep(s: State, h: History, limit: u32, garbage: Response)
    requires !s.bug && CanDrain(s) && DrainLimit(s) == Some(limit) && Enabled(s, DrainOne(garbage))
    requires DrainResponse(s.sh, s.f, s.cursor, garbage).Ended?
    requires var s1 := Step(s, DrainOne(garbage));
             && Size(s1) > 0
             && DrainsAs(s1, Extend(h, s, DrainOne(garbage)), limit, garbage, DrainOf(s1, limit, garbage))
    ensures DrainsAs(s, h, limit, garbage, DrainOf(s, limit, garbage))
  {
    StepCloser(s.cursor, limit);
    var a := DrainOne(garbage);
    var s1, h1 := Step(s, a), Extend(h, s, a);
    var rest := Drains(Sub(limit, s1.cursor), garbage);
    assert Drains(Sub(limit, s.cursor), garbage) == [a] + rest;
    RecordPrepend(h, s, a, rest);
    DrainEventIs(s, h, garbage);
    DrainUnfolds(s, limit, garbage);
    TagsOnTheWay(h.events, EventOf(s, a).value, DrainOf(s1, limit, garbage).tags);
  }

  lemma DrainEventIs(s: State, h: History, garbage: Response)
    requires Enabled(s, DrainOne(garbage)) && DrainResponse(s.sh, s.f, s.cursor, garbage).Ended?
    ensures var e := EventOf(s, DrainOne(garbage));
            && e.Some? && e.value.End? && e.value.tag == DrainResponse(s.sh, s.f, s.cursor, garbage).tag
            && Extend(h, s, DrainOne(garbage)).events == h.events + [e.value]
  {
  }

  lemma DrainUnfolds(s: State, limit: u32, garbage: Response)
    requires CanDrain(s) && s.cursor != limit
    requires DrainResponse(s.sh, s.f, s.cursor, garbage).Ended?
    ensures var (s1, e) := (DoDrainOne(s, garbage), DrainResponse(s.sh, s.f, s.cursor, garbage));
            && Size(s1) > 0 && s1 == s.(f := e.f, cursor := Add(s.cursor, 1))
            && var (d, d1) := (DrainOf(s, limit, garbage), DrainOf(s1, limit, garbage));
               d.f == d1.f && d.bug == d1.bug && d.tags == [e.tag] + d1.tags
  {
    StepCloser(s.cursor, limit);
  }

  lemma TagsOnTheWay(events: seq<Event>, e: Event, tags: seq<nat>)
    requires e.End?
    ensures EndTags(events + [e]) + tags == EndTags(events) + ([e.tag] + tags)
  {
    EndTagsSnoc(events, e);
  }

  lemma InDrain(s: State, n: nat, limit: u32)
    requires RingSize(n) && Size(s) == n && DrainLimit(s) == Some(limit) && s.cursor != limit
    ensures CanDrain(s)
  {
    RingSizeBounds(n);
  }

  lemma LimitStays(s: State, limit: u32, garbage: Response)
    requires CanDrain(s) && DrainLimit(s) == Some(limit) && DrainResponse(s.sh, s.f, s.cursor, garbage).Ended?
    ensures var s1 := DoDrainOne(s, garbage);
            Size(s1) > 0 && DrainLimit(s1) == Some(limit) && s1.cursor == Add(s.cursor, 1)
  {
  }

  lemma DrainNext(s: State, g: Ghost, n: nat, pool: nat, total: multiset<nat>, limit: u32, garbage: Response)
    returns (g1: Ghost)
    requires DrainLimit(s) == Some(limit) && s.cursor != limit && Inv(s, g, n, pool, total)
    ensures CanDrain(s) && !s.bug && DrainResponse(s.sh, s.f, s.cursor, garbage).Ended?
    ensures Inv(DoDrainOne(s, garbage), g1, n, pool, total)
  {
    InDrain(s, n, limit);
    DrainEnds(s, g, n, pool, total, garbage);
    g1 := DrainInv(s, g, n, pool, total, garbage);
  }

  lemma DrainStops(s: State, h: History, limit: u32, garbage: Response)
    requires Size(s) > 0 && s.cursor == limit
    ensures DrainsAs(s, h, limit, garbage, DrainOf(s, limit, garbage))
  {
  }

  lemma {:induction false} DrainRun(s: State, g: Ghost, n: nat, pool: nat, total: multiset<nat>, h: History,
                                    limit: u32, garbage: Response)
    requires Size(s) > 0 && DrainLimit(s) == Some(limit) && Inv(s, g, n, pool, total)
    ensures DrainsAs(s, h, limit, garbage, DrainOf(s, limit, garbage))
    decreases Sub(limit, s.cursor)
  {
    if s.cursor == limit {
      DrainStops(s, h, limit, garbage);
    } else {
      StepCloser(s.cursor, limit);
      var g1 := DrainNext(s, g, n, pool, total, limit, garbage);
      LimitStays(s, limit, garbage);
      DrainRun(DoDrainOne(s, garbage), g1, n, pool, total, Extend(h, s, DrainOne(garbage)), limit, garbage);
      DrainsStep(s, h, limit, garbage);
    }
  }

  /** In every reachable state the rest of a drain loop meets no BUG, is a run of drain steps of the system, and
      ends exactly the block requests that the run records as ended. */
  lemma DrainLoopIsRun(r: Run, limit: u32, garbage: Response)
    requires r.Legal() && DrainLimit(r.Final()) == Some(limit)
    ensures Size(r.Final()) > 0
    ensures DrainsAs(r.Final(), r.Recorded(), limit, garbage, DrainOf(r.Final(), limit, garbage))
  {
    var g := ReachRun(r);
    RingSizeBounds(r.n);
    DrainRun(r.Final(), g, r.n, r.pool, r.refs, r.Recorded(), limit, garbage);
  }

  // ---- a pass over the requests

  /** A pass can begin at its snapshot: nothing is claimed, and the response lock is free. */
  predicate AtPass(s: State, limit: u32) {
    && !s.bug && Size(s) > 0 && s.claim.None? && s.req.at == Drain(limit)
    && LockFree(s) && PoolList(s.b) && s.blockSize >= 512
  }

  /** An index still to be consumed on the way from i to the snapshot. */
  predicate Ahead(j: u32, i: u32, limit: u32) {
    0 < Sub(limit, j) <= Sub(limit, i)
  }

  predicate RowsApart(row: seq<int>, row': seq<int>) {
    forall k, k' :: 0 <= k < |row| && 0 <= k' < |row'| && row[k] != INVALID_HANDLE ==> row[k] != row'[k']
  }

  /** The hypervisor's answers for the indexes ahead use no live handle, and none twice. */
  ghost predicate FreshFor(maps: map<int, nat>, outcomes: u32 -> Outcome, i: u32, limit: u32) {
    && (forall j: u32 :: Ahead(j, i, limit) ==> FreshHandles(maps, outcomes(j).row))
    && (forall j: u32, j': u32 :: Ahead(j, i, limit) && Ahead(j', i, limit) && j != j' ==>
          RowsApart(outcomes(j).row, outcomes(j').row))
  }

  lemma AheadNext(j: u32, i: u32, limit: u32)
    requires i != limit
    ensures Ahead(i, i, limit)
    ensures Ahead(j, Add(i, 1), limit) ==> Ahead(j, i, limit) && j != i
  {
    StepCloser(i, limit);
    SubPositive(limit, i);
  }

  lemma FitIsFresh(maps: map<int, nat>, o: Outcome, n: nat)
    requires FreshHandles(maps, o.row) && INVALID_HANDLE !in maps
    ensures FreshHandles(maps, Fit(o, n).row)
  {
  }

  /** After a request has been mapped, the handles of the later ones are still fresh. */
  lemma FreshNext(maps: map<int, nat>, outcomes: u32 -> Outcome, i: u32, limit: u32, p: nat, n: nat)
    requires i != limit && FreshFor(maps, outcomes, i, limit) && INVALID_HANDLE !in maps
    requires INVALID_HANDLE !in Fit(outcomes(i), n).row
    ensures FreshFor(MapRow(maps, p, Fit(outcomes(i), n).row), outcomes, Add(i, 1), limit)
  {
    var row := Fit(outcomes(i), n).row;
    AheadNext(i, i, limit);
    FitIsFresh(maps, outcomes(i), n);
    MapRowContents(maps, p, row);
    assert forall k :: 0 <= k < n ==> row[k] in row;
    forall j: u32 | Ahead(j, Add(i, 1), limit)
      ensures Ahead(j, i, limit) && FreshHandles(MapRow(maps, p, row), outcomes(j).row)
    {
      AheadNext(j, i, limit);
      assert RowsApart(outcomes(i).row, outcomes(j).row);
    }
  }

  ghost function PassOf(s: State, limit: u32, garbage: Request, outcomes: u32 -> Outcome): Pass
    requires AtPass(s, limit)
  {
    PassFrom(s.sh, s.b, s.maps, s.blockSize, limit, garbage, outcomes)
  }

  ghost predicate PassEnds(s: State, acts: seq<Action>, r: Pass) {
    && !r.bug && System.Legal(s, acts)
    && var s' := Exec(s, acts);
       && s'.sh == r.sh && s'.b == r.b && s'.maps == r.maps && s'.f == s.f && !s'.bug
       && s'.req.at == (if r.more then Decide else Check1)
  }

  function NextOutcome(s: State, garbage: Request, outcomes: u32 -> Outcome): Outcome
    requires Size(s) > 0
  {
    Fit(outcomes(s.b.reqCons), |NextRequest(s.sh, s.b, garbage).segs|)
  }

  /** The state after a request has been copied into the pool entry taken for it. */
  function AfterConsume(s: State, garbage: Request): State
    requires Size(s) > 0 && s.b.free != []
  {
    s.(b := Claimed(s.b), claim := Some(System.Claim(s.b.free[0], NextRequest(s.sh, s.b, garbage))))
  }

  lemma ConsumeStep(s: State, g: Ghost, n: nat, pool: nat, total: multiset<nat>, limit: u32, garbage: Request)
    requires AtPass(s, limit) && s.b.reqCons != limit && Inv(s, g, n, pool, total)
    ensures Enabled(s, Consume(garbage)) && !ConsOverflow(Size(s), s.b.reqCons, s.b.rspPvt)
    ensures Step(s, Consume(garbage)) == if s.b.free == [] then s.(req := BreakOff(s.req)) else AfterConsume(s, garbage)
  {
    assert CanConsume(s);
    ConsumeBounds(s, g, n);
  }

  lemma Single(s: State, a: Action)
    requires Enabled(s, a)
    ensures System.Legal(s, [a]) && Exec(s, [a]) == Step(s, a)
  {
    Prepend(s, a, []);
    assert [a] + [] == [a];
  }

  lemma ReturnLatest(sh: Shared, b: Back, p: nat, rsp: Response)
    requires |sh.slots| > 0
    ensures var b1 := WriteResponse(sh, b, p, rsp).1; |b1.owed| > 0 && ReturnEntry(b1, 0) == Answered(sh, b, p, rsp).1
  {
  }

  /** Pushing an answer, signalling, and returning its entry. */
  lemma Answering(s: State, s1: State, b: Back, p: nat, rsp: Response) returns (acts: seq<Action>)
    requires !s1.bug && Size(s) > 0 && !s1.rsp.signalling && s1.writing
    requires s1.sh == WriteResponse(s.sh, b, p, rsp).0 && s1.b == WriteResponse(s.sh, b, p, rsp).1
    ensures System.Legal(s1, acts)
    ensures var t := Exec(s1, acts);
            && (t.sh, t.b) == Answered(s.sh, b, p, rsp)
            && t == s1.(sh := t.sh, b := t.b, rsp := t.rsp, writing := false)
  {
    var s2 := Step(s1, PushResponse);
    var s3 := Step(s2, SignalFrontend);
    ReturnLatest(s.sh, b, p, rsp);
    Single(s3, Return(0));
    Prepend(s2, SignalFrontend, [Return(0)]);
    Prepend(s1, PushResponse, [SignalFrontend] + [Return(0)]);
    acts := [PushResponse] + ([SignalFrontend] + [Return(0)]);
  }

  /** Dispatching the request just consumed keeps the invariant. */
  lemma DispatchNext(s: State, g: Ghost, n: nat, pool: nat, total: multiset<nat>, limit: u32, garbage: Request,
                     outcomes: u32 -> Outcome) returns (g2: Ghost)
    requires AtPass(s, limit) && s.b.reqCons != limit && FreshFor(s.maps, outcomes, s.b.reqCons, limit)
    requires s.b.free != [] && Inv(s, g, n, pool, total)
    ensures INVALID_HANDLE !in s.maps
    ensures var (s1, o) := (AfterConsume(s, garbage), NextOutcome(s, garbage, outcomes));
            && FreshHandles(s.maps, o.row) && Enabled(s1, Dispatch(o))
            && Inv(Step(s1, Dispatch(o)), g2, n, pool, total)
  {
    var s1, o := AfterConsume(s, garbage), NextOutcome(s, garbage, outcomes);
    ConsumeStep(s, g, n, pool, total, limit, garbage);
    var g1 := StepInv(s, g, n, pool, total, Consume(garbage));
    NoInvalidKey(s, g.d);
    DispatchEnabled(s, limit, garbage, outcomes);
    g2 := StepInv(s1, g1, n, pool, total, Dispatch(o));
  }

  lemma DispatchEnabled(s: State, limit: u32, garbage: Request, outcomes: u32 -> Outcome)
    requires AtPass(s, limit) && s.b.reqCons != limit && s.b.free != []
    requires FreshFor(s.maps, outcomes, s.b.reqCons, limit) && INVALID_HANDLE !in s.maps
    ensures var (s1, o) := (AfterConsume(s, garbage), NextOutcome(s, garbage, outcomes));
            FreshHandles(s.maps, o.row) && Enabled(s1, Dispatch(o))
  {
    var s1, o := AfterConsume(s, garbage), NextOutcome(s, garbage, outcomes);
    AheadNext(s.b.reqCons, s.b.reqCons, limit);
    FitIsFresh(s.maps, outcomes(s.b.reqCons), |s1.claim.value.req.segs|);
    assert CanDispatch(s1, o);
  }

  lemma NoInvalidKey(s: State, g: Cargo)
    requires HandleInv(s.b.handles, s.maps, g.jobs, |s.b.pool|)
    ensures INVALID_HANDLE !in s.maps
  {
  }

  /** What the pass function does with the next request. */
  ghost predicate Unfolds(s: State, limit: u32, garbage: Request, outcomes: u32 -> Outcome)
    requires AtPass(s, limit) && s.b.reqCons != limit && s.b.free != []
    requires var (s1, o) := (AfterConsume(s, garbage), NextOutcome(s, garbage, outcomes));
             CanDispatch(s1, o) && !DispatchOf(s1, o).UnmapFailed?
  {
    var (s1, o) := (AfterConsume(s, garbage), NextOutcome(s, garbage, outcomes));
    var (s2, r) := (DoDispatch(s1, o), PassOf(s, limit, garbage, outcomes));
    if DispatchOf(s1, o).Submitted? then
      && AtPass(s2, limit) && s2.f == s.f && s2.b.reqCons == Add(s.b.reqCons, 1) && s2.b.owed == s.b.owed
      && INVALID_HANDLE !in o.row && s2.maps == MapRow(s.maps, s.b.free[0], o.row)
      && var rest := PassOf(s2, limit, garbage, outcomes);
         rest.sh == r.sh && rest.b == r.b && rest.maps == r.maps && rest.more == r.more && rest.bug == r.bug
    else
      var (b, rsp) := (DispatchOf(s1, o).b, Response(s1.claim.value.req.seqNo, s1.claim.value.req.dir, -1));
      && (s2.sh, s2.b) == WriteResponse(s.sh, b, s.b.free[0], rsp) && s2.writing && !s2.bug
      && s2.rsp == s.rsp && s2.f == s.f && s2.req.at == Check1
      && (r.sh, r.b) == Answered(s.sh, b, s.b.free[0], rsp) && r.maps == s2.maps && !r.bug && !r.more
  }

  lemma PassUnfolds(s: State, limit: u32, garbage: Request, outcomes: u32 -> Outcome)
    requires AtPass(s, limit) && s.b.reqCons != limit && s.b.free != []
    requires !ConsOverflow(Size(s), s.b.reqCons, s.b.rspPvt)
    requires var (s1, o) := (AfterConsume(s, garbage), NextOutcome(s, garbage, outcomes));
             FreshHandles(s.maps, o.row) && CanDispatch(s1, o) && !DispatchOf(s1, o).UnmapFailed?
    ensures Unfolds(s, limit, garbage, outcomes)
  {
  }

  /** A pass broken off at once. */
  lemma PassBreaksOff(s: State, limit: u32, garbage: Request, outcomes: u32 -> Outcome)
    requires AtPass(s, limit) && s.b.reqCons != limit && s.b.free == []
    requires !ConsOverflow(Size(s), s.b.reqCons, s.b.rspPvt)
    requires Enabled(s, Consume(garbage)) && Step(s, Consume(garbage)) == s.(req := BreakOff(s.req))
    ensures PassEnds(s, [Consume(garbage)], PassOf(s, limit, garbage, outcomes))
  {
    Single(s, Consume(garbage));
  }

  lemma PoolLasts(s: State, g: Ghost, n: nat, pool: nat, total: multiset<nat>, limit: u32)
    requires AtPass(s, limit) && s.b.reqCons != limit && Inv(s, g, n, pool, total)
    ensures n + |s.b.owed| <= pool ==> s.b.free != []
  {
    assert CanConsume(s);
    ConsumeBounds(s, g, n);
    FreeForNext(s.b, g.d, n);
  }

  /** The next request of a pass can be consumed and dispatched. */
  ghost predicate GoesOn(s: State, limit: u32, garbage: Request, outcomes: u32 -> Outcome)
    requires AtPass(s, limit) && s.b.reqCons != limit && s.b.free != []
  {
    var (s1, o) := (AfterConsume(s, garbage), NextOutcome(s, garbage, outcomes));
    && Enabled(s, Consume(garbage)) && Step(s, Consume(garbage)) == s1 && !s1.bug
    && CanDispatch(s1, o) && !DispatchOf(s1, o).UnmapFailed? && Unfolds(s, limit, garbage, outcomes)
  }

  lemma UnmapsWell(s: State, o: Outcome)
    requires Enabled(s, Dispatch(o)) && !Step(s, Dispatch(o)).bug
    ensures !DispatchOf(s, o).UnmapFailed? && Step(s, Dispatch(o)) == DoDispatch(s, o)
  {
  }

  lemma PassGoesOn(s: State, g: Ghost, n: nat, pool: nat, total: multiset<nat>, limit: u32, garbage: Request,
                   outcomes: u32 -> Outcome) returns (g2: Ghost)
    requires AtPass(s, limit) && s.b.reqCons != limit && s.b.free != []
    requires FreshFor(s.maps, outcomes, s.b.reqCons, limit) && Inv(s, g, n, pool, total)
    ensures GoesOn(s, limit, garbage, outcomes) && INVALID_HANDLE !in s.maps
    ensures Inv(DoDispatch(AfterConsume(s, garbage), NextOutcome(s, garbage, outcomes)), g2, n, pool, total)
  {
    ConsumeStep(s, g, n, pool, total, limit, garbage);
    g2 := DispatchNext(s, g, n, pool, total, limit, garbage, outcomes);
    UnmapsWell(AfterConsume(s, garbage), NextOutcome(s, garbage, outcomes));
    PassUnfolds(s, limit, garbage, outcomes);
  }

  /** A rejected request is answered, and the pass is over. */
  lemma RejectedEnds(s: State, limit: u32, garbage: Request, outcomes: u32 -> Outcome) returns (rest: seq<Action>)
    requires AtPass(s, limit) && s.b.reqCons != limit && s.b.free != []
    requires var (s1, o) := (AfterConsume(s, garbage), NextOutcome(s, garbage, outcomes));
             CanDispatch(s1, o) && DispatchOf(s1, o).Rejected? && Unfolds(s, limit, garbage, outcomes)
    ensures var s2 := DoDispatch(AfterConsume(s, garbage), NextOutcome(s, garbage, outcomes));
            PassEnds(s2, rest, PassOf(s, limit, garbage, outcomes)) && s2.f == s.f
    ensures !PassOf(s, limit, garbage, outcomes).more
  {
    var s1, o := AfterConsume(s, garbage), NextOutcome(s, garbage, outcomes);
    var req := s1.claim.value.req;
    rest := Answering(s, DoDispatch(s1, o), DispatchOf(s1, o).b, s.b.free[0], Response(req.seqNo, req.dir, -1));
  }

  /** The pass after a submitted request. */
  lemma SubmittedLeaves(s: State, limit: u32, garbage: Request, outcomes: u32 -> Outcome)
    requires AtPass(s, limit) && s.b.reqCons != limit && s.b.free != [] && INVALID_HANDLE !in s.maps
    requires FreshFor(s.maps, outcomes, s.b.reqCons, limit)
    requires var (s1, o) := (AfterConsume(s, garbage), NextOutcome(s, garbage, outcomes));
             CanDispatch(s1, o) && DispatchOf(s1, o).Submitted? && Unfolds(s, limit, garbage, outcomes)
    ensures var s2 := DoDispatch(AfterConsume(s, garbage), NextOutcome(s, garbage, outcomes));
            && AtPass(s2, limit) && FreshFor(s2.maps, outcomes, s2.b.reqCons, limit)
            && s2.f == s.f && s2.b.owed == s.b.owed && Sub(limit, s2.b.reqCons) < Sub(limit, s.b.reqCons)
            && (forall acts :: PassEnds(s2, acts, PassOf(s2, limit, garbage, outcomes)) ==>
                  PassEnds(s2, acts, PassOf(s, limit, garbage, outcomes)))
            && PassOf(s, limit, garbage, outcomes).more == PassOf(s2, limit, garbage, outcomes).more
  {
    var s1 := AfterConsume(s, garbage);
    StepCloser(s.b.reqCons, limit);
    FreshNext(s.maps, outcomes, s.b.reqCons, limit, s.b.free[0], |s1.claim.value.req.segs|);
  }

  lemma TwoMore(s: State, limit: u32, garbage: Request, outcomes: u32 -> Outcome, rest: seq<Action>)
    returns (acts: seq<Action>)
    requires AtPass(s, limit) && s.b.reqCons != limit && s.b.free != [] && GoesOn(s, limit, garbage, outcomes)
    requires var s2 := DoDispatch(AfterConsume(s, garbage), NextOutcome(s, garbage, outcomes));
             s2.f == s.f && PassEnds(s2, rest, PassOf(s, limit, garbage, outcomes))
    ensures PassEnds(s, acts, PassOf(s, limit, garbage, outcomes))
  {
    var s1, d := AfterConsume(s, garbage), Dispatch(NextOutcome(s, garbage, outcomes));
    Prepend(s1, d, rest);
    Prepend(s, Consume(garbage), [d] + rest);
    acts := [Consume(garbage)] + ([d] + rest);
  }

  /** A pass meets no BUG, and is a run of consume and dispatch steps, ended by the steps that answer a rejected
      request or by a consume step that finds the pool empty. */
  lemma {:induction false} PassRun(s: State, g: Ghost, n: nat, pool: nat, total: multiset<nat>, limit: u32,
                                   garbage: Request, outcomes: u32 -> Outcome) returns (acts: seq<Action>)
    requires AtPass(s, limit) && FreshFor(s.maps, outcomes, s.b.reqCons, limit) && Inv(s, g, n, pool, total)
    ensures PassEnds(s, acts, PassOf(s, limit, garbage, outcomes))
    ensures n + |s.b.owed| <= pool ==> !PassOf(s, limit, garbage, outcomes).more
    decreases Sub(limit, s.b.reqCons)
  {
    if s.b.reqCons == limit {
      Single(s, PassDone);
      acts := [PassDone];
    } else if s.b.free == [] {
      acts := PassStops(s, g, n, pool, total, limit, garbage, outcomes);
    } else {
      var s1, o := AfterConsume(s, garbage), NextOutcome(s, garbage, outcomes);
      var g2 := PassGoesOn(s, g, n, pool, total, limit, garbage, outcomes);
      var rest;
      if DispatchOf(s1, o).Submitted? {
        SubmittedLeaves(s, limit, garbage, outcomes);
        rest := PassRun(DoDispatch(s1, o), g2, n, pool, total, limit, garbage, outcomes);
      } else {
        rest := RejectedEnds(s, limit, garbage, outcomes);
      }
      acts := TwoMore(s, limit, garbage, outcomes, rest);
    }
  }

  lemma PassStops(s: State, g: Ghost, n: nat, pool: nat, total: multiset<nat>, limit: u32, garbage: Request,
                  outcomes: u32 -> Outcome) returns (acts: seq<Action>)
    requires AtPass(s, limit) && s.b.reqCons != limit && s.b.free == [] && Inv(s, g, n, pool, total)
    ensures PassEnds(s, acts, PassOf(s, limit, garbage, outcomes)) && pool < n + |s.b.owed|
  {
    PoolLasts(s, g, n, pool, total, limit);
    ConsumeStep(s, g, n, pool, total, limit, garbage);
    PassBreaksOff(s, limit, garbage, outcomes);
    acts := [Consume(garbage)];
  }

  /** In every reachable state with the response lock free, a pass over the requests, with handles that the
      hypervisor has not in use, meets no BUG and is a run of steps of the system, whether or not the pool lasts;
      it does if there is room for the ring and for the entries still to be returned. */
  lemma PassIsRun(r: Run, limit: u32, garbage: Request, outcomes: u32 -> Outcome) returns (acts: seq<Action>)
    requires r.Legal()
    requires r.Final().req.at == Drain(limit) && r.Final().claim.None? && LockFree(r.Final())
    requires FreshFor(r.Final().maps, outcomes, r.Final().b.reqCons, limit)
    ensures AtPass(r.Final(), limit) && PassEnds(r.Final(), acts, PassOf(r.Final(), limit, garbage, outcomes))
    ensures r.n + |r.Final().b.owed| <= r.pool ==> !PassOf(r.Final(), limit, garbage, outcomes).more
  {
    var g := ReachRun(r);
    RingSizeBounds(r.n);
    acts := PassRun(r.Final(), g, r.n, r.pool, r.refs, limit, garbage, outcomes);
  }
}
