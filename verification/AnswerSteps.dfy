/** Dispatching a request and completing its bios: the steps that answer requests. */
module AnswerSteps {
  import opened Word32
  import opened RingMacros
  import opened Handshake
  import opened Options
  import opened Protocol
  import opened System
  import opened Bag
  import opened Invariant
  import opened DataSteps
  import opened BagSteps
  import opened GrantSteps
  import opened QuietSteps
  import opened SystemSteps

  // ---- answering the request of a pool entry

  lemma FaultParts(slots: seq<Entry>, shadow: seq<Shadow>, free: nat, g: Cargo, p: nat)
    requires |slots| > 0 && Logged(g) && SlotInv(slots, g) && IdInv(shadow, free, g) && BagInv(shadow, g)
    requires p in g.jobs && g.jobs[p].req.seqNo in g.bag
    ensures var g1 := Fail(g, p);
            && SlotInv(slots, g1) && IdInv(shadow, free, g1) && BagInv(shadow, g1)
            && g1.jobs - {p} == g.jobs - {p}
  {
    FailIds(shadow, free, g, p);
    FailBag(shadow, free, g, p);
    assert SlotInv(slots, Fail(g, p));
  }

  /** Writing the response for entry p, whose mappings are gone; `g` is the state before a possible
      fault of the request, `g1` the state after it. */
  lemma AnswerData(slots: seq<Entry>, shadow: seq<Shadow>, free: nat, refs: multiset<nat>, b: Back,
                   claim: Option<Claim>, bios: multiset<nat>, g: Cargo, total: multiset<nat>,
                   g1: Cargo, p: nat, rsp: Response, b': Back, claim': Option<Claim>, maps': map<int, nat>)
    requires |slots| == |shadow| > 0 && Logged(g1)
    requires SlotInv(slots, g1) && IdInv(shadow, free, g1) && BagInv(shadow, g1)
    requires PoolInv(b, claim, bios, g) && refs + Granted(shadow) == total
    requires p in g.jobs && p in g1.jobs && g1.jobs - {p} == g.jobs - {p} && g1.place == g.place
    requires g1.reqPvt <= g1.cursor + |slots| && g1.rspPvt < g1.reqCons
    requires rsp.seqNo == g1.jobs[p].req.seqNo && rsp.op == g1.jobs[p].req.dir
    requires rsp.res == (if g1.jobs[p].failed then -1 else 0)
    requires claim' == if claim.Some? && claim.value.p == p then None else claim
    requires |b'.pool| == |b.pool| && b'.free == b.free && b'.owed == [p] + b.owed
    requires forall q :: 0 <= q < |b.pool| && q != p ==> b'.pool[q] == b.pool[q]
    requires HandleInv(b'.handles, maps', g.jobs - {p}, |b.pool|)
    ensures rsp.seqNo < |g1.place|
    ensures Data(slots[g1.rspPvt % |slots| := Rsp(rsp)], shadow, free, refs, b', claim', bios[p := 0], maps',
                 Reply(g1, p, rsp), total)
    ensures |Reply(g1, p, rsp).jobs| == |g.jobs| - 1
  {
    ReplyIds(shadow, free, g1, p, rsp);
    ReplyBag(shadow, free, g1, p, rsp);
    WriteResponseSlot(slots, g1, p, rsp);
    AnswerPool(b, claim, bios, g, g1, p, rsp, b', claim');
  }

  lemma AnswerPool(b: Back, claim: Option<Claim>, bios: multiset<nat>, g: Cargo, g1: Cargo, p: nat, rsp: Response,
                   b': Back, claim': Option<Claim>)
    requires PoolInv(b, claim, bios, g) && p in g.jobs && g1.jobs - {p} == g.jobs - {p} && g1.place == g.place
    requires claim' == if claim.Some? && claim.value.p == p then None else claim
    requires |b'.pool| == |b.pool| && b'.free == b.free && b'.owed == [p] + b.owed
    requires forall q :: 0 <= q < |b.pool| && q != p ==> b'.pool[q] == b.pool[q]
    requires rsp.seqNo < |g1.place|
    ensures PoolInv(b', claim', bios[p := 0], Reply(g1, p, rsp))
    ensures |Reply(g1, p, rsp).jobs| == |g.jobs| - 1
  {
    ReplyPool(b, claim, claim', p, bios, g, rsp, b');
    PoolJobsOnly(b', claim', bios[p := 0], Reply(g, p, rsp), Reply(g1, p, rsp));
  }

  lemma PoolJobsOnly(b: Back, claim: Option<Claim>, bios: multiset<nat>, g: Cargo, g1: Cargo)
    requires PoolInv(b, claim, bios, g) && g1.jobs == g.jobs
    ensures PoolInv(b, claim, bios, g1)
  {
  }

  /** The cargo after the answer, whether or not a fault was recorded first. */
  ghost predicate ReplyOf(g: Cargo, d: Cargo, p: nat, rsp: Response) {
    exists g1: Cargo :: g1 == g.(jobs := g1.jobs, bag := g1.bag) && rsp.seqNo < |g1.place| && d == Reply(g1, p, rsp)
  }

  lemma FaultedReply(g: Cargo, p: nat, rsp: Response)
    requires p in g.jobs && g.jobs[p].req.seqNo in g.bag && rsp.seqNo < |g.place|
    ensures ReplyOf(g, Reply(Fail(g, p), p, rsp), p, rsp)
  {
  }

  lemma ReplyOfLogs(g: Cargo, d: Cargo, p: nat, rsp: Response)
    requires Logged(g) && ReplyOf(g, d, p, rsp)
    ensures LogsGrow(g, d, [], [], [rsp], [])
  {
    var g1: Cargo :| g1 == g.(jobs := g1.jobs, bag := g1.bag) && rsp.seqNo < |g1.place| && d == Reply(g1, p, rsp);
    ReplyLogs(g, g1, p, rsp);
  }

  lemma AnswerFrame(s: State, g: Ghost, n: nat, s': State, g1: Cargo, p: nat, rsp: Response)
    requires Frame(s, g, n) && LockFree(s) && g.d.rspPvt < g.d.reqCons
    requires g1 == g.d.(jobs := g1.jobs, bag := g1.bag) && rsp.seqNo < |g1.place|
    requires |Reply(g1, p, rsp).jobs| == |g.d.jobs| - 1
    requires s' == s.(sh := s.sh.(slots := s'.sh.slots), b := s'.b, claim := s'.claim, bios := s'.bios,
                      maps := s'.maps, writing := true, req := s'.req)
    requires |s'.sh.slots| == n && s'.b.reqCons == s.b.reqCons && s'.b.rspPvt == Wrap(g.d.rspPvt + 1)
    requires (s'.req == s.req && s'.claim == s.claim) || (s'.req == s.req.(at := Check1) && s'.claim == None)
    ensures Frame(s', g.(d := Reply(g1, p, rsp)), n)
  {
  }

  // ---- dispatch

  predicate Submits(s: State, o: Outcome) {
    CanDispatch(s, o) && DispatchOf(s, o).Submitted?
  }

  predicate Rejects(s: State, o: Outcome) {
    CanDispatch(s, o) && DispatchOf(s, o).Rejected?
  }

  lemma DispatchOutcome(b: Back, maps: map<int, nat>, blockSize: nat, p: nat, req: Request, o: Outcome,
                        jobs: map<nat, Job>)
    requires p < |b.pool| && blockSize >= 512 && |o.row| == |o.refuse| == |req.segs|
    requires HandleInv(b.handles, maps, jobs, |b.pool|) && (p in jobs ==> !jobs[p].submitted)
    requires FreshHandles(maps, o.row)
    ensures !DispatchRequest(b, maps, blockSize, p, req, o).UnmapFailed?
    ensures match DispatchRequest(b, maps, blockSize, p, req, o)
            case Rejected(b', maps') =>
              && maps' == maps && b' == b.(pool := b'.pool) && |b'.pool| == |b.pool|
              && (forall q :: 0 <= q < |b.pool| && q != p ==> b'.pool[q] == b.pool[q])
            case Submitted(b', maps', n) =>
              && GoodShape(req) && INVALID_HANDLE !in o.row && n > 0
              && maps' == MapRow(maps, p, o.row)
              && b' == b.(pool := b.pool[p := Pending(req.seqNo, req.dir, 0, |req.segs|, n)],
                          handles := FillRow(b.handles, p, o.row))
            case UnmapFailed => true
  {
    if GoodShape(req) {
      UndoRow(b.handles, maps, jobs, |b.pool|, p, o.row);
    }
  }

  lemma ReleaseHandles(handles: seq<int>, maps: map<int, nat>, jobs: map<nat, Job>, pool: nat, p: nat)
    requires HandleInv(handles, maps, jobs, pool) && (p in jobs ==> !jobs[p].submitted)
    ensures HandleInv(handles, maps, jobs - {p}, pool)
  {
  }

  /** What the invariant says about the claimed entry. */
  lemma ClaimFacts(s: State, g: Ghost, n: nat, pool: nat, total: multiset<nat>)
    requires Inv(s, g, n, pool, total) && s.claim.Some?
    ensures var Claim(p, req) := s.claim.value;
            && p in g.d.jobs && g.d.jobs[p] == Job(req, false, false) && p < pool
            && req.seqNo in g.d.bag
            && s.req.at.Drain?
            && g.d.rspPvt < g.d.reqCons
  {
    JobInBag(s.f.shadow, s.f.shadowFree, g.d, s.claim.value.p);
    assert |g.d.jobs| > 0;
  }

  lemma BeginData(slots: seq<Entry>, shadow: seq<Shadow>, free: nat, refs: multiset<nat>, b: Back,
                  p: nat, req: Request, bios: multiset<nat>, maps: map<int, nat>, g: Cargo, total: multiset<nat>,
                  row: seq<int>, n: nat)
    requires Data(slots, shadow, free, refs, b, Some(Claim(p, req)), bios, maps, g, total)
    requires p in g.jobs && g.jobs[p] == Job(req, false, false) && p < |b.pool|
    requires n > 0 && |row| == |req.segs| <= MAX_SEGMENTS && FreshHandles(maps, row) && INVALID_HANDLE !in row
    ensures Data(slots, shadow, free, refs,
                 b.(pool := b.pool[p := Pending(req.seqNo, req.dir, 0, |req.segs|, n)],
                    handles := FillRow(b.handles, p, row)),
                 None, bios[p := bios[p] + n], MapRow(maps, p, row), Begin(g, p), total)
    ensures |Begin(g, p).jobs| == |g.jobs|
  {
    BeginIds(shadow, free, g, p);
    BeginBag(shadow, g, p);
    BeginPool(b, p, req, bios, g, FillRow(b.handles, p, row), n);
    BeginHandles(b.handles, maps, g.jobs, |b.pool|, p, row);
    assert SlotInv(slots, Begin(g, p));
  }

  lemma BeginFrame(s: State, g: Ghost, n: nat, s': State, p: nat)
    requires Frame(s, g, n) && p in g.d.jobs && |Begin(g.d, p).jobs| == |g.d.jobs|
    requires s' == s.(b := s'.b, maps := s'.maps, claim := None, bios := s'.bios)
    requires s'.b.reqCons == s.b.reqCons && s'.b.rspPvt == s.b.rspPvt
    ensures Frame(s', g.(d := Begin(g.d, p)), n)
  {
  }

  lemma SubmittedEffect(s: State, o: Outcome)
    requires Submits(s, o)
    ensures var d := DispatchOf(s, o);
            DoDispatch(s, o) ==
              s.(b := d.b, maps := d.maps, claim := None,
                 bios := s.bios[s.claim.value.p := s.bios[s.claim.value.p] + d.bios])
    ensures DispatchEvent(s, o) == None
  {
  }

  /** A submitted request's step in full. */
  lemma SubmittedExplicit(s: State, g: Ghost, n: nat, pool: nat, total: multiset<nat>, o: Outcome) returns (k: nat)
    requires Submits(s, o) && Inv(s, g, n, pool, total)
    ensures var Claim(p, req) := s.claim.value;
            && p in g.d.jobs && g.d.jobs[p] == Job(req, false, false) && p < |s.b.pool|
            && k > 0 && |req.segs| <= MAX_SEGMENTS && INVALID_HANDLE !in o.row
            && DoDispatch(s, o) ==
                 s.(b := s.b.(pool := s.b.pool[p := Pending(req.seqNo, req.dir, 0, |req.segs|, k)],
                              handles := FillRow(s.b.handles, p, o.row)),
                    maps := MapRow(s.maps, p, o.row), claim := None, bios := s.bios[p := s.bios[p] + k])
  {
    var Claim(p, req) := s.claim.value;
    ClaimFacts(s, g, n, pool, total);
    DispatchOutcome(s.b, s.maps, s.blockSize, p, req, o, g.d.jobs);
    SubmittedEffect(s, o);
    k := DispatchOf(s, o).bios;
  }

  lemma SubmittedData(s: State, g: Ghost, n: nat, pool: nat, total: multiset<nat>, o: Outcome)
    requires Submits(s, o) && Inv(s, g, n, pool, total)
    ensures var p := s.claim.value.p;
            && p in g.d.jobs && |Begin(g.d, p).jobs| == |g.d.jobs|
            && DataInv(DoDispatch(s, o), Begin(g.d, p), total)
  {
    var Claim(p, req) := s.claim.value;
    var k := SubmittedExplicit(s, g, n, pool, total, o);
    BeginData(s.sh.slots, s.f.shadow, s.f.shadowFree, s.f.refs, s.b, p, req, s.bios, s.maps, g.d, total, o.row, k);
  }

  lemma SubmittedRest(s: State, g: Ghost, n: nat, pool: nat, o: Outcome)
    requires Submits(s, o) && Frame(s, g, n) && Channels(s)
    requires |s.b.pool| == pool && s.claim.value.p in g.d.jobs && |Begin(g.d, s.claim.value.p).jobs| == |g.d.jobs|
    ensures var s' := DoDispatch(s, o);
            && Frame(s', g.(d := Begin(g.d, s.claim.value.p)), n)
            && Channels(s') && |s'.b.pool| == pool && s'.blockSize == s.blockSize && s'.bug == s.bug
  {
    SubmittedEffect(s, o);
    BeginFrame(s, g, n, DoDispatch(s, o), s.claim.value.p);
  }

  lemma SubmittedInv(s: State, g: Ghost, n: nat, pool: nat, total: multiset<nat>, o: Outcome) returns (g': Ghost)
    requires Submits(s, o) && Inv(s, g, n, pool, total)
    ensures Inv(DoDispatch(s, o), g', n, pool, total) && g'.d.bag == g.d.bag
    ensures g'.d == g.d.(jobs := g'.d.jobs)
  {
    SubmittedData(s, g, n, pool, total, o);
    SubmittedRest(s, g, n, pool, o);
    g' := g.(d := Begin(g.d, s.claim.value.p));
  }

  lemma RejectedEffect(s: State, g: Ghost, n: nat, o: Outcome)
    requires Rejects(s, o) && Size(s) == n && RingSize(n) && Stored(s, g)
    requires DispatchOf(s, o).maps == s.maps && DispatchOf(s, o).b == s.b.(pool := DispatchOf(s, o).b.pool)
    ensures n > 0
    ensures var Claim(p, req) := s.claim.value;
            DoDispatch(s, o) ==
              s.(claim := None, writing := true, req := s.req.(at := Check1),
                 sh := s.sh.(slots := s.sh.slots[g.d.rspPvt % n := Rsp(Response(req.seqNo, req.dir, -1))]),
                 b := DispatchOf(s, o).b.(rspPvt := Wrap(g.d.rspPvt + 1), owed := [p] + s.b.owed))
    ensures DispatchEvent(s, o) == Some(Fault(s.claim.value.req.seqNo))
  {
    SlotOfWrapped(g.d.rspPvt, n);
    AddWrap(g.d.rspPvt, 1);
  }

  lemma RejectedData(s: State, g: Ghost, n: nat, pool: nat, total: multiset<nat>, o: Outcome)
    requires Rejects(s, o) && Inv(s, g, n, pool, total)
    ensures var Claim(p, req) := s.claim.value;
            && p in g.d.jobs && g.d.jobs[p].req.seqNo in g.d.bag && req.seqNo < |g.d.place|
            && var g1 := Fail(g.d, p);
            && var g2 := Reply(g1, p, Response(req.seqNo, req.dir, -1));
            && DataInv(DoDispatch(s, o), g2, total)
            && |g2.jobs| == |g.d.jobs| - 1
  {
    var Claim(p, req) := s.claim.value;
    var rsp := Response(req.seqNo, req.dir, -1);
    var s' := DoDispatch(s, o);
    ClaimFacts(s, g, n, pool, total);
    DispatchOutcome(s.b, s.maps, s.blockSize, p, req, o, g.d.jobs);
    RejectedEffect(s, g, n, o);
    ReleaseHandles(s.b.handles, s.maps, g.d.jobs, pool, p);
    FaultParts(s.sh.slots, s.f.shadow, s.f.shadowFree, g.d, p);
    AnswerData(s.sh.slots, s.f.shadow, s.f.shadowFree, s.f.refs, s.b, s.claim, s.bios, g.d, total,
               Fail(g.d, p), p, rsp, s'.b, None, s.maps);
    NoBios(s.b, s.claim, s.bios, g.d, p);
  }

  lemma RejectedRest(s: State, g: Ghost, n: nat, o: Outcome, g1: Cargo)
    requires Rejects(s, o) && RingSize(n) && Frame(s, g, n) && Channels(s)
    requires DispatchOf(s, o).maps == s.maps && DispatchOf(s, o).b == s.b.(pool := DispatchOf(s, o).b.pool)
    requires |DispatchOf(s, o).b.pool| == |s.b.pool| && g.d.rspPvt < g.d.reqCons
    requires g1 == g.d.(jobs := g1.jobs, bag := g1.bag) && s.claim.value.req.seqNo < |g1.place|
    requires var Claim(p, req) := s.claim.value;
             |Reply(g1, p, Response(req.seqNo, req.dir, -1)).jobs| == |g.d.jobs| - 1
    ensures var Claim(p, req) := s.claim.value;
            var s' := DoDispatch(s, o);
            && Frame(s', g.(d := Reply(g1, p, Response(req.seqNo, req.dir, -1))), n)
            && Channels(s') && |s'.b.pool| == |s.b.pool| && s'.blockSize == s.blockSize && s'.bug == s.bug
  {
    var Claim(p, req) := s.claim.value;
    var s' := DoDispatch(s, o);
    RejectedEffect(s, g, n, o);
    AnswerFrame(s, g, n, s', g1, p, Response(req.seqNo, req.dir, -1));
    NextInv(s.req, UnreadRequests(s), s'.req, UnreadRequests(s'));
  }

  lemma RejectedBag(s: State, g: Ghost, n: nat, pool: nat, total: multiset<nat>, o: Outcome)
    requires Rejects(s, o) && Inv(s, g, n, pool, total)
    ensures var Claim(p, req) := s.claim.value;
            && p in g.d.jobs && g.d.jobs[p].req == req && req.seqNo in g.d.bag && g.d.rspPvt < g.d.reqCons
            && DispatchEvent(s, o) == Some(Fault(req.seqNo))
            && Fail(g.d, p).bag == Apply(g.d.bag, Fault(req.seqNo))
  {
    ClaimFacts(s, g, n, pool, total);
  }

  lemma RejectedShape(s: State, g: Ghost, n: nat, pool: nat, total: multiset<nat>, o: Outcome)
    requires Rejects(s, o) && Inv(s, g, n, pool, total)
    ensures DispatchOf(s, o).maps == s.maps && DispatchOf(s, o).b == s.b.(pool := DispatchOf(s, o).b.pool)
    ensures |DispatchOf(s, o).b.pool| == |s.b.pool|
  {
    ClaimFacts(s, g, n, pool, total);
    DispatchOutcome(s.b, s.maps, s.blockSize, s.claim.value.p, s.claim.value.req, o, g.d.jobs);
  }

  lemma RejectedParts(s: State, g: Ghost, n: nat, pool: nat, total: multiset<nat>, o: Outcome) returns (d: Cargo)
    requires Rejects(s, o) && Inv(s, g, n, pool, total)
    ensures var s' := DoDispatch(s, o);
            && DataInv(s', d, total) && Frame(s', g.(d := d), n) && Channels(s')
            && |s'.b.pool| == |s.b.pool| && s'.blockSize == s.blockSize && s'.bug == s.bug
    ensures s.claim.value.req.seqNo in g.d.bag && d.bag == Apply(g.d.bag, Fault(s.claim.value.req.seqNo))
    ensures ReplyOf(g.d, d, s.claim.value.p, Response(s.claim.value.req.seqNo, s.claim.value.req.dir, -1))
  {
    var Claim(p, req) := s.claim.value;
    RejectedBag(s, g, n, pool, total, o);
    RejectedShape(s, g, n, pool, total, o);
    RejectedData(s, g, n, pool, total, o);
    d := Reply(Fail(g.d, p), p, Response(req.seqNo, req.dir, -1));
    RejectedRest(s, g, n, o, Fail(g.d, p));
    FaultedReply(g.d, p, Response(req.seqNo, req.dir, -1));
  }

  lemma RejectedInv(s: State, g: Ghost, n: nat, pool: nat, total: multiset<nat>, o: Outcome) returns (g': Ghost)
    requires Rejects(s, o) && Inv(s, g, n, pool, total)
    ensures Inv(DoDispatch(s, o), g', n, pool, total)
    ensures BagMoves(g, g', DispatchEvent(s, o))
    ensures ReplyOf(g.d, g'.d, s.claim.value.p, Response(s.claim.value.req.seqNo, s.claim.value.req.dir, -1))
  {
    var d := RejectedParts(s, g, n, pool, total, o);
    g' := g.(d := d);
  }

  lemma NoBios(b: Back, claim: Option<Claim>, bios: multiset<nat>, g: Cargo, p: nat)
    requires PoolInv(b, claim, bios, g) && (p in g.jobs ==> !g.jobs[p].submitted)
    ensures bios[p := 0] == bios
  {
    assert p !in bios;
  }

  /** Dispatch keeps the invariant; its failure paths answer with -1 and undo every mapping. */
  lemma DispatchInv(s: State, g: Ghost, n: nat, pool: nat, total: multiset<nat>, o: Outcome) returns (g': Ghost)
    requires CanDispatch(s, o) && Inv(s, g, n, pool, total)
    ensures Inv(DoDispatch(s, o), g', n, pool, total)
    ensures BagMoves(g, g', DispatchEvent(s, o))
    ensures LogsGrow(g.d, g'.d, [], [], AnsweredByDispatch(s, o), [])
  {
    var Claim(p, req) := s.claim.value;
    ClaimFacts(s, g, n, pool, total);
    DispatchOutcome(s.b, s.maps, s.blockSize, p, req, o, g.d.jobs);
    if DispatchOf(s, o).Submitted? {
      g' := SubmittedInv(s, g, n, pool, total, o);
      SameLogs(g.d, g'.d);
    } else {
      g' := RejectedInv(s, g, n, pool, total, o);
      ReplyOfLogs(g.d, g'.d, p, Response(req.seqNo, req.dir, -1));
    }
  }

  // ---- a bio completes

  predicate LastBio(s: State, p: nat, error: bool) {
    CanFinishBio(s, p) && s.b.pool[p].pendcnt == 1
  }

  predicate NotLastBio(s: State, p: nat, error: bool) {
    CanFinishBio(s, p) && s.b.pool[p].pendcnt != 1
  }

  /** The pool entry of an unfinished bio is in use, and its counter is the number of its unfinished bios. */
  lemma BioFacts(s: State, g: Ghost, n: nat, pool: nat, total: multiset<nat>, p: nat)
    requires Inv(s, g, n, pool, total) && p in s.bios
    ensures p in g.d.jobs && g.d.jobs[p].submitted && p < |s.b.pool|
    ensures JobRuns(s.b.pool[p], g.d.jobs[p], s.bios[p])
    ensures g.d.jobs[p].req.seqNo in g.d.bag && g.d.rspPvt < g.d.reqCons
    ensures s.claim.Some? ==> s.claim.value.p != p
  {
    JobInBag(s.f.shadow, s.f.shadowFree, g.d, p);
    assert |g.d.jobs| > 0;
  }

  /** The cargo after a completed bio has been accounted for. */
  ghost function AfterBio(g: Cargo, p: nat, error: bool): Cargo
    requires p in g.jobs && g.jobs[p].req.seqNo in g.bag
  {
    if error then Fail(g, p) else g
  }

  lemma FailHandles(handles: seq<int>, maps: map<int, nat>, jobs: map<nat, Job>, pool: nat, p: nat)
    requires HandleInv(handles, maps, jobs, pool) && p in jobs
    ensures HandleInv(handles, maps, jobs[p := jobs[p].(failed := true)], pool)
  {
  }

  /** One bio less to wait for, and a fault recorded if it failed. */
  lemma CountedData(slots: seq<Entry>, shadow: seq<Shadow>, free: nat, refs: multiset<nat>, b: Back,
                    claim: Option<Claim>, bios: multiset<nat>, maps: map<int, nat>, g: Cargo, total: multiset<nat>,
                    p: nat, error: bool)
    requires Data(slots, shadow, free, refs, b, claim, bios, maps, g, total)
    requires p in g.jobs && g.jobs[p].submitted && g.jobs[p].req.seqNo in g.bag && p < |b.pool| && bios[p] > 1
    ensures Data(slots, shadow, free, refs, b.(pool := b.pool[p := Counted(b.pool[p], error)]),
                 claim, bios[p := bios[p] - 1], maps, AfterBio(g, p, error), total)
    ensures |AfterBio(g, p, error).jobs| == |g.jobs|
  {
    CountedPool(b, claim, p, bios, g, AfterBio(g, p, error), error);
    if error {
      FaultParts(slots, shadow, free, g, p);
      FailHandles(b.handles, maps, g.jobs, |b.pool|, p);
    }
  }

  lemma NotLastEffect(s: State, p: nat, error: bool)
    requires NotLastBio(s, p, error)
    ensures DoBioDone(s, p, error) ==
              s.(b := s.b.(pool := s.b.pool[p := Counted(s.b.pool[p], error)]), bios := s.bios[p := s.bios[p] - 1])
  {
  }

  lemma NotLastData(s: State, g: Ghost, n: nat, pool: nat, total: multiset<nat>, p: nat, error: bool)
    requires NotLastBio(s, p, error) && Inv(s, g, n, pool, total)
    ensures p in g.d.jobs && g.d.jobs[p].req.seqNo in g.d.bag
    ensures DataInv(DoBioDone(s, p, error), AfterBio(g.d, p, error), total)
    ensures |AfterBio(g.d, p, error).jobs| == |g.d.jobs|
  {
    BioFacts(s, g, n, pool, total, p);
    NotLastEffect(s, p, error);
    CountedData(s.sh.slots, s.f.shadow, s.f.shadowFree, s.f.refs, s.b, s.claim, s.bios, s.maps, g.d, total, p, error);
  }

  lemma NotLastRest(s: State, g: Ghost, n: nat, p: nat, error: bool, d: Cargo)
    requires NotLastBio(s, p, error) && Frame(s, g, n) && Channels(s)
    requires d == g.d.(jobs := d.jobs, bag := d.bag) && |d.jobs| == |g.d.jobs|
    ensures var s' := DoBioDone(s, p, error);
            && Frame(s', g.(d := d), n) && Channels(s')
            && |s'.b.pool| == |s.b.pool| && s'.blockSize == s.blockSize && s'.bug == s.bug
  {
    NotLastEffect(s, p, error);
  }

  lemma NotLastInv(s: State, g: Ghost, n: nat, pool: nat, total: multiset<nat>, p: nat, error: bool)
    returns (g': Ghost)
    requires NotLastBio(s, p, error) && Inv(s, g, n, pool, total)
    ensures Inv(DoBioDone(s, p, error), g', n, pool, total)
    ensures p in g.d.jobs && g.d.jobs[p].req.seqNo in g.d.bag && g'.d.bag == AfterBio(g.d, p, error).bag
    ensures g'.d == g.d.(jobs := g'.d.jobs, bag := g'.d.bag)
  {
    NotLastData(s, g, n, pool, total, p, error);
    var d := AfterBio(g.d, p, error);
    NotLastRest(s, g, n, p, error, d);
    g' := g.(d := d);
  }

  /** The response made at the last bio. */
  function Verdict(e: Pending, error: bool): Response {
    Response(e.id, e.op, if error then -1 else e.status)
  }

  /** The state s' after the last bio of entry p. */
  ghost predicate Closes(s: State, g: Ghost, n: nat, p: nat, error: bool, s': State)
    requires n > 0 && Size(s) == n && p < |s.b.pool| && RowFits(s, p, s.b.pool[p].pages)
  {
    var e := s.b.pool[p];
    && s' == s.(bios := s'.bios, writing := true,
                maps := s.maps - RowHandles(s.b.handles, p, e.pages),
                sh := s.sh.(slots := s.sh.slots[g.d.rspPvt % n := Rsp(Verdict(e, error))]),
                b := s'.b)
    && (s.bios[p] == 1 ==> s'.bios == s.bios[p := 0])
    && s'.b.rspPvt == Wrap(g.d.rspPvt + 1) && s'.b.reqCons == s.b.reqCons
    && s'.b.free == s.b.free && s'.b.owed == [p] + s.b.owed
    && s'.b.handles == ClearRow(s.b.handles, p, e.pages)
    && |s'.b.pool| == |s.b.pool| && (forall q :: 0 <= q < |s.b.pool| && q != p ==> s'.b.pool[q] == s.b.pool[q])
  }

  predicate RowFits(s: State, p: nat, pages: nat) {
    11 * p + pages <= |s.b.handles|
  }

  lemma LastEffect(s: State, g: Ghost, n: nat, p: nat, error: bool)
    requires LastBio(s, p, error) && RingSize(n) && Size(s) == n && Stored(s, g)
    requires RowFits(s, p, s.b.pool[p].pages) && UnmapSucceeds(s.maps, s.b.handles, p, s.b.pool[p].pages)
    ensures n > 0 && Closes(s, g, n, p, error, DoBioDone(s, p, error))
  {
    SlotOfWrapped(g.d.rspPvt, n);
    AddWrap(g.d.rspPvt, 1);
  }

  /** Entry p is in use, with one bio unfinished, and its row can be unmapped. */
  ghost predicate Finishing(s: State, g: Cargo, p: nat) {
    && p in g.jobs && g.jobs[p].submitted && g.jobs[p].req.seqNo in g.bag && g.rspPvt < g.reqCons
    && p < |s.b.pool| && JobRuns(s.b.pool[p], g.jobs[p], 1) && s.bios[p] == 1
    && (s.claim.Some? ==> s.claim.value.p != p)
    && RowFits(s, p, s.b.pool[p].pages)
    && UnmapSucceeds(s.maps, s.b.handles, p, s.b.pool[p].pages)
    && HandleInv(ClearRow(s.b.handles, p, s.b.pool[p].pages),
                 s.maps - RowHandles(s.b.handles, p, s.b.pool[p].pages), g.jobs - {p}, |s.b.pool|)
  }

  lemma LastUnmaps(s: State, g: Ghost, n: nat, pool: nat, total: multiset<nat>, p: nat)
    requires Inv(s, g, n, pool, total) && p in s.bios
    ensures p in g.d.jobs && p < |s.b.pool|
    ensures var pages := s.b.pool[p].pages;
            && UnmapSucceeds(s.maps, s.b.handles, p, pages)
            && HandleInv(ClearRow(s.b.handles, p, pages), s.maps - RowHandles(s.b.handles, p, pages),
                         g.d.jobs - {p}, pool)
  {
    BioFacts(s, g, n, pool, total, p);
    LastHandles(s.b.handles, s.maps, g.d.jobs, pool, p, s.b.pool[p].pages);
  }

  /** What the answer at the last bio says, after a possible fault has been recorded. */
  lemma VerdictFits(slots: seq<Entry>, shadow: seq<Shadow>, free: nat, g: Cargo, p: nat, e: Pending, bios: nat,
                    error: bool)
    requires |slots| > 0 && Logged(g) && SlotInv(slots, g) && IdInv(shadow, free, g) && BagInv(shadow, g)
    requires p in g.jobs && g.jobs[p].submitted && g.jobs[p].req.seqNo in g.bag && JobRuns(e, g.jobs[p], bios)
    ensures var (d, rsp) := (AfterBio(g, p, error), Verdict(e, error));
            && d == g.(jobs := d.jobs, bag := d.bag) && p in d.jobs && d.jobs - {p} == g.jobs - {p}
            && SlotInv(slots, d) && IdInv(shadow, free, d) && BagInv(shadow, d)
            && rsp.seqNo == d.jobs[p].req.seqNo && rsp.op == d.jobs[p].req.dir && d.jobs[p].req == g.jobs[p].req
            && rsp.res == (if d.jobs[p].failed then -1 else 0)
  {
    if error {
      FaultParts(slots, shadow, free, g, p);
    }
  }

  lemma LastReady(s: State, g: Ghost, n: nat, pool: nat, total: multiset<nat>, p: nat)
    requires Inv(s, g, n, pool, total) && p in s.bios && p < |s.b.pool| && s.b.pool[p].pendcnt == 1
    ensures Finishing(s, g.d, p)
  {
    BioFacts(s, g, n, pool, total, p);
    LastUnmaps(s, g, n, pool, total, p);
  }

  lemma LastCargo(s: State, g: Ghost, n: nat, total: multiset<nat>, p: nat, error: bool, s': State)
    requires n > 0 && Size(s) == n && DataInv(s, g.d, total) && g.d.reqPvt <= g.d.cursor + n
    requires Finishing(s, g.d, p) && Closes(s, g, n, p, error, s')
    ensures var (d, rsp) := (AfterBio(g.d, p, error), Verdict(s.b.pool[p], error));
            && rsp.seqNo < |d.place|
            && Data(s.sh.slots[g.d.rspPvt % n := Rsp(rsp)], s.f.shadow, s.f.shadowFree, s.f.refs, s'.b, s.claim,
                    s.bios[p := 0], s'.maps, Reply(d, p, rsp), total)
            && |Reply(d, p, rsp).jobs| == |g.d.jobs| - 1
  {
    VerdictFits(s.sh.slots, s.f.shadow, s.f.shadowFree, g.d, p, s.b.pool[p], 1, error);
    AnswerData(s.sh.slots, s.f.shadow, s.f.shadowFree, s.f.refs, s.b, s.claim, s.bios, g.d, total,
               AfterBio(g.d, p, error), p, Verdict(s.b.pool[p], error), s'.b, s.claim, s'.maps);
  }

  lemma LastRest(s: State, g: Ghost, n: nat, p: nat, error: bool, d: Cargo, s': State)
    requires RingSize(n) && n > 0 && Frame(s, g, n) && Channels(s) && LockFree(s)
    requires p < |s.b.pool| && RowFits(s, p, s.b.pool[p].pages) && Closes(s, g, n, p, error, s')
    requires g.d.rspPvt < g.d.reqCons && d == g.d.(jobs := d.jobs, bag := d.bag)
    requires var rsp := Verdict(s.b.pool[p], error);
             rsp.seqNo < |d.place| && |Reply(d, p, rsp).jobs| == |g.d.jobs| - 1
    ensures Frame(s', g.(d := Reply(d, p, Verdict(s.b.pool[p], error))), n) && Channels(s')
  {
    AnswerFrame(s, g, n, s', d, p, Verdict(s.b.pool[p], error));
  }

  lemma LastParts(s: State, g: Ghost, n: nat, total: multiset<nat>, p: nat, error: bool, s': State)
    returns (d: Cargo)
    requires RingSize(n) && n > 0 && Frame(s, g, n) && DataInv(s, g.d, total) && Channels(s) && LockFree(s)
    requires Finishing(s, g.d, p) && Closes(s, g, n, p, error, s')
    ensures DataInv(s', d, total) && Frame(s', g.(d := d), n) && Channels(s')
    ensures d.bag == AfterBio(g.d, p, error).bag && ReplyOf(g.d, d, p, Verdict(s.b.pool[p], error))
  {
    LastCargo(s, g, n, total, p, error, s');
    var after := AfterBio(g.d, p, error);
    LastRest(s, g, n, p, error, after, s');
    d := Reply(after, p, Verdict(s.b.pool[p], error));
  }

  lemma LastInv(s: State, g: Ghost, n: nat, pool: nat, total: multiset<nat>, p: nat, error: bool)
    returns (g': Ghost)
    requires LastBio(s, p, error) && Inv(s, g, n, pool, total)
    ensures Inv(DoBioDone(s, p, error), g', n, pool, total)
    ensures p in g.d.jobs && g.d.jobs[p].req.seqNo in g.d.bag && g'.d.bag == AfterBio(g.d, p, error).bag
    ensures ReplyOf(g.d, g'.d, p, Verdict(s.b.pool[p], error))
  {
    LastReady(s, g, n, pool, total, p);
    LastEffect(s, g, n, p, error);
    var d := LastParts(s, g, n, total, p, error, DoBioDone(s, p, error));
    g' := g.(d := d);
  }

  lemma BioBag(s: State, g: Ghost, n: nat, pool: nat, total: multiset<nat>, p: nat, error: bool)
    requires CanFinishBio(s, p) && Inv(s, g, n, pool, total)
    ensures p in g.d.jobs && g.d.jobs[p].req.seqNo in g.d.bag
    ensures BagMoves(g, g.(d := AfterBio(g.d, p, error)), BioEvent(s, p, error))
  {
    BioFacts(s, g, n, pool, total, p);
  }

  lemma AnswerOfBio(s: State, p: nat, error: bool)
    requires CanFinishBio(s, p)
    ensures s.b.pool[p].pendcnt != 1 ==> AnsweredByBio(s, p, error) == []
    ensures s.b.pool[p].pendcnt == 1 && UnmapSucceeds(s.maps, s.b.handles, p, s.b.pool[p].pages) ==>
              AnsweredByBio(s, p, error) == [Verdict(s.b.pool[p], error)]
  {
  }

  /** A completed bio is accounted to its own pool entry; the last one unmaps the pages and answers. */
  lemma BioDoneInv(s: State, g: Ghost, n: nat, pool: nat, total: multiset<nat>, p: nat, error: bool)
    returns (g': Ghost)
    requires CanFinishBio(s, p) && Inv(s, g, n, pool, total)
    ensures Inv(DoBioDone(s, p, error), g', n, pool, total)
    ensures BagMoves(g, g', BioEvent(s, p, error))
    ensures LogsGrow(g.d, g'.d, [], [], AnsweredByBio(s, p, error), [])
  {
    BioBag(s, g, n, pool, total, p, error);
    AnswerOfBio(s, p, error);
    if s.b.pool[p].pendcnt == 1 {
      LastUnmaps(s, g, n, pool, total, p);
      g' := LastInv(s, g, n, pool, total, p, error);
      ReplyOfLogs(g.d, g'.d, p, Verdict(s.b.pool[p], error));
    } else {
      g' := NotLastInv(s, g, n, pool, total, p, error);
      SameLogs(g.d, g'.d);
    }
  }

  // ---- an entry is returned to the free list

  lemma ReturnData(s: State, g: Cargo, total: multiset<nat>, k: nat)
    requires CanReturn(s, k) && DataInv(s, g, total)
    ensures DataInv(s.(b := ReturnEntry(s.b, k)), g, total)
  {
    ReturnPool(s.b, s.claim, s.bios, g, k);
  }

  lemma ReturnFrame(s: State, g: Ghost, n: nat, k: nat)
    requires CanReturn(s, k) && Frame(s, g, n) && Channels(s)
    ensures Frame(s.(b := ReturnEntry(s.b, k)), g, n) && Channels(s.(b := ReturnEntry(s.b, k)))
  {
  }

  /** Returning an answered entry keeps the invariant. */
  lemma ReturnInv(s: State, g: Ghost, n: nat, pool: nat, total: multiset<nat>, k: nat)
    requires CanReturn(s, k) && Inv(s, g, n, pool, total)
    ensures Inv(s.(b := ReturnEntry(s.b, k)), g, n, pool, total)
  {
    ReturnData(s, g.d, total, k);
    ReturnFrame(s, g, n, k);
  }
}
