/** What each move does to the bag, the pool, the mappings and the grant references. */
module BagSteps {
  import opened Options
  import opened Protocol
  import opened System
  import opened Bag
  import opened Invariant
  import opened DataSteps

  // ---- bag

  lemma QueueBag(shadow: seq<Shadow>, free: nat, g: Cargo, req: Request, tag: nat)
    requires Logged(g) && IdInv(shadow, free, g) && BagInv(shadow, g) && |g.chain| > 0
    requires req.seqNo == free < |shadow| && shadow[free].request.None?
    ensures BagInv(shadow[free := Shadow(req, Some(tag))], Queue(g, req, tag))
    ensures Allowed(g.bag, Accept(free, tag, req))
    ensures Queue(g, req, tag).bag == Apply(g.bag, Accept(free, tag, req))
  {
    assert g.place[g.chain[|g.chain| - 1]] == InChain(|g.chain| - 1);
  }

  lemma TakeBag(shadow: seq<Shadow>, free: nat, g: Cargo, p: nat)
    requires Logged(g) && IdInv(shadow, free, g) && BagInv(shadow, g)
    requires g.reqCons < g.reqPvt && p !in g.jobs && g.reqLog[g.reqCons].seqNo < |g.place|
    ensures BagInv(shadow, Take(g, p))
  {
  }

  lemma BeginBag(shadow: seq<Shadow>, g: Cargo, p: nat)
    requires Logged(g) && BagInv(shadow, g) && p in g.jobs
    ensures BagInv(shadow, Begin(g, p))
  {
  }

  lemma JobInBag(shadow: seq<Shadow>, free: nat, g: Cargo, p: nat)
    requires Logged(g) && IdInv(shadow, free, g) && BagInv(shadow, g) && p in g.jobs
    ensures g.jobs[p].req.seqNo in g.bag && g.bag[g.jobs[p].req.seqNo].req == g.jobs[p].req
  {
    assert AtPlace(shadow, g, g.jobs[p].req.seqNo);
  }

  lemma FailBag(shadow: seq<Shadow>, free: nat, g: Cargo, p: nat)
    requires Logged(g) && IdInv(shadow, free, g) && BagInv(shadow, g) && p in g.jobs && g.jobs[p].req.seqNo in g.bag
    ensures BagInv(shadow, Fail(g, p))
    ensures Fail(g, p).bag == Apply(g.bag, Fault(g.jobs[p].req.seqNo))
  {
    assert g.place[g.jobs[p].req.seqNo] == AtBackend(p);
  }

  lemma ReplyBag(shadow: seq<Shadow>, free: nat, g: Cargo, p: nat, rsp: Response)
    requires Logged(g) && IdInv(shadow, free, g) && BagInv(shadow, g) && p in g.jobs
    requires g.rspPvt < g.reqCons && rsp.seqNo == g.jobs[p].req.seqNo < |g.place|
    requires rsp.res == (if g.jobs[p].failed then -1 else 0)
    ensures BagInv(shadow, Reply(g, p, rsp))
  {
  }

  lemma RetireBag(shadow: seq<Shadow>, free: nat, g: Cargo)
    requires Logged(g) && IdInv(shadow, free, g) && BagInv(shadow, g) && g.cursor < g.rspPvt
    requires g.rspLog[g.cursor].seqNo < |g.place|
    ensures var rsp := g.rspLog[g.cursor];
            && rsp.seqNo in g.bag && shadow[rsp.seqNo].request == Some(g.bag[rsp.seqNo].tag)
            && var e := End(rsp.seqNo, g.bag[rsp.seqNo].tag, rsp);
            && Allowed(g.bag, e) && Retire(g).bag == Apply(g.bag, e)
            && BagInv(shadow[rsp.seqNo := Shadow(shadow[rsp.seqNo].req.(seqNo := free), None)], Retire(g))
  {
    var id := g.rspLog[g.cursor].seqNo;
    assert g.place[id] == InAnswer(g.cursor);
    assert AtPlace(shadow, g, id);
  }

  // ---- pool

  lemma TakePool(b: Back, bios: multiset<nat>, g: Cargo, rc: Word32.u32)
    requires PoolInv(b, None, bios, g) && b.free != []
    requires g.reqCons < |g.reqLog| && g.reqLog[g.reqCons].seqNo < |g.place|
    ensures b.free[0] !in g.jobs
    ensures PoolInv(b.(free := b.free[1..], reqCons := rc),
                    Some(Claim(b.free[0], g.reqLog[g.reqCons])), bios, Take(g, b.free[0]))
    ensures |Take(g, b.free[0]).jobs| == |g.jobs| + 1
  {
  }

  /** A dispatched entry has as many unfinished bios as its counter says. */
  lemma BeginPool(b: Back, p: nat, req: Request, bios: multiset<nat>, g: Cargo, handles: seq<int>, n: nat)
    requires PoolInv(b, Some(Claim(p, req)), bios, g) && n > 0 && |req.segs| <= MAX_SEGMENTS
    requires p in g.jobs && p < |b.pool|
    ensures PoolInv(b.(pool := b.pool[p := Pending(req.seqNo, req.dir, 0, |req.segs|, n)], handles := handles),
                    None, bios[p := bios[p] + n], Begin(g, p))
    ensures |Begin(g, p).jobs| == |g.jobs|
  {
    assert p !in bios;
  }

  /** The pool entry after one more completed bio. */
  function Counted(e: Pending, error: bool): Pending {
    e.(status := if error then -1 else e.status, pendcnt := e.pendcnt - 1)
  }

  /** One bio less, one count less, and the status of a failed one. */
  lemma CountedPool(b: Back, claim: Option<Claim>, p: nat, bios: multiset<nat>, g: Cargo, g1: Cargo, error: bool)
    requires PoolInv(b, claim, bios, g) && p in g.jobs && g.jobs[p].submitted && bios[p] > 1
    requires g1.jobs == if error then g.jobs[p := g.jobs[p].(failed := true)] else g.jobs
    ensures PoolInv(b.(pool := b.pool[p := Counted(b.pool[p], error)]), claim, bios[p := bios[p] - 1], g1)
    ensures |g1.jobs| == |g.jobs|
  {
    var pool' := b.pool[p := Counted(b.pool[p], error)];
    assert g1.jobs.Keys == g.jobs.Keys;
    CountedJobs(b, claim, p, bios, g.jobs, g1.jobs, b.(pool := pool'), error);
  }

  lemma CountedJobs(b: Back, claim: Option<Claim>, p: nat, bios: multiset<nat>, jobs: map<nat, Job>,
                    jobs1: map<nat, Job>, b1: Back, error: bool)
    requires FreeInv(b, jobs) && p in jobs && jobs[p].submitted && bios[p] > 1 && JobInv(b, claim, bios, jobs)
    requires jobs1 == if error then jobs[p := jobs[p].(failed := true)] else jobs
    requires b1.pool == b.pool[p := Counted(b.pool[p], error)]
    ensures JobInv(b1, claim, bios[p := bios[p] - 1], jobs1)
  {
  }

  lemma DropSize(jobs: map<nat, Job>, p: nat)
    requires p in jobs
    ensures |jobs - {p}| == |jobs| - 1
  {
    assert (jobs - {p}).Keys == jobs.Keys - {p};
    assert |jobs.Keys| == |jobs| && |(jobs - {p}).Keys| == |jobs - {p}|;
  }

  /** An answered entry is owed to the list of free entries. */
  lemma ReplyPool(b: Back, claim: Option<Claim>, claim': Option<Claim>, p: nat, bios: multiset<nat>,
                  g: Cargo, rsp: Response, b': Back)
    requires PoolInv(b, claim, bios, g) && p in g.jobs && rsp.seqNo < |g.place|
    requires claim' == if claim.Some? && claim.value.p == p then None else claim
    requires |b'.pool| == |b.pool| && b'.free == b.free && b'.owed == [p] + b.owed
    requires forall q :: 0 <= q < |b.pool| && q != p ==> b'.pool[q] == b.pool[q]
    ensures PoolInv(b', claim', bios[p := 0], Reply(g, p, rsp))
    ensures |Reply(g, p, rsp).jobs| == |g.jobs| - 1
  {
    DropSize(g.jobs, p);
    ReplyFree(b, g.jobs, p, b');
    ReplyJobs(b, claim, claim', p, bios, g.jobs, b');
  }

  lemma ReplyFree(b: Back, jobs: map<nat, Job>, p: nat, b': Back)
    requires FreeInv(b, jobs) && p in jobs
    requires |b'.pool| == |b.pool| && b'.free == b.free && b'.owed == [p] + b.owed
    ensures FreeInv(b', jobs - {p})
  {
    DropSize(jobs, p);
  }

  /** Returning an owed entry keeps the division of the pool. */
  lemma ReturnPool(b: Back, claim: Option<Claim>, bios: multiset<nat>, g: Cargo, k: nat)
    requires PoolInv(b, claim, bios, g) && k < |b.owed|
    ensures PoolInv(ReturnEntry(b, k), claim, bios, g)
  {
    var b' := ReturnEntry(b, k);
    assert forall m :: 0 <= m < |b'.owed| ==> b'.owed[m] == if m < k then b.owed[m] else b.owed[m + 1];
    ReturnFree(b, g.jobs, k);
  }

  lemma ReturnFree(b: Back, jobs: map<nat, Job>, k: nat)
    requires FreeInv(b, jobs) && k < |b.owed|
    ensures FreeInv(ReturnEntry(b, k), jobs)
  {
    var b' := ReturnEntry(b, k);
    assert forall m :: 0 <= m < |b'.owed| ==> b'.owed[m] == if m < k then b.owed[m] else b.owed[m + 1];
  }

  lemma ReplyJobs(b: Back, claim: Option<Claim>, claim': Option<Claim>, p: nat, bios: multiset<nat>,
                  jobs: map<nat, Job>, b': Back)
    requires FreeInv(b, jobs) && p in jobs && JobInv(b, claim, bios, jobs)
    requires claim' == if claim.Some? && claim.value.p == p then None else claim
    requires |b'.pool| == |b.pool| && forall q :: 0 <= q < |b.pool| && q != p ==> b'.pool[q] == b.pool[q]
    ensures JobInv(b', claim', bios[p := 0], jobs - {p})
  {
  }

  // ---- grants

  ghost function Held(e: Shadow): multiset<nat> {
    if e.request.Some? then Grefs(e.req.segs) else multiset{}
  }

  lemma SwapLast(a: multiset<nat>, b: multiset<nat>, x: multiset<nat>, y: multiset<nat>, c: multiset<nat>)
    requires a + x == b + y
    ensures (a + c) + x == (b + c) + y
  {
    forall r: nat
      ensures ((a + c) + x)[r] == ((b + c) + y)[r]
    {
      assert (a + x)[r] == (b + y)[r];
    }
  }

  lemma Commute(a: multiset<nat>, x: multiset<nat>, y: multiset<nat>)
    ensures (a + x) + y == (a + y) + x
  {
  }

  lemma {:induction false} GrantedUpdate(shadow: seq<Shadow>, id: nat, e: Shadow)
    requires id < |shadow|
    ensures Granted(shadow[id := e]) + Held(shadow[id]) == Granted(shadow) + Held(e)
  {
    var last := |shadow| - 1;
    var front := shadow[..last];
    var s' := shadow[id := e];
    if id == last {
      assert s'[..last] == front;
      Commute(Granted(front), Held(e), Held(shadow[last]));
    } else {
      GrantedUpdate(front, id, e);
      assert s'[..last] == front[id := e];
      SwapLast(Granted(front[id := e]), Granted(front), Held(front[id]), Held(e), Held(shadow[last]));
    }
  }

  lemma {:induction false} GrefsEncoded(sg: seq<Scatter>, refs: seq<nat>)
    requires |refs| == |sg|
    ensures Grefs(EncodeSegments(sg, refs)) == multiset(refs)
  {
    if sg != [] {
      var last := |sg| - 1;
      GrefsEncoded(sg[..last], refs[..last]);
      assert EncodeSegments(sg, refs)[..last] == EncodeSegments(sg[..last], refs[..last]);
      assert refs == refs[..last] + [refs[last]];
    }
  }

  lemma Regroup(a: multiset<nat>, b: multiset<nat>, x: multiset<nat>, c: multiset<nat>)
    ensures x <= a && c == b + x ==> (a - x) + c == a + b
    ensures c + x == b ==> (a + x) + c == a + b
  {
    assert forall e: nat :: (b + x)[e] == b[e] + x[e];
  }

  lemma QueueRefs(shadow: seq<Shadow>, refs: multiset<nat>, total: multiset<nat>, id: nat, req: Request, tag: nat,
                  claimed: seq<nat>)
    requires refs + Granted(shadow) == total && id < |shadow| && shadow[id].request.None?
    requires Grefs(req.segs) == multiset(claimed) && multiset(claimed) <= refs
    ensures (refs - multiset(claimed)) + Granted(shadow[id := Shadow(req, Some(tag))]) == total
  {
    var shadow' := shadow[id := Shadow(req, Some(tag))];
    GrantedUpdate(shadow, id, Shadow(req, Some(tag)));
    assert Granted(shadow') == Granted(shadow) + multiset(claimed);
    Regroup(refs, Granted(shadow), multiset(claimed), Granted(shadow'));
  }

  lemma RetireRefs(shadow: seq<Shadow>, refs: multiset<nat>, total: multiset<nat>, id: nat, e: Shadow)
    requires refs + Granted(shadow) == total && id < |shadow| && shadow[id].request.Some? && e.request.None?
    ensures (refs + Grefs(shadow[id].req.segs)) + Granted(shadow[id := e]) == total
  {
    GrantedUpdate(shadow, id, e);
    assert Granted(shadow[id := e]) + Grefs(shadow[id].req.segs) == Granted(shadow);
    Regroup(refs, Granted(shadow), Grefs(shadow[id].req.segs), Granted(shadow[id := e]));
  }
}
