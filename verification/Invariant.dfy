/** What every reachable state of the system satisfies, stated with unbounded counters and logs. */
module Invariant {
  import opened Word32
  import opened RingMacros
  import opened Handshake
  import opened Options
  import opened Protocol
  import opened System
  import opened Bag

  /** Where an id is: at a height of the free list, or with the request at a ring index, in a pool
      entry, or in the response at a ring index. */
  datatype Place = InChain(pos: nat) | InQueue(at: nat) | AtBackend(p: nat) | InAnswer(at: nat)

  /** A pool entry in use: its request, whether its bios have been submitted, whether one has failed. */
  datatype Job = Job(req: Request, submitted: bool, failed: bool)

  /** What the data steps move: the free list `chain` from the bottom up, every request and response ever
      written (by unbounded index), and the counters that delimit the live ones. */
  datatype Cargo = Cargo(
    cursor: nat, rspPvt: nat, reqCons: nat, reqPvt: nat,
    reqLog: seq<Request>, rspLog: seq<Response>,
    chain: seq<nat>, jobs: map<nat, Job>, place: seq<Place>, bag: Bag)

  /** The remaining unbounded counters; `snap` and `pass` are the snapshots of the two drain loops. */
  datatype Ghost = Ghost(rspCons: nat, rspProd: nat, reqProd: nat, snap: nat, pass: nat, d: Cargo)

  // ---- counters

  ghost predicate Logged(g: Cargo) {
    |g.reqLog| == g.reqPvt && |g.rspLog| == g.rspPvt && g.cursor <= g.rspPvt <= g.reqCons <= g.reqPvt
  }

  ghost predicate Order(g: Ghost, n: nat) {
    && g.rspCons <= g.d.cursor <= g.rspProd <= g.d.rspPvt <= g.d.reqCons <= g.reqProd <= g.d.reqPvt <= g.rspCons + n
    && |g.d.chain| + (g.d.reqPvt - g.d.cursor) == n
    && |g.d.jobs| == g.d.reqCons - g.d.rspPvt
  }

  ghost predicate Stored(s: State, g: Ghost) {
    && s.f.rspCons == Wrap(g.rspCons) && s.cursor == Wrap(g.d.cursor)
    && s.sh.rspProd == Wrap(g.rspProd) && s.b.rspPvt == Wrap(g.d.rspPvt)
    && s.b.reqCons == Wrap(g.d.reqCons) && s.sh.reqProd == Wrap(g.reqProd) && s.f.reqPvt == Wrap(g.d.reqPvt)
  }

  /** Who may be where: one drain loop at a time, under the queue lock, and one responder. */
  ghost predicate Control(s: State, g: Ghost) {
    && (DrainLimit(s).Some? ==> DrainLimit(s).value == Wrap(g.snap) && g.d.cursor <= g.snap <= g.rspProd)
    && (DrainLimit(s).None? ==> g.d.cursor == g.rspCons)
    && (!s.sub.SubIdle? ==> s.rsp.at.Top? || s.rsp.at.Asleep? || s.rsp.at.Kick?)
    && (s.req.at.Drain? ==> s.req.at.limit == Wrap(g.pass) && g.d.reqCons <= g.pass <= g.reqProd)
    && (s.claim.Some? ==> s.req.at.Drain?)
    && (s.sub.SubSignal? <==> s.req.signalling)
    && (s.writing ==> !s.rsp.signalling)
    && !s.rsp.cut
    && g.rspProd + (if s.writing then 1 else 0) == g.d.rspPvt
  }

  // ---- slots

  ghost predicate SlotInv(slots: seq<Entry>, g: Cargo)
    requires |slots| > 0 && Logged(g)
  {
    && (forall i {:trigger g.reqLog[i]} :: g.reqCons <= i < g.reqPvt ==> slots[i % |slots|] == Req(g.reqLog[i]))
    && (forall i {:trigger g.rspLog[i]} :: g.cursor <= i < g.rspPvt ==> slots[i % |slots|] == Rsp(g.rspLog[i]))
  }

  // ---- ids

  function Link(chain: seq<nat>, k: nat): nat
    requires k <= |chain|
  {
    if k == 0 then LIST_END else chain[k - 1]
  }

  ghost predicate Busy(e: Shadow, id: nat) {
    e.request.Some? && e.req.seqNo == id && (e.req.dir == 0 || e.req.dir == 1)
  }

  /** The shadow entry of an id agrees with the place of the id, and the place holds the id. */
  ghost predicate AtPlace(shadow: seq<Shadow>, g: Cargo, id: nat)
    requires id < |shadow| && id < |g.place|
    requires Logged(g)
  {
    match g.place[id]
    case InChain(k) =>
      && k < |g.chain| && g.chain[k] == id
      && shadow[id].request.None? && shadow[id].req.seqNo == Link(g.chain, k)
    case InQueue(i) => g.reqCons <= i < g.reqPvt && g.reqLog[i].seqNo == id && Busy(shadow[id], id)
    case AtBackend(p) => p in g.jobs && g.jobs[p].req.seqNo == id && Busy(shadow[id], id)
    case InAnswer(i) => g.cursor <= i < g.rspPvt && g.rspLog[i].seqNo == id && Busy(shadow[id], id)
  }

  ghost predicate IdInv(shadow: seq<Shadow>, free: nat, g: Cargo)
    requires Logged(g)
  {
    && |g.place| == |shadow| < LIST_END
    && free == Link(g.chain, |g.chain|)
    && (forall id :: 0 <= id < |shadow| ==> AtPlace(shadow, g, id))
    && (forall k :: 0 <= k < |g.chain| ==> g.chain[k] < |shadow| && g.place[g.chain[k]] == InChain(k))
    && (forall i :: g.reqCons <= i < g.reqPvt ==>
          var id := g.reqLog[i].seqNo;
          id < |shadow| && g.place[id] == InQueue(i) && shadow[id].req == g.reqLog[i])
    && (forall p :: p in g.jobs ==>
          var id := g.jobs[p].req.seqNo;
          id < |shadow| && g.place[id] == AtBackend(p) && shadow[id].req == g.jobs[p].req)
    && (forall i :: g.cursor <= i < g.rspPvt ==>
          var id := g.rspLog[i].seqNo;
          id < |shadow| && g.place[id] == InAnswer(i) && shadow[id].req.dir == g.rspLog[i].op)
  }

  // ---- pool

  ghost predicate JobRuns(e: Pending, j: Job, bios: nat) {
    && e.id == j.req.seqNo && e.op == j.req.dir && e.pages == |j.req.segs| <= MAX_SEGMENTS
    && e.status == (if j.failed then -1 else 0)
    && e.pendcnt == bios > 0
  }

  ghost predicate Distinct(ps: seq<nat>) {
    forall k, m :: 0 <= k < m < |ps| ==> ps[k] != ps[m]
  }

  /** The free entries, the owed ones and the jobs in hand divide the pool. */
  ghost predicate FreeInv(b: Back, jobs: map<nat, Job>) {
    && |jobs| + |b.free| + |b.owed| == |b.pool|
    && (forall k :: 0 <= k < |b.free| ==> b.free[k] < |b.pool| && b.free[k] !in jobs)
    && (forall k :: 0 <= k < |b.owed| ==> b.owed[k] < |b.pool| && b.owed[k] !in jobs)
    && Distinct(b.free) && Distinct(b.owed)
    && (forall k, m :: 0 <= k < |b.free| && 0 <= m < |b.owed| ==> b.free[k] != b.owed[m])
    && (forall p :: p in jobs ==> p < |b.pool|)
  }

  ghost predicate JobInv(b: Back, claim: Option<Claim>, bios: multiset<nat>, jobs: map<nat, Job>)
    requires forall p :: p in jobs ==> p < |b.pool|
  {
    && (forall p :: p in jobs && jobs[p].submitted ==> JobRuns(b.pool[p], jobs[p], bios[p]))
    && (forall p :: p in jobs && !jobs[p].submitted ==> claim == Some(Claim(p, jobs[p].req)) && !jobs[p].failed)
    && (claim.Some? ==> claim.value.p in jobs && !jobs[claim.value.p].submitted)
    && (forall p :: p in bios ==> p in jobs && jobs[p].submitted)
  }

  ghost predicate PoolInv(b: Back, claim: Option<Claim>, bios: multiset<nat>, g: Cargo) {
    FreeInv(b, g.jobs) && JobInv(b, claim, bios, g.jobs)
  }

  // ---- grants

  /** The stored handles and the hypervisor's live mappings are inverse to each other, and only
      submitted entries have any, in their own page slots. */
  ghost predicate HandleInv(handles: seq<int>, maps: map<int, nat>, jobs: map<nat, Job>, pool: nat) {
    && |handles| == 11 * pool
    && (forall j :: 0 <= j < |handles| && handles[j] != INVALID_HANDLE ==>
          && handles[j] in maps && maps[handles[j]] == j
          && j / 11 in jobs && jobs[j / 11].submitted && j % 11 < |jobs[j / 11].req.segs|)
    && (forall h :: h in maps ==> maps[h] < |handles| && handles[maps[h]] == h && h != INVALID_HANDLE)
  }

  /** References granted to the backend by the outstanding requests of these entries. */
  ghost function Granted(shadow: seq<Shadow>): multiset<nat> {
    if shadow == [] then multiset{}
    else
      var last := shadow[|shadow| - 1];
      Granted(shadow[..|shadow| - 1]) + (if last.request.Some? then Grefs(last.req.segs) else multiset{})
  }

  // ---- bag

  ghost predicate BagInv(shadow: seq<Shadow>, g: Cargo)
    requires Logged(g)
  {
    && (forall id: nat :: id in g.bag <==> id < |shadow| && shadow[id].request.Some?)
    && (forall id :: id in g.bag ==> g.bag[id].tag == shadow[id].request.value && g.bag[id].req == shadow[id].req)
    && (forall i :: g.reqCons <= i < g.reqPvt && g.reqLog[i].seqNo in g.bag ==> !g.bag[g.reqLog[i].seqNo].failed)
    && (forall p :: p in g.jobs && g.jobs[p].req.seqNo in g.bag ==>
          g.bag[g.jobs[p].req.seqNo].failed == g.jobs[p].failed)
    && (forall i :: g.cursor <= i < g.rspPvt && g.rspLog[i].seqNo in g.bag ==>
          g.rspLog[i].res == (if g.bag[g.rspLog[i].seqNo].failed then -1 else 0))
  }

  // ---- all together

  /** The parts that only data steps change. */
  ghost predicate Data(slots: seq<Entry>, shadow: seq<Shadow>, free: nat, refs: multiset<nat>, b: Back,
                       claim: Option<Claim>, bios: multiset<nat>, maps: map<int, nat>, g: Cargo, total: multiset<nat>)
  {
    && |slots| > 0 && Logged(g)
    && SlotInv(slots, g)
    && |shadow| == |slots| && IdInv(shadow, free, g)
    && PoolInv(b, claim, bios, g)
    && HandleInv(b.handles, maps, g.jobs, |b.pool|)
    && refs + Granted(shadow) == total
    && BagInv(shadow, g)
  }

  predicate UnreadRequests(s: State) {
    s.sh.reqProd != s.b.reqCons
  }

  predicate UnreadResponses(s: State) {
    s.sh.rspProd != s.f.rspCons
  }

  ghost predicate DataInv(s: State, g: Cargo, total: multiset<nat>) {
    Data(s.sh.slots, s.f.shadow, s.f.shadowFree, s.f.refs, s.b, s.claim, s.bios, s.maps, g, total)
  }

  ghost predicate Frame(s: State, g: Ghost, n: nat) {
    Size(s) == n && Order(g, n) && Stored(s, g) && Control(s, g)
  }

  ghost predicate Channels(s: State) {
    ChannelInv(s.req, UnreadRequests(s)) && ChannelInv(s.rsp, UnreadResponses(s))
  }

  ghost predicate Inv(s: State, g: Ghost, n: nat, pool: nat, total: multiset<nat>) {
    && RingSize(n) && s.blockSize >= 512
    && |s.b.pool| == pool && !s.bug
    && Frame(s, g, n)
    && DataInv(s, g.d, total)
    && Channels(s)
  }
}
