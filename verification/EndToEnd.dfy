/** The results, for every legal run of the system from its initial state, in terms of the stored state
    and of what the run recorded. */
module EndToEnd {
  import opened FiniteSets
  import opened Word32
  import opened RingMacros
  import opened Handshake
  import opened Options
  import opened Protocol
  import opened System
  import opened Bag
  import opened Invariant
  import opened BagSteps
  import opened QuietSteps
  import opened SystemSteps
  import opened AnswerSteps
  import opened Reachability

  /** A run: the parameters of the set-up and the actions taken. */
  datatype Run = Run(n: nat, pool: nat, refs: multiset<nat>, blockSize: nat, acts: seq<Action>) {
    ghost predicate Legal() {
      Setup(n, pool, blockSize) && n > 0 && System.Legal(Init(n, pool, refs, blockSize), acts)
    }

    function Final(): State
      requires n > 0 && System.Legal(Init(n, pool, refs, blockSize), acts)
    {
      Exec(Init(n, pool, refs, blockSize), acts)
    }

    function Recorded(): History
      requires n > 0 && System.Legal(Init(n, pool, refs, blockSize), acts)
    {
      Record(NO_HISTORY, Init(n, pool, refs, blockSize), acts)
    }
  }

  ghost predicate Reached(s: State, h: History, r: Run, g: Ghost) {
    Inv(s, g, r.n, r.pool, r.refs) && Faithful(h, g.d)
  }

  lemma ReachRun(r: Run) returns (g: Ghost)
    requires r.Legal()
    ensures Reached(r.Final(), r.Recorded(), r, g)
  {
    g := Reach(r.n, r.pool, r.refs, r.blockSize, r.acts);
  }

  // ---- refinement

  /** The requests the frontend holds as outstanding, read off the shadow table. */
  ghost predicate BagOf(shadow: seq<Shadow>, bag: Bag) {
    && (forall id: nat :: id in bag <==> id < |shadow| && shadow[id].request.Some?)
    && (forall id :: id in bag ==> shadow[id].request == Some(bag[id].tag) && shadow[id].req == bag[id].req)
  }

  /** Every run refines the bag machine: its events are allowed, end in the bag that the shadow table
      holds, and no BUG fires. */
  lemma Refinement(r: Run)
    requires r.Legal()
    ensures Replay(r.Recorded().events).Some?
    ensures BagOf(r.Final().f.shadow, Replay(r.Recorded().events).value)
    ensures !r.Final().bug
  {
    var g := ReachRun(r);
  }

  /** Under every id, acceptances and ends alternate: each accepted request is ended at most once, and it
      is the one whose tag the shadow entry holds. */
  lemma EachRequestEndsOnce(r: Run, id: nat)
    requires r.Legal()
    ensures var events := r.Recorded().events;
            var s := r.Final();
            var out := id < |s.f.shadow| && s.f.shadow[id].request.Some?;
            && Accepts(events, id) == Ends(events, id) + (if out then 1 else 0)
            && OpenTag(events, id) == (if out then s.f.shadow[id].request else None)
  {
    Refinement(r);
    EndedAtMostOnce(r.Recorded().events, id);
  }

  // ---- ring order and slots

  /** The counters behind the stored 32-bit indexes are the numbers of requests queued and copied and of
      responses written and read, in ring order within a window of n. */
  lemma RingOrder(r: Run) returns (rspCons: nat, rspProd: nat, reqProd: nat)
    requires r.Legal()
    ensures var h := r.Recorded();
            rspCons <= |h.drained| <= rspProd <= |h.answered| <= |h.copied| <= reqProd <= |h.queued| <= rspCons + r.n
    ensures var (h, s) := (r.Recorded(), r.Final());
            && s.f.rspCons == Wrap(rspCons) && s.sh.rspProd == Wrap(rspProd) && s.sh.reqProd == Wrap(reqProd)
            && s.b.rspPvt == Wrap(|h.answered|) && s.b.reqCons == Wrap(|h.copied|) && s.f.reqPvt == Wrap(|h.queued|)
    ensures DrainLimit(r.Final()).None? ==> rspCons == |r.Recorded().drained|
  {
    var g := ReachRun(r);
    rspCons, rspProd, reqProd := g.rspCons, g.rspProd, g.reqProd;
  }

  /** Slots never interfere: the requests copied out are exactly the first ones queued, in order, and the
      responses read are exactly the first ones written, whatever a misread slot would have yielded. */
  lemma SlotsAreExact(r: Run)
    requires r.Legal()
    ensures var h := r.Recorded(); h.copied <= h.queued && h.drained <= h.answered
  {
    var g := ReachRun(r);
  }

  /** While the consume loop has requests left before its snapshot, its next step takes one if the pool has a free
      entry, and breaks off if not; the overflow guard never stops it. With room in the pool for the ring and for
      the entries still to be returned there is a free one. */
  lemma ConsumeProceedsExactly(r: Run, anyReq: Request)
    requires r.Legal() && CanConsume(r.Final())
    ensures var s := r.Final();
            var s' := DoConsume(s, anyReq);
            if s.b.free == [] then s' == s.(req := BreakOff(s.req))
            else
              && s'.claim.Some? && s'.req == s.req
              && Sub(s'.req.at.limit, s'.b.reqCons) == Sub(s.req.at.limit, s.b.reqCons) - 1
    ensures r.n + |r.Final().b.owed| <= r.pool ==> r.Final().b.free != []
  {
    var g := ReachRun(r);
    var s := r.Final();
    ConsumeBounds(s, g, r.n);
    if s.b.free == [] {
      BrokenOffInv(s, g, r.n, r.pool, r.refs, anyReq);
    } else {
      TakesOne(s, anyReq);
    }
    FreeForNext(s.b, g.d, r.n);
  }

  lemma TakesNext(s: State, anyReq: Request)
    requires CanConsume(s) && !ConsOverflow(Size(s), s.b.reqCons, s.b.rspPvt) && s.b.free != []
    ensures var t := DoConsume(s, anyReq);
            t == s.(b := t.b, claim := t.claim) && t.b.reqCons == Add(s.b.reqCons, 1) && !t.claim.None?
  {
  }

  lemma TakesOne(s: State, anyReq: Request)
    requires CanConsume(s) && !ConsOverflow(Size(s), s.b.reqCons, s.b.rspPvt) && s.b.free != []
    ensures var s' := DoConsume(s, anyReq);
            && s'.claim.Some? && s'.req == s.req
            && Sub(s'.req.at.limit, s'.b.reqCons) == Sub(s.req.at.limit, s.b.reqCons) - 1
  {
    TakesNext(s, anyReq);
    StepCloser(s.b.reqCons, s.req.at.limit);
  }

  lemma FreeForNext(b: Back, g: Cargo, n: nat)
    requires FreeInv(b, g.jobs) && |g.jobs| < n
    ensures n + |b.owed| <= |b.pool| ==> b.free != []
  {
  }

  /** The occupancy macros are exact on every reachable state. */
  lemma OccupancyExact(r: Run) returns (rspCons: nat, rspProd: nat, reqProd: nat)
    requires r.Legal()
    ensures var (h, s) := (r.Recorded(), r.Final());
            && s.f.rspCons == Wrap(rspCons) && s.sh.rspProd == Wrap(rspProd) && s.sh.reqProd == Wrap(reqProd)
            && rspCons <= |h.drained| <= rspProd && |h.copied| <= reqProd
            && UnconsumedRequests(r.n, s.sh.reqProd, s.b.reqCons, s.b.rspPvt) == reqProd - |h.copied|
            && UnconsumedResponses(s.sh.rspProd, s.f.rspCons) == rspProd - rspCons
            && FreeRequests(r.n, s.f.reqPvt, s.f.rspCons) == r.n - (|h.queued| - rspCons)
            && (ConsOverflow(r.n, s.b.reqCons, s.b.rspPvt) ==> reqProd == |h.copied|)
  {
    var g := ReachRun(r);
    RingSizeBounds(r.n);
    GuardsExact(r.n, g.rspCons, g.d.rspPvt, g.d.reqCons, g.reqProd, g.d.reqPvt);
    SubWrap(g.rspProd, g.rspCons);
    rspCons, rspProd, reqProd := g.rspCons, g.rspProd, g.reqProd;
  }

  // ---- where the ids are

  function InFlight(s: State): set<nat> {
    set id: nat | id < |s.f.shadow| && s.f.shadow[id].request.Some?
  }

  function IdsQueued(h: History): set<nat>
    requires |h.copied| <= |h.queued|
  {
    set i: nat | |h.copied| <= i < |h.queued| :: h.queued[i].seqNo
  }

  function IdsAnswered(h: History): set<nat>
    requires |h.drained| <= |h.answered|
  {
    set i: nat | |h.drained| <= i < |h.answered| :: h.answered[i].seqNo
  }

  /** Pool entries in use: the claimed one and those with unfinished bios. */
  function InUse(s: State): set<nat> {
    (if s.claim.Some? then {s.claim.value.p} else {}) + (set p | p in s.bios)
  }

  function HeldId(s: State, p: nat): nat
    requires p < |s.b.pool|
  {
    if s.claim.Some? && s.claim.value.p == p then s.claim.value.req.seqNo else s.b.pool[p].id
  }

  lemma JobsAreInUse(s: State, h: History, r: Run, g: Ghost)
    requires Reached(s, h, r, g)
    ensures InUse(s) == g.d.jobs.Keys
    ensures forall p :: p in g.d.jobs ==> p < |s.b.pool| && HeldId(s, p) == g.d.jobs[p].req.seqNo
  {
    KeysOfPool(s, g.d);
  }

  lemma KeysOfPool(s: State, g: Cargo)
    requires PoolInv(s.b, s.claim, s.bios, g)
    ensures InUse(s) == g.jobs.Keys
    ensures forall p :: p in g.jobs ==> p < |s.b.pool| && HeldId(s, p) == g.jobs[p].req.seqNo
  {
    forall p
      ensures p in InUse(s) <==> p in g.jobs
      ensures p in g.jobs ==> p < |s.b.pool| && HeldId(s, p) == g.jobs[p].req.seqNo
    {
      if p in g.jobs {
        KeyOfPool(s, g, p);
      }
    }
  }

  lemma KeyOfPool(s: State, g: Cargo, p: nat)
    requires PoolInv(s.b, s.claim, s.bios, g) && p in g.jobs
    ensures p in InUse(s) && p < |s.b.pool| && HeldId(s, p) == g.jobs[p].req.seqNo
  {
    if g.jobs[p].submitted {
      assert JobRuns(s.b.pool[p], g.jobs[p], s.bios[p]);
    }
  }

  lemma PlacesCover(s: State, h: History, r: Run, g: Ghost, id: nat)
    requires Reached(s, h, r, g) && id < r.n
    ensures |g.d.place| == |s.f.shadow| == r.n && AtPlace(s.f.shadow, g.d, id)
  {
  }

  /** In-flight ids are the disjoint union of those queued, those held by the backend, and those answered
      and not yet read; no id occurs twice in any of the three. */
  lemma InFlightPartition(r: Run)
    requires r.Legal()
    ensures var (h, s) := (r.Recorded(), r.Final());
            && |h.copied| <= |h.queued| && |h.drained| <= |h.answered|
            && (forall p :: p in InUse(s) ==> p < |s.b.pool|)
            && var held := set p | p in InUse(s) :: HeldId(s, p);
            && InFlight(s) == IdsQueued(h) + held + IdsAnswered(h)
            && IdsQueued(h) !! held && held !! IdsAnswered(h) && IdsQueued(h) !! IdsAnswered(h)
    ensures var h := r.Recorded();
            && (forall i, j :: |h.copied| <= i < j < |h.queued| ==> h.queued[i].seqNo != h.queued[j].seqNo)
            && (forall i, j :: |h.drained| <= i < j < |h.answered| ==> h.answered[i].seqNo != h.answered[j].seqNo)
    ensures var s := r.Final();
            forall p, q :: p in InUse(s) && q in InUse(s) && p != q ==> HeldId(s, p) != HeldId(s, q)
  {
    var g := ReachRun(r);
    var (h, s) := (r.Recorded(), r.Final());
    JobsAreInUse(s, h, r, g);
    PlacesOfGroups(s, h, r, g);
    PartitionOf(s, h, r, g);
  }

  /** What the places say about the three groups of ids. */
  lemma PlacesOfGroups(s: State, h: History, r: Run, g: Ghost)
    requires Reached(s, h, r, g)
    requires InUse(s) == g.d.jobs.Keys
    requires forall p :: p in g.d.jobs ==> p < |s.b.pool| && HeldId(s, p) == g.d.jobs[p].req.seqNo
    ensures |h.copied| <= |h.queued| && |h.drained| <= |h.answered| && |g.d.place| == r.n
    ensures forall i :: |h.copied| <= i < |h.queued| ==>
              h.queued[i].seqNo < r.n && g.d.place[h.queued[i].seqNo] == InQueue(i)
    ensures forall i :: |h.drained| <= i < |h.answered| ==>
              h.answered[i].seqNo < r.n && g.d.place[h.answered[i].seqNo] == InAnswer(i)
    ensures forall p :: p in InUse(s) ==>
              p < |s.b.pool| && HeldId(s, p) < r.n && g.d.place[HeldId(s, p)] == AtBackend(p)
  {
  }

  lemma InSomeGroup(s: State, h: History, r: Run, g: Ghost, id: nat)
    requires Reached(s, h, r, g) && InUse(s) == g.d.jobs.Keys
    requires forall p :: p in InUse(s) ==> p < |s.b.pool| && HeldId(s, p) == g.d.jobs[p].req.seqNo
    requires id in InFlight(s)
    ensures |h.copied| <= |h.queued| && |h.drained| <= |h.answered|
    ensures id in IdsQueued(h) || id in IdsAnswered(h) || exists p :: p in InUse(s) && HeldId(s, p) == id
  {
    PlacesCover(s, h, r, g, id);
    match g.d.place[id]
    case InQueue(i) => assert h.queued[i].seqNo == id;
    case AtBackend(p) => assert p in InUse(s) && HeldId(s, p) == id;
    case InAnswer(i) => assert h.answered[i].seqNo == id;
    case InChain(_) => assert false;
  }

  lemma BusyIsInFlight(s: State, h: History, r: Run, g: Ghost, id: nat)
    requires Reached(s, h, r, g) && id < r.n && |g.d.place| == r.n && !g.d.place[id].InChain?
    ensures id in InFlight(s)
  {
    PlacesCover(s, h, r, g, id);
  }

  lemma PartitionOf(s: State, h: History, r: Run, g: Ghost)
    requires Reached(s, h, r, g)
    requires InUse(s) == g.d.jobs.Keys
    requires forall p :: p in g.d.jobs ==> p < |s.b.pool| && HeldId(s, p) == g.d.jobs[p].req.seqNo
    ensures |h.copied| <= |h.queued| && |h.drained| <= |h.answered|
    ensures var held := set p | p in InUse(s) :: HeldId(s, p);
            InFlight(s) == IdsQueued(h) + held + IdsAnswered(h)
  {
    PlacesOfGroups(s, h, r, g);
    var held := set p | p in InUse(s) :: HeldId(s, p);
    forall id | id in InFlight(s)
      ensures id in IdsQueued(h) + held + IdsAnswered(h)
    {
      InSomeGroup(s, h, r, g, id);
    }
    forall id | id in IdsQueued(h) + held + IdsAnswered(h)
      ensures id in InFlight(s)
    {
      GroupIsInFlight(s, h, r, g, id);
    }
  }

  lemma GroupIsInFlight(s: State, h: History, r: Run, g: Ghost, id: nat)
    requires Reached(s, h, r, g) && InUse(s) == g.d.jobs.Keys
    requires forall p :: p in g.d.jobs ==> p < |s.b.pool| && HeldId(s, p) == g.d.jobs[p].req.seqNo
    requires |h.copied| <= |h.queued| && |h.drained| <= |h.answered|
    requires id in IdsQueued(h) || id in IdsAnswered(h) || exists p :: p in InUse(s) && HeldId(s, p) == id
    ensures id in InFlight(s)
  {
    PlacesOfGroups(s, h, r, g);
    BusyIsInFlight(s, h, r, g, id);
  }

  // ---- the free list

  /** `ids` lists the chain of links that starts at `start` and ends in the end mark. */
  predicate IsChain(shadow: seq<Shadow>, start: nat, ids: seq<nat>) {
    && start == (if ids == [] then LIST_END else ids[0])
    && forall i :: 0 <= i < |ids| ==>
         ids[i] < |shadow| && shadow[ids[i]].req.seqNo == (if i == |ids| - 1 then LIST_END else ids[i + 1])
  }

  function Reversed(chain: seq<nat>): (ids: seq<nat>)
    ensures |ids| == |chain|
  {
    seq(|chain|, i requires 0 <= i < |chain| => chain[|chain| - 1 - i])
  }

  /** Read from the top, the chain is what following the links yields. */
  lemma ChainDown(shadow: seq<Shadow>, chain: seq<nat>)
    requires forall m :: 0 <= m < |chain| ==> chain[m] < |shadow| && shadow[chain[m]].req.seqNo == Link(chain, m)
    ensures IsChain(shadow, Link(chain, |chain|), Reversed(chain))
  {
  }

  /** The free list is acyclic, holds exactly the ids not in flight, and has n - (queued - read) of them;
      and an id passes the check of add_id_to_freelist exactly when it is in flight. */
  lemma FreeList(r: Run) returns (ids: seq<nat>)
    requires r.Legal()
    ensures var (h, s) := (r.Recorded(), r.Final());
            && IsChain(s.f.shadow, s.f.shadowFree, ids)
            && (forall i, j :: 0 <= i < j < |ids| ==> ids[i] != ids[j])
            && (forall id: nat :: id < |s.f.shadow| ==> (id in ids <==> id !in InFlight(s)))
            && |ids| == r.n - (|h.queued| - |h.drained|)
            && (forall id: nat :: id < |s.f.shadow| ==> (s.f.shadow[id].req.seqNo == id <==> id in InFlight(s)))
  {
    var g := ReachRun(r);
    ids := FreeListOf(r.Final(), r.Recorded(), r, g);
  }

  lemma ChainLinks(s: State, h: History, r: Run, g: Ghost)
    requires Reached(s, h, r, g)
    ensures |g.d.place| == |s.f.shadow| == r.n
    ensures forall m :: 0 <= m < |g.d.chain| ==>
              && g.d.chain[m] < |s.f.shadow| && g.d.place[g.d.chain[m]] == InChain(m)
              && s.f.shadow[g.d.chain[m]].req.seqNo == Link(g.d.chain, m)
    ensures s.f.shadowFree == Link(g.d.chain, |g.d.chain|)
    ensures |g.d.chain| == r.n - (|h.queued| - |h.drained|)
  {
    forall m | 0 <= m < |g.d.chain|
      ensures s.f.shadow[g.d.chain[m]].req.seqNo == Link(g.d.chain, m)
    {
      PlacesCover(s, h, r, g, g.d.chain[m]);
    }
  }

  /** An id is in the chain, with a link that is not itself, or in flight, with itself as link. */
  lemma LinkOrSelf(s: State, h: History, r: Run, g: Ghost, id: nat)
    requires Reached(s, h, r, g) && id < r.n
    ensures |g.d.place| == |s.f.shadow| == r.n
    ensures id in InFlight(s) <==> !g.d.place[id].InChain?
    ensures id in InFlight(s) <==> s.f.shadow[id].req.seqNo == id
    ensures g.d.place[id].InChain? ==> id in g.d.chain
  {
    ChainLinks(s, h, r, g);
    PlacesCover(s, h, r, g, id);
    if g.d.place[id].InChain? {
      var k := g.d.place[id].pos;
      if k > 0 { assert g.d.place[g.d.chain[k - 1]] == InChain(k - 1); }
    }
  }

  lemma FreeListOf(s: State, h: History, r: Run, g: Ghost) returns (ids: seq<nat>)
    requires Reached(s, h, r, g)
    ensures |s.f.shadow| == r.n
    ensures IsChain(s.f.shadow, s.f.shadowFree, ids)
    ensures forall i, j :: 0 <= i < j < |ids| ==> ids[i] != ids[j]
    ensures forall id: nat :: id < |s.f.shadow| ==> (id in ids <==> id !in InFlight(s))
    ensures |ids| == r.n - (|h.queued| - |h.drained|)
    ensures forall id: nat :: id < |s.f.shadow| ==> (s.f.shadow[id].req.seqNo == id <==> id in InFlight(s))
  {
    ChainLinks(s, h, r, g);
    ChainDown(s.f.shadow, g.d.chain);
    ids := Reversed(g.d.chain);
    ReversedMembers(g.d.chain);
    ChainDistinct(s.f.shadow, g.d);
    forall id: nat | id < |s.f.shadow|
      ensures id in ids <==> id !in InFlight(s)
      ensures s.f.shadow[id].req.seqNo == id <==> id in InFlight(s)
    {
      LinkOrSelf(s, h, r, g, id);
    }
  }

  lemma ReversedMembers(a: seq<nat>)
    ensures forall x :: x in Reversed(a) <==> x in a
  {
    forall x | x in a
      ensures x in Reversed(a)
    {
      var i :| 0 <= i < |a| && a[i] == x;
      assert Reversed(a)[|a| - 1 - i] == x;
    }
  }

  lemma ChainDistinct(shadow: seq<Shadow>, g: Cargo)
    requires forall m :: 0 <= m < |g.chain| ==> g.chain[m] < |g.place| && g.place[g.chain[m]] == InChain(m)
    ensures forall i, j :: 0 <= i < j < |g.chain| ==> Reversed(g.chain)[i] != Reversed(g.chain)[j]
  {
  }

  // ---- pool and completion counting

  /** Every pool entry is on the free list once, or answered and owed to it once, or in use, and only one of
      these; the completion counter of an entry with submitted bios is the number of its unfinished ones, and
      its status is -1 exactly when a bio has failed since the request was accepted. */
  lemma PoolAccounting(r: Run)
    requires r.Legal()
    ensures var s := r.Final();
            && (forall p: nat :: p < |s.b.pool| ==> (p in s.b.free || p in s.b.owed <==> p !in InUse(s)))
            && (forall p :: p in s.b.free ==> p !in s.b.owed)
            && Distinct(s.b.free) && Distinct(s.b.owed)
            && (forall p :: p in s.bios ==> p < |s.b.pool| && s.b.pool[p].pendcnt == s.bios[p])
            && (s.claim.Some? ==> s.claim.value.p !in s.bios)
    ensures Replay(r.Recorded().events).Some?
    ensures var (s, bag) := (r.Final(), Replay(r.Recorded().events).value);
            forall p :: p in s.bios && p < |s.b.pool| ==>
              s.b.pool[p].id in bag && s.b.pool[p].status == (if bag[s.b.pool[p].id].failed then -1 else 0)
  {
    var g := ReachRun(r);
    var s := r.Final();
    PoolCovered(s.b, s.claim, s.bios, g.d);
    JobsAreInUse(s, r.Recorded(), r, g);
    forall p | p in s.bios
      ensures g.d.jobs[p].req.seqNo in g.d.bag && s.b.pool[p].id == g.d.jobs[p].req.seqNo
    {
      BioFacts(s, g, r.n, r.pool, r.refs, p);
    }
  }

  /** In every reachable state: the last unfinished bio of a pool entry, and no other, writes an answer; it carries
      the id and the direction of the outstanding request, and -1 exactly if this bio or anything before failed. */
  lemma AnsweredAtLastBio(r: Run, p: nat, error: bool)
    requires r.Legal() && CanFinishBio(r.Final(), p)
    ensures Replay(r.Recorded().events).Some?
    ensures var (s, bag) := (r.Final(), Replay(r.Recorded().events).value);
            var id := s.b.pool[p].id;
            && id in bag
            && AnsweredByBio(s, p, error)
               == if s.bios[p] == 1 then [Response(id, bag[id].req.dir, if error || bag[id].failed then -1 else 0)]
                  else []
  {
    var g := ReachRun(r);
    var s := r.Final();
    BioFacts(s, g, r.n, r.pool, r.refs, p);
    LastUnmaps(s, g, r.n, r.pool, r.refs, p);
    AnswerOfBio(s, p, error);
    JobInBag(s.f.shadow, s.f.shadowFree, g.d, p);
  }

  lemma PoolCovered(b: Back, claim: Option<Claim>, bios: multiset<nat>, g: Cargo)
    requires PoolInv(b, claim, bios, g)
    ensures forall p: nat :: p < |b.pool| ==> (p in b.free || p in b.owed <==> p !in g.jobs)
  {
    var idle := b.free + b.owed;
    assert forall k :: 0 <= k < |idle| ==> idle[k] == if k < |b.free| then b.free[k] else b.owed[k - |b.free|];
    DistinctSize(idle);
    assert |g.jobs.Keys| == |g.jobs|;
    TwoPartsCover(Members(idle), g.jobs.Keys, |b.pool|);
  }

  // ---- grants

  /** The free grant references and those of the outstanding requests always add up to the initial ones. */
  lemma GrantsConserved(r: Run)
    requires r.Legal()
    ensures r.Final().f.refs + Granted(r.Final().f.shadow) == r.refs
  {
    var g := ReachRun(r);
  }

  /** The stored handles and the live mappings are inverse to each other, and only entries with unfinished
      bios have any, so none is left when an entry is answered. */
  lemma MappingsMatchBios(r: Run)
    requires r.Legal()
    ensures var s := r.Final();
            && |s.b.handles| == 11 * |s.b.pool|
            && (forall j :: 0 <= j < |s.b.handles| && s.b.handles[j] != INVALID_HANDLE ==>
                  s.b.handles[j] in s.maps && s.maps[s.b.handles[j]] == j && j / 11 in s.bios)
            && (forall h :: h in s.maps ==>
                  h != INVALID_HANDLE && s.maps[h] < |s.b.handles| && s.b.handles[s.maps[h]] == h)
  {
    var g := ReachRun(r);
    var s := r.Final();
    forall p | p in g.d.jobs && g.d.jobs[p].submitted
      ensures p in s.bios
    {
      assert JobRuns(s.b.pool[p], g.d.jobs[p], s.bios[p]);
    }
  }

  // ---- the sleep handshake

  /** In both directions, unless a handler has run between a thread's two stores: status is RUNNING exactly
      when the waiting flag is set, and a thread asleep over unread entries is covered by an interrupt in
      flight or by a producer between its push and its status read, unless the thread came straight from a pass
      broken off by an empty pool, which only the backend's does. */
  lemma SleepersAreCovered(r: Run, side: Side)
    requires r.Legal()
    ensures var c := Chan(r.Final(), side);
            var unread := if side.Requests? then UnreadRequests(r.Final()) else UnreadResponses(r.Final());
            !c.raced ==>
              && (c.handler == Quiet && !c.at.Half? ==> (c.status == Running <==> c.waiting))
              && (c.at.Asleep? && unread ==> c.status == Sleeping && (!c.cut ==> InterruptInFlight(c) || c.signalling))
    ensures r.Final().req.signalling ==> r.Final().sub.SubSignal?
  {
    var g := ReachRun(r);
    var s := r.Final();
    var c := Chan(s, side);
    if !c.raced {
      SleeperIsCovered(c, if side.Requests? then UnreadRequests(s) else UnreadResponses(s));
    }
  }
}
