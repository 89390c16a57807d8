/** The backend driver: the pool of pending requests, page mapping, bio submission and the consume loop. */
module Backend {
  import opened Word32
  import opened RingMacros
  import opened Handshake
  import opened Options
  import opened Protocol
  import opened Dispatch
  import opened GrantSteps
  import System
  import opened SharedRing

  /** An answer written and pushed, and its pool entry freed. */
  function Answered(sh: Shared, b: Back, p: nat, rsp: Response): (Shared, Back)
    requires |sh.slots| > 0
  {
    var (sh1, b1) := WriteResponse(sh, b, p, rsp);
    (sh1.(rspProd := b1.rspPvt), b1.(free := [p] + b.free, owed := b.owed))
  }

  // ---- one pass of the consume loop as a function

  /** `started` holds the bios of every submitted request, `more` says that the pool ran out; `bug` is set when a
      BUG fires or the hypervisor hands out a handle that is in use. */
  datatype Pass = Pass(sh: Shared, b: Back, maps: map<int, nat>, started: seq<seq<Bio>>, more: bool, bug: bool)

  predicate PoolList(b: Back) {
    forall i :: 0 <= i < |b.free| ==> b.free[i] < |b.pool|
  }

  /** The first n answers of an outcome. */
  function Fit(o: Outcome, n: nat): Outcome {
    Outcome(seq(n, i requires i >= 0 => if i < |o.row| then o.row[i] else INVALID_HANDLE),
            seq(n, i requires i >= 0 => i < |o.refuse| && o.refuse[i]))
  }

  /** The entry taken from the pool, and the backend after taking it and advancing the index. */
  function Claimed(b: Back): Back
    requires b.free != []
  {
    b.(free := b.free[1..], reqCons := Add(b.reqCons, 1))
  }

  function NextRequest(sh: Shared, b: Back, garbage: Request): Request
    requires |sh.slots| > 0
  {
    AsRequest(sh.slots[Slot(b.reqCons, |sh.slots|)], garbage)
  }

  /** Requests up to `limit`, each with the outcome of its index; stops at a rejected request. */
  ghost function PassFrom(sh: Shared, b: Back, maps: map<int, nat>, blockSize: nat, limit: u32, garbage: Request,
                          outcomes: u32 -> Outcome): Pass
    requires |sh.slots| > 0 && PoolList(b) && blockSize >= 512
    decreases Sub(limit, b.reqCons)
  {
    if b.reqCons == limit || ConsOverflow(|sh.slots|, b.reqCons, b.rspPvt) then Pass(sh, b, maps, [], false, false)
    else if b.free == [] then Pass(sh, b, maps, [], true, false)
    else
      var p, req := b.free[0], NextRequest(sh, b, garbage);
      var o := Fit(outcomes(b.reqCons), |req.segs|);
      StepCloser(b.reqCons, limit);
      if !FreshHandles(maps, o.row) then Pass(sh, b, maps, [], false, true)
      else
        match DispatchRequest(Claimed(b), maps, blockSize, p, req, o)
        case UnmapFailed => Pass(sh, b, maps, [], false, true)
        case Rejected(b2, m) =>
          var (sh3, b3) := Answered(sh, b2, p, Response(req.seqNo, req.dir, -1));
          Pass(sh3, b3, m, [], false, false)
        case Submitted(b2, m, _) =>
          var rest := PassFrom(sh, b2, m, blockSize, limit, garbage, outcomes);
          rest.(started := [Split(req.segs, req.sector, o.refuse)] + rest.started)
  }

  /** The index k places after i. */
  function Later(i: u32, k: nat): u32
    decreases k
  {
    if k == 0 then i else Later(Add(i, 1), k - 1)
  }

  predicate Stopped(sh: Shared, b: Back, limit: u32) {
    b.reqCons == limit || ConsOverflow(|sh.slots|, b.reqCons, b.rspPvt)
  }

  /** k requests taken and started, up to the snapshot, the overflow guard or an empty pool. */
  predicate AllStarted(sh: Shared, b: Back, r: Pass, k: nat, limit: u32) {
    && r.b.reqCons == Later(b.reqCons, k) && k == |r.started| && r.sh == sh && r.b.rspPvt == b.rspPvt
    && (if r.more then r.b.free == [] && !Stopped(sh, r.b, limit) else Stopped(sh, r.b, limit))
  }

  /** k requests taken and all but the last one started; the last one rejected, its answer published. */
  predicate LastRejected(sh: Shared, b: Back, r: Pass, k: nat, garbage: Request)
    requires |sh.slots| > 0
  {
    && r.b.reqCons == Later(b.reqCons, k) && k == |r.started| + 1 && !r.more
    && r.b.rspPvt == r.sh.rspProd == Add(b.rspPvt, 1)
    && var last := AsRequest(sh.slots[Slot(Later(b.reqCons, k - 1), |sh.slots|)], garbage);
       r.sh.slots == sh.slots[Slot(b.rspPvt, |sh.slots|) := Rsp(Response(last.seqNo, last.dir, -1))]
  }

  /** What becomes of the next request, in the pool entry taken for it. */
  ghost function FirstDispatch(sh: Shared, b: Back, maps: map<int, nat>, blockSize: nat, garbage: Request,
                               outcomes: u32 -> Outcome): Dispatching
    requires |sh.slots| > 0 && PoolList(b) && blockSize >= 512 && b.free != []
  {
    var req := NextRequest(sh, b, garbage);
    DispatchRequest(Claimed(b), maps, blockSize, b.free[0], req, Fit(outcomes(b.reqCons), |req.segs|))
  }

  lemma StartedFirst(sh: Shared, b: Back, b': Back, first: seq<Bio>, rest: Pass, j: nat, limit: u32, garbage: Request)
    requires |sh.slots| > 0 && b'.reqCons == Add(b.reqCons, 1) && b'.rspPvt == b.rspPvt
    requires AllStarted(sh, b', rest, j, limit) || LastRejected(sh, b', rest, j, garbage)
    ensures var r := rest.(started := [first] + rest.started);
            AllStarted(sh, b, r, j + 1, limit) || LastRejected(sh, b, r, j + 1, garbage)
  {
    assert Later(b.reqCons, j + 1) == Later(b'.reqCons, j);
    if LastRejected(sh, b', rest, j, garbage) {
      assert Later(b.reqCons, j) == Later(b'.reqCons, j - 1);
    }
  }

  /** What the pass does with its first request. */
  lemma FirstOfPass(sh: Shared, b: Back, maps: map<int, nat>, blockSize: nat, limit: u32, garbage: Request,
                    outcomes: u32 -> Outcome)
    requires |sh.slots| > 0 && PoolList(b) && blockSize >= 512 && !Stopped(sh, b, limit) && b.free != []
    requires !PassFrom(sh, b, maps, blockSize, limit, garbage, outcomes).bug
    ensures var (r, req) := (PassFrom(sh, b, maps, blockSize, limit, garbage, outcomes), NextRequest(sh, b, garbage));
            var o := Fit(outcomes(b.reqCons), |req.segs|);
            var d := FirstDispatch(sh, b, maps, blockSize, garbage, outcomes);
            && !d.UnmapFailed? && d.b.reqCons == Add(b.reqCons, 1) && d.b.rspPvt == b.rspPvt
            && (d.Rejected? ==> LastRejected(sh, b, r, 1, garbage))
            && (d.Submitted? ==>
                  && PoolList(d.b) && Sub(limit, d.b.reqCons) < Sub(limit, b.reqCons)
                  && var rest := PassFrom(sh, d.b, d.maps, blockSize, limit, garbage, outcomes);
                     r == rest.(started := [Split(req.segs, req.sector, o.refuse)] + rest.started))
  {
    StepCloser(b.reqCons, limit);
    assert Later(b.reqCons, 0) == b.reqCons && Later(b.reqCons, 1) == Add(b.reqCons, 1);
  }

  /** A pass that meets no bug starts all the requests it takes, or all but the last one, which it rejects. */
  lemma {:induction false} PassCounts(sh: Shared, b: Back, maps: map<int, nat>, blockSize: nat, limit: u32,
                                      garbage: Request, outcomes: u32 -> Outcome) returns (k: nat)
    requires |sh.slots| > 0 && PoolList(b) && blockSize >= 512
    requires !PassFrom(sh, b, maps, blockSize, limit, garbage, outcomes).bug
    ensures var r := PassFrom(sh, b, maps, blockSize, limit, garbage, outcomes);
            AllStarted(sh, b, r, k, limit) || LastRejected(sh, b, r, k, garbage)
    decreases Sub(limit, b.reqCons)
  {
    k := 0;
    if !Stopped(sh, b, limit) && b.free != [] {
      FirstOfPass(sh, b, maps, blockSize, limit, garbage, outcomes);
      var req := NextRequest(sh, b, garbage);
      var o := Fit(outcomes(b.reqCons), |req.segs|);
      var d := FirstDispatch(sh, b, maps, blockSize, garbage, outcomes);
      k := 1;
      if d.Submitted? {
        var rest := PassFrom(sh, d.b, d.maps, blockSize, limit, garbage, outcomes);
        var j := PassCounts(sh, d.b, d.maps, blockSize, limit, garbage, outcomes);
        StartedFirst(sh, b, d.b, Split(req.segs, req.sector, o.refuse), rest, j, limit, garbage);
        k := j + 1;
      }
    }
  }

  /** `all` is `rest` after the requests in `done` have been started. */
  predicate Continues(all: Pass, done: seq<seq<Bio>>, rest: Pass) {
    all == rest.(started := done + rest.started)
  }

  lemma ContinuesTwice(done: seq<seq<Bio>>, bios: seq<Bio>, rest: Pass)
    ensures forall all, next :: Continues(all, done, next) && Continues(next, [bios], rest) ==>
                                  Continues(all, done + [bios], rest)
  {
    assert done + ([bios] + rest.started) == (done + [bios]) + rest.started;
  }

  class Driver {
    const page: Page
    const pool: array<Pending>
    const handles: array<int>
    var free: seq<nat>
    var rspPvt: u32
    var reqCons: u32
    var waitingReqs: bool
    ghost var maps: map<int, nat>

    ghost predicate Valid()
      reads this
    {
      page.slots.Length > 0 && handles.Length == 11 * pool.Length
    }

    ghost function View(): Back
      reads this, pool, handles
    {
      Back(rspPvt, reqCons, free, [], pool[..], handles[..])
    }

    /** BACK_RING_INIT and the set-up of the pool. */
    constructor (page: Page, reqs: nat)
      requires page.slots.Length > 0
      ensures Valid() && this.page == page && fresh(pool) && fresh(handles) && maps == map[] && waitingReqs
      ensures |free| == reqs && forall i :: 0 <= i < reqs ==> free[i] == i
      ensures forall blockSize, refs :: View() == System.Init(page.slots.Length, reqs, refs, blockSize).b
    {
      this.page := page;
      pool := new Pending[reqs](i => Pending(0, 0, 0, 0, 0));
      handles := new int[11 * reqs](i => INVALID_HANDLE);
      free := seq(reqs, (i: nat) => i);
      rspPvt, reqCons, waitingReqs := 0, 0, true;
      maps := map[];
    }

    /** Takes the head of the free list, if there is one. */
    method AllocReq() returns (p: Option<nat>)
      modifies this`free
      ensures if old(free) == [] then p == None && free == [] else p == Some(old(free)[0]) && free == old(free)[1..]
    {
      p := None;
      if free != [] {
        p := Some(free[0]);
        free := free[1..];
      }
    }

    /** Puts an entry at the head; a waiter is woken when the list was empty. */
    method FreeReq(p: nat) returns (wake: bool)
      modifies this`free
      ensures free == [p] + old(free) && wake == (old(free) == [])
    {
      wake := free == [];
      free := [p] + free;
    }

    /** Writes the answer, pushes it, computes the unused notification test, and says whether to interrupt. */
    method MakeResponse(id: nat, op: int, st: int) returns (notify: bool, interrupt: bool)
      requires Valid()
      modifies this`rspPvt, page`rspProd, page.slots
      ensures forall p :: (page.View(), View().(free := [p] + free))
                       == Answered(old(page.View()), old(View()), p, Response(id, op, st))
      ensures notify == MustNotify(old(page.rspProd), rspPvt, page.rspEvent)
      ensures interrupt == (page.rspStatus == Sleeping)
    {
      page.slots[Slot(rspPvt, page.slots.Length)] := Rsp(Response(id, op, st));
      rspPvt := Add(rspPvt, 1);
      var old_ := page.rspProd;
      page.rspProd := rspPvt;
      notify := Sub(rspPvt, page.rspEvent) < Sub(rspPvt, old_);
      interrupt := page.rspStatus == Sleeping;
    }

    /** Stores the handle of every segment, and says whether any mapping failed. */
    method MapPages(p: nat, row: seq<int>) returns (failed: bool)
      requires Valid() && p < pool.Length && |row| <= MAX_SEGMENTS
      modifies this`maps, handles
      ensures handles[..] == FillRow(old(handles[..]), p, row)
      ensures maps == MapRow(old(maps), p, row)
      ensures failed == (INVALID_HANDLE in row)
    {
      failed := false;
      maps := MapRow(maps, p, row);
      for i := 0 to |row|
        invariant maps == MapRow(old(maps), p, row)
        invariant failed == (INVALID_HANDLE in row[..i])
        invariant forall j :: 0 <= j < handles.Length ==>
                    handles[j] == if InRow(j, p, i) then row[j - 11 * p] else old(handles[j])
      {
        if row[i] == INVALID_HANDLE {
          failed := true;
        }
        handles[11 * p + i] := row[i];
        assert row[..i + 1] == row[..i] + [row[i]];
      }
      assert row[..|row|] == row;
    }

    /** Clears the handles of an entry and unmaps the valid ones, each once; the hypervisor finds each one live
        at the page it was stored for. */
    method UnmapPages(p: nat) returns (unmapped: seq<int>)
      requires Valid() && p < pool.Length && pool[p].pages <= MAX_SEGMENTS
      requires UnmapSucceeds(maps, handles[..], p, pool[p].pages)
      modifies this`maps, handles
      ensures handles[..] == ClearRow(old(handles[..]), p, pool[p].pages)
      ensures unmapped == UnmapTo(old(handles[..]), p, pool[p].pages)
      ensures (set h | h in unmapped) == RowHandles(old(handles[..]), p, pool[p].pages)
      ensures forall i, j :: 0 <= i < j < |unmapped| ==> unmapped[i] != unmapped[j]
      ensures maps == old(maps) - RowHandles(old(handles[..]), p, pool[p].pages)
    {
      unmapped := [];
      ghost var row := old(handles[..]);
      var pages := pool[p].pages;
      for i := 0 to pages
        invariant forall j :: 0 <= j < handles.Length ==>
                    handles[j] == if InRow(j, p, i) then INVALID_HANDLE else old(handles[j])
        invariant maps == old(maps)
        invariant unmapped == UnmapTo(row, p, i)
        invariant (set h | h in unmapped) == RowHandles(row, p, i)
        invariant forall k :: 0 <= k < |unmapped| ==> unmapped[k] in maps && maps[unmapped[k]] < 11 * p + i
        invariant forall k, l :: 0 <= k < l < |unmapped| ==> unmapped[k] != unmapped[l]
      {
        var handle := handles[11 * p + i];
        RowGrows(row, p, i);
        if handle != INVALID_HANDLE {
          assert InRow(11 * p + i, p, pages) && row[11 * p + i] == handle;
          handles[11 * p + i] := INVALID_HANDLE;
          unmapped := unmapped + [handle];
        }
      }
      maps := maps - RowHandles(row, p, pages);
    }

    method Respond(p: nat, id: nat, op: int, st: int)
      requires Valid()
      modifies this`rspPvt, this`free, page`rspProd, page.slots
      ensures (page.View(), View()) == Answered(old(page.View()), old(View()), p, Response(id, op, st))
    {
      var _, _ := MakeResponse(id, op, st);
      var _ := FreeReq(p);
    }

    /** One bio of entry p has finished; the last one unmaps, answers and frees. */
    method EndBlockIo(p: nat, error: bool) returns (last: bool)
      requires Valid() && p < pool.Length && pool[p].pages <= MAX_SEGMENTS
      requires !Protocol.EndBlockIo(View(), maps, p, error).EndBug?
      modifies this, pool, handles, page, page.slots
      ensures Valid()
      ensures match Protocol.EndBlockIo(old(View()), old(maps), p, error)
              case More(b) => !last && View() == b && maps == old(maps) && page.View() == old(page.View())
              case Last(b, m, rsp) =>
                last && maps == m && (page.View(), View()) == Answered(old(page.View()), b, p, rsp)
    {
      if error {
        pool[p] := pool[p].(status := -1);
      }
      pool[p] := pool[p].(pendcnt := pool[p].pendcnt - 1);
      last := pool[p].pendcnt == 0;
      if last {
        assert pool[..] == old(pool[..])[p := pool[p]];
        var _ := UnmapPages(p);
        Respond(p, pool[p].id, pool[p].op, pool[p].status);
      }
    }

    /** The two checking loops over the segments. */
    method CheckSegments(req: Request, blockSize: nat) returns (ok: bool)
      requires blockSize >= 512
      ensures ok == GoodSegments(req, blockSize)
    {
      for i := 0 to |req.segs|
        invariant forall k :: 0 <= k < i ==> GoodSegment(req.segs[k])
      {
        if req.segs[i].last >= 8 || req.segs[i].last < req.segs[i].first {
          return false;
        }
      }
      for i := 0 to |req.segs|
        invariant forall k :: 0 <= k < i ==>
                    BitAnd(BitOr(req.sector % 0x1_0000_0000, Sectors(req.segs[k])), blockSize / 512 - 1) == 0
      {
        if BitAnd(BitOr(req.sector % 0x1_0000_0000, Sectors(req.segs[i])), blockSize / 512 - 1) != 0 {
          return false;
        }
      }
      return true;
    }

    /** Checks, maps and submits the request copied into entry p, or answers it with an error. */
    method DispatchRw(req: Request, p: nat, blockSize: nat, o: Outcome) returns (bios: seq<Bio>, ok: bool)
      requires Valid() && p < pool.Length && blockSize >= 512 && |o.row| == |o.refuse| == |req.segs|
      requires !DispatchRequest(View(), maps, blockSize, p, req, o).UnmapFailed?
      modifies this, pool, handles, page, page.slots
      ensures Valid()
      ensures match DispatchRequest(old(View()), old(maps), blockSize, p, req, o)
              case Rejected(b, m) =>
                && !ok && bios == [] && maps == m
                && (page.View(), View()) == Answered(old(page.View()), b, p, Response(req.seqNo, req.dir, -1))
              case Submitted(b, m, n) =>
                && ok && bios == Split(req.segs, req.sector, o.refuse) && |bios| == n
                && maps == m && View() == b && page.View() == old(page.View())
    {
      bios, ok := [], false;
      if (req.dir == 1 || req.dir == 0) && |req.segs| != 0 && |req.segs| <= MAX_SEGMENTS {
        pool[p] := Pending(req.seqNo, req.dir, 0, |req.segs|, pool[p].pendcnt);
        var good := CheckSegments(req, blockSize);
        if good {
          var failed := MapPages(p, o.row);
          if !failed {
            bios := BuildBios(req.segs, req.sector, o.refuse);
            SplitCount(req.segs, req.sector, o.refuse);
            pool[p] := pool[p].(pendcnt := |bios|);
            return bios, true;
          }
          var _ := UnmapPages(p);
        }
      }
      Respond(p, req.seqNo, req.dir, -1);
    }

    /** The index moves on only after the request has been copied. */
    method Consume(garbage: Request) returns (p: nat, req: Request)
      requires Valid() && free != []
      modifies this`free, this`reqCons
      ensures p == old(free)[0] && req == NextRequest(page.View(), old(View()), garbage)
      ensures View() == Claimed(old(View()))
    {
      var taken := AllocReq();
      p := taken.value;
      req := AsRequest(page.slots[Slot(reqCons, page.slots.Length)], garbage);
      reqCons := Add(reqCons, 1);
    }

    /** The rest of an iteration: consume one request and dispatch it. */
    method ServeOne(ghost limit: u32, blockSize: nat, garbage: Request, outcomes: u32 -> Outcome)
      returns (bios: seq<Bio>, ok: bool)
      requires Valid() && PoolList(View()) && blockSize >= 512
      requires reqCons != limit && free != [] && !ConsOverflow(page.slots.Length, reqCons, rspPvt)
      requires !PassFrom(page.View(), View(), maps, blockSize, limit, garbage, outcomes).bug
      modifies this, pool, handles, page, page.slots
      ensures Valid() && (ok ==> reqCons == Add(old(reqCons), 1))
      ensures var before := PassFrom(old(page.View()), old(View()), old(maps), blockSize, limit, garbage, outcomes);
              if ok then
                PoolList(View()) &&
                var rest := PassFrom(page.View(), View(), maps, blockSize, limit, garbage, outcomes);
                Continues(before, [bios], rest)
              else before == Pass(page.View(), View(), maps, [], false, false)
    {
      var outcome := outcomes(reqCons);
      var p, req := Consume(garbage);
      bios, ok := DispatchRw(req, p, blockSize, Fit(outcome, |req.segs|));
    }

    /** The same within a pass that does `all` and has started the requests in `started`. */
    method ServeNext(ghost limit: u32, blockSize: nat, garbage: Request, outcomes: u32 -> Outcome, ghost all: Pass,
                     started: seq<seq<Bio>>) returns (started': seq<seq<Bio>>, ok: bool)
      requires Valid() && PoolList(View()) && blockSize >= 512
      requires reqCons != limit && free != [] && !ConsOverflow(page.slots.Length, reqCons, rspPvt)
      requires Continues(all, started, PassFrom(page.View(), View(), maps, blockSize, limit, garbage, outcomes))
      requires !all.bug
      modifies this, pool, handles, page, page.slots
      ensures Valid() && (ok ==> PoolList(View()) && reqCons == Add(old(reqCons), 1))
      ensures if ok then
                Continues(all, started', PassFrom(page.View(), View(), maps, blockSize, limit, garbage, outcomes))
              else all == Pass(page.View(), View(), maps, started', false, false)
    {
      var bios;
      bios, ok := ServeOne(limit, blockSize, garbage, outcomes);
      started' := started;
      if ok {
        ContinuesTwice(started, bios, PassFrom(page.View(), View(), maps, blockSize, limit, garbage, outcomes));
        started' := started + [bios];
      } else {
        assert started + [] == started;
      }
    }

    /** One pass over the requests up to the snapshot of the producer index. */
    method DoBlockIoPass(limit: u32, blockSize: nat, garbage: Request, outcomes: u32 -> Outcome)
      returns (started: seq<seq<Bio>>, more: bool)
      requires Valid() && PoolList(View()) && blockSize >= 512
      requires !PassFrom(page.View(), View(), maps, blockSize, limit, garbage, outcomes).bug
      modifies this, pool, handles, page, page.slots
      ensures Valid()
      ensures Pass(page.View(), View(), maps, started, more, false)
           == PassFrom(old(page.View()), old(View()), old(maps), blockSize, limit, garbage, outcomes)
    {
      started, more := [], false;
      ghost var all := PassFrom(page.View(), View(), maps, blockSize, limit, garbage, outcomes);
      while reqCons != limit
        invariant Valid() && PoolList(View()) && !more && !all.bug
        invariant Continues(all, started, PassFrom(page.View(), View(), maps, blockSize, limit, garbage, outcomes))
        decreases Sub(limit, reqCons)
      {
        if ConsOverflow(page.slots.Length, reqCons, rspPvt) {
          return;
        }
        if free == [] {
          more := true;
          return;
        }
        StepCloser(reqCons, limit);
        var ok;
        started, ok := ServeNext(limit, blockSize, garbage, outcomes, all, started);
        if !ok {
          return;
        }
      }
    }

    /** RING_FINAL_CHECK_FOR_REQUESTS, run without interruption. */
    method FinalCheck() returns (more: bool)
      requires Valid()
      modifies page`reqEvent
      ensures more == (UnconsumedRequests(page.slots.Length, page.reqProd, reqCons, rspPvt) != 0)
      ensures page.View() == if more then old(page.View()) else old(page.View()).(reqEvent := Add(reqCons, 1))
    {
      more := UnconsumedRequests(page.slots.Length, page.reqProd, reqCons, rspPvt) != 0;
      if more {
        return;
      }
      page.reqEvent := Add(reqCons, 1);
      more := UnconsumedRequests(page.slots.Length, page.reqProd, reqCons, rspPvt) != 0;
    }

    /** The end of the request thread's round, run without interruption. */
    method ConsiderSleeping(sleep: bool) returns (again: bool)
      requires Valid()
      modifies this`waitingReqs, page`reqStatus, page`reqEvent
      ensures var parks := sleep && old(page.reqStatus) == Running;
              && page.reqStatus == (if parks then Sleeping else old(page.reqStatus))
              && waitingReqs == (if parks then false else old(waitingReqs))
              && again == (parks && UnconsumedRequests(page.slots.Length, page.reqProd, reqCons, rspPvt) != 0)
              && page.View() == if parks && !again then old(page.View()).(reqEvent := Add(reqCons, 1))
                                else old(page.View())
    {
      again := false;
      if sleep && page.reqStatus == Running {
        page.reqStatus := Sleeping;
        waitingReqs := false;
        again := FinalCheck();
      }
    }

    method RingInterrupt() returns (wake: bool)
      modifies this`waitingReqs, page`reqStatus
      ensures waitingReqs && page.reqStatus == Running && wake == (old(page.reqStatus) == Sleeping)
    {
      waitingReqs := true;
      wake := page.LookAtRequestStatus();
    }
  }
}
