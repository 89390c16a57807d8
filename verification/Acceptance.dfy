/** Which block requests the frontend queues, and what it puts on the ring for them. */
module Acceptance {
  import opened RingMacros
  import opened Options
  import opened Protocol
  import opened System
  import opened Bag
  import opened Dispatch
  import opened Invariant
  import opened QuietSteps
  import opened SystemSteps
  import opened Reachability
  import opened EndToEnd

  // ---- the size check

  lemma WrappedSum(a: nat, b: nat)
    ensures (a % 0x1_0000_0000_0000_0000 + b % 0x1_0000_0000_0000_0000) % 0x1_0000_0000_0000_0000
            == (a + b) % 0x1_0000_0000_0000_0000
  {
  }

  /** The end of a block request in bytes, as the program computes it in 64 bits. */
  function EndByte(blk: BlkReq): nat {
    (512 * (blk.sector + blk.count)) % 0x1_0000_0000_0000_0000
  }

  lemma EndUnwrapped(blk: BlkReq)
    requires blk.sector + blk.count < 0x80_0000_0000_0000
    ensures EndByte(blk) == 512 * (blk.sector + blk.count)
  {
  }

  /** A request is refused exactly if it ends beyond 2048000000 bytes or fewer than 11 references are free. */
  lemma RefusedExactly(sh: Shared, f: Front, blk: BlkReq, refs: seq<nat>)
    requires |refs| == |blk.sg| && |sh.slots| > 0
    ensures QueueRequest(sh, f, blk, refs).Refused? <==> EndByte(blk) > 2048000000 || |f.refs| < 11
    ensures blk.sector + blk.count < 0x80_0000_0000_0000 ==>
              (QueueRequest(sh, f, blk, refs).Refused? <==>
                 512 * (blk.sector + blk.count) > 2048000000 || |f.refs| < 11)
  {
    WrappedSum(blk.sector * 512, blk.count * 512);
    assert blk.sector * 512 + blk.count * 512 == 512 * (blk.sector + blk.count);
    if blk.sector + blk.count < 0x80_0000_0000_0000 {
      EndUnwrapped(blk);
    }
  }

  // ---- what is queued

  /** The request on the ring is the block request's: its direction, its first sector, and for every entry of its
      scatter list, in order, the reference claimed for it and the bytes of its page. */
  ghost predicate Describes(req: Request, blk: BlkReq, refs: seq<nat>)
    requires |refs| == |blk.sg|
  {
    && req.dir == blk.dir && req.sector == blk.sector && |req.segs| == |blk.sg|
    && forall i :: 0 <= i < |blk.sg| ==>
         && req.segs[i].gref == refs[i]
         && (WholeSectors(blk.sg[i]) ==>
               StartByte(req.segs[i]) == blk.sg[i].offset && Bytes(req.segs[i]) == blk.sg[i].length)
  }

  lemma NewDescribes(s: State, blk: BlkReq, refs: seq<nat>)
    requires |refs| == |blk.sg|
    ensures Describes(NewRequest(s, blk, refs), blk, refs)
  {
    var req := NewRequest(s, blk, refs);
    forall i | 0 <= i < |blk.sg|
      ensures req.segs[i].gref == refs[i]
      ensures WholeSectors(blk.sg[i]) ==>
                StartByte(req.segs[i]) == blk.sg[i].offset && Bytes(req.segs[i]) == blk.sg[i].length
    {
      if WholeSectors(blk.sg[i]) {
        SegmentRoundTrip(blk.sg[i], refs[i]);
      }
    }
  }

  /** In a state of the invariant nothing but a full ring, the size check and the references stands in the way. */
  lemma QueuesExactly(s: State, g: Ghost, n: nat, pool: nat, total: multiset<nat>, blk: BlkReq, refs: seq<nat>)
    requires CanSubmit(s, blk, refs) && Inv(s, g, n, pool, total)
    ensures Queues(s, blk, refs) <==>
            g.d.reqPvt - g.d.cursor < n && EndByte(blk) <= 2048000000 && |s.f.refs| >= 11
  {
    FullExactly(s, g, n, blk, refs);
    RefusedExactly(s.sh, s.f, blk, refs);
    if !RingFull(n, s.f.reqPvt, s.f.rspCons) {
      NotFullHasFree(s, g, n, pool, total, blk, refs);
    }
  }

  lemma FullExactly(s: State, g: Ghost, n: nat, blk: BlkReq, refs: seq<nat>)
    requires CanSubmit(s, blk, refs) && RingSize(n) && Frame(s, g, n)
    ensures RingFull(n, s.f.reqPvt, s.f.rspCons) <==> g.d.reqPvt - g.d.cursor == n
    ensures g.d.reqPvt - g.d.cursor <= n
  {
    Guards(s, g, n);
    assert DrainLimit(s).None?;
  }

  lemma NewHistory(h: History, s: State, blk: BlkReq, refs: seq<nat>)
    requires Enabled(s, Submit(blk, refs))
    ensures var h' := Extend(h, s, Submit(blk, refs));
            && h'.copied == h.copied && h'.answered == h.answered && h'.drained == h.drained
            && (if Queues(s, blk, refs) then
                  && h'.queued == h.queued + [NewRequest(s, blk, refs)]
                  && h'.events == h.events + [Accept(s.f.shadowFree, blk.tag, NewRequest(s, blk, refs))]
                else h' == h)
  {
    if Queues(s, blk, refs) {
      QueuedIsAccepted(s, blk, refs);
      OneQueued(s, blk, refs);
    } else {
      assert h.events + [] == h.events && h.queued + [] == h.queued;
    }
    assert h.copied + [] == h.copied && h.answered + [] == h.answered && h.drained + [] == h.drained;
  }

  /** In every reachable state in which do_idd_request may queue: a block request is accepted exactly if fewer than n
      requests are outstanding, it ends within the device's 2048000000 bytes and 11 references are free. The
      request accepted describes it, under an id that was not outstanding; a refusal changes nothing. */
  lemma AcceptedExactly(r: Run, blk: BlkReq, refs: seq<nat>)
    requires r.Legal() && CanSubmit(r.Final(), blk, refs)
    ensures Enabled(r.Final(), Submit(blk, refs))
    ensures var (s, h) := (r.Final(), r.Recorded());
            var h' := Extend(h, s, Submit(blk, refs));
            if |h.queued| - |h.drained| < r.n && EndByte(blk) <= 2048000000 && |s.f.refs| >= 11 then
              && |h'.queued| == |h.queued| + 1 && h.queued <= h'.queued
              && var req := h'.queued[|h.queued|];
                 && Describes(req, blk, refs) && h'.events == h.events + [Accept(req.seqNo, blk.tag, req)]
                 && req.seqNo < |s.f.shadow| && s.f.shadow[req.seqNo].request.None?
            else Step(s, Submit(blk, refs)) == s && h' == h
  {
    var s, h := r.Final(), r.Recorded();
    var g := ReachRun(r);
    RingSizeBounds(r.n);
    QueuesExactly(s, g, r.n, r.pool, r.refs, blk, refs);
    NewHistory(h, s, blk, refs);
    NewDescribes(s, blk, refs);
    if Queues(s, blk, refs) {
      NotFullHasFree(s, g, r.n, r.pool, r.refs, blk, refs);
      TopNotOutstanding(s.f.shadow, s.f.shadowFree, g.d);
    } else {
      NothingQueued(s, g, r.n, r.pool, r.refs, blk, refs);
    }
  }

  lemma TopNotOutstanding(shadow: seq<Shadow>, free: nat, g: Cargo)
    requires Logged(g) && IdInv(shadow, free, g) && |g.chain| > 0
    ensures free < |shadow| && shadow[free].request.None?
  {
    var top := |g.chain| - 1;
    assert g.place[g.chain[top]] == InChain(top);
    assert AtPlace(shadow, g, g.chain[top]);
  }
}
