/** The frontend driver: the shadow table with its free list, the request path and the drain loops. */
module Frontend {
  import opened Word32
  import opened RingMacros
  import opened Handshake
  import opened Options
  import opened Protocol
  import System
  import opened SharedRing

  // ---- the drain loop as a function

  datatype Drained = Drained(f: Front, tags: seq<nat>, bug: bool)

  /** Responses i up to `limit`, with the block requests ended in order; stops at a BUG. */
  function DrainFrom(sh: Shared, f: Front, i: u32, limit: u32, garbage: Response): Drained
    requires |sh.slots| > 0
    decreases Sub(limit, i)
  {
    if i == limit then Drained(f, [], false)
    else
      StepCloser(i, limit);
      match DrainResponse(sh, f, i, garbage)
      case DrainBug => Drained(f, [], true)
      case Skipped(f1) => DrainFrom(sh, f1, Add(i, 1), limit, garbage)
      case Ended(f1, _, tag, _) =>
        var d := DrainFrom(sh, f1, Add(i, 1), limit, garbage);
        d.(tags := [tag] + d.tags)
  }

  /** `all` is `rest` after the block requests in `done` have been ended. */
  predicate Continues(all: Drained, done: seq<nat>, rest: Drained) {
    all.f == rest.f && all.bug == rest.bug && (!all.bug ==> all.tags == done + rest.tags)
  }

  lemma DrainFromStep(sh: Shared, f: Front, i: u32, limit: u32, garbage: Response, all: Drained, done: seq<nat>)
    requires |sh.slots| > 0 && i != limit && Continues(all, done, DrainFrom(sh, f, i, limit, garbage))
    ensures var r := DrainResponse(sh, f, i, garbage);
            && (r.DrainBug? ==> all.bug)
            && (r.Skipped? ==> Continues(all, done, DrainFrom(sh, r.f, Add(i, 1), limit, garbage)))
            && (r.Ended? ==> Continues(all, done + [r.tag], DrainFrom(sh, r.f, Add(i, 1), limit, garbage)))
  {
    StepCloser(i, limit);
  }

  /** A response ends a block request exactly if its id is a slot number, the shadow entry is marked as in flight and
      holds a block request, and its operation is 0 or 1; with another operation it is a BUG. The entry goes to the
      head of the free list, and its references are free again; so are those of an entry that has a request but is
      not marked. Nothing else changes. */
  lemma DrainedExactly(sh: Shared, f: Front, i: u32, garbage: Response)
    requires |sh.slots| > 0
    ensures var (r, rsp) := (DrainResponse(sh, f, i, garbage), AsResponse(sh.slots[Slot(i, |sh.slots|)], garbage));
            var id := rsp.seqNo;
            var held := id < |f.shadow| && f.shadow[id].request.Some?;
            var marked := held && f.shadow[id].req.seqNo == id;
            var refs := if held then f.refs + Grefs(f.shadow[id].req.segs) else f.refs;
            && (r.Ended? <==> marked && (rsp.op == 0 || rsp.op == 1))
            && (r.DrainBug? <==> marked && rsp.op != 0 && rsp.op != 1)
            && (r.Skipped? ==> r.f == f.(refs := refs))
            && (r.Ended? ==>
                  && Some(r.tag) == f.shadow[id].request && r.id == id && r.rsp == rsp
                  && r.f.refs == refs && r.f.shadowFree == id && r.f.reqPvt == f.reqPvt && r.f.rspCons == f.rspCons
                  && |r.f.shadow| == |f.shadow|
                  && (forall k :: 0 <= k < |f.shadow| && k != id ==> r.f.shadow[k] == f.shadow[k])
                  && r.f.shadow[id].request.None? && r.f.shadow[id].req == f.shadow[id].req.(seqNo := f.shadowFree))
  {
  }

  // ---- the driver

  class Driver {
    const page: Page
    const shadow: array<Shadow>
    var shadowFree: nat
    var reqPvt: u32
    var rspCons: u32
    var refs: multiset<nat>
    var waitingRsps: bool

    ghost predicate Valid()
      reads this, page
    {
      shadow.Length == page.slots.Length > 0
    }

    ghost function View(): Front
      reads this, shadow
    {
      Front(reqPvt, rspCons, shadow[..], shadowFree, refs)
    }

    /** FRONT_RING_INIT and the set-up of the free list. */
    constructor (page: Page, refs: multiset<nat>)
      requires page.slots.Length > 0
      ensures Valid() && this.page == page && fresh(shadow) && waitingRsps
      ensures shadow.Length == page.slots.Length && shadowFree == 0
      ensures forall k :: 0 <= k < shadow.Length ==>
                && shadow[k].req.seqNo == (if k == shadow.Length - 1 then 0x0fff_ffff else k + 1)
                && shadow[k].request.None?
      ensures forall blockSize, pool: nat :: View() == System.Init(page.slots.Length, pool, refs, blockSize).f
    {
      var n := page.slots.Length;
      var none := Request(0, 0, 0, []);
      var table := new Shadow[n](i => Shadow(none, None));
      for i := 0 to n
        invariant forall k :: 0 <= k < i ==> table[k] == Shadow(none.(seqNo := k + 1), None)
        invariant forall k :: i <= k < n ==> table[k] == Shadow(none, None)
      {
        table[i] := Shadow(table[i].req.(seqNo := i + 1), table[i].request);
      }
      table[n - 1] := Shadow(table[n - 1].req.(seqNo := LIST_END), table[n - 1].request);
      this.page, shadow, this.refs := page, table, refs;
      reqPvt, rspCons, shadowFree, waitingRsps := 0, 0, 0, true;
    }

    method GetIdFromFreelist() returns (id: nat)
      requires shadowFree < shadow.Length
      modifies this`shadowFree, shadow
      ensures id == old(shadowFree) && shadowFree == old(shadow[id].req.seqNo)
      ensures shadow[..] == old(shadow[..])[id := Shadow(old(shadow[id].req).(seqNo := 0x0fff_ffee),
                                                         old(shadow[id].request))]
    {
      id := shadowFree;
      shadowFree := shadow[id].req.seqNo;
      shadow[id] := Shadow(shadow[id].req.(seqNo := 0x0fff_ffee), shadow[id].request);
    }

    /** Refuses an id whose shadow entry is not marked as in flight; otherwise puts it at the head. */
    method AddIdToFreelist(id: nat) returns (ok: bool)
      requires id < shadow.Length
      modifies this`shadowFree, shadow
      ensures ok == (old(shadow[id].req.seqNo) == id && old(shadow[id].request).Some?)
      ensures !ok ==> View() == old(View())
      ensures ok ==> shadowFree == id
      ensures ok ==> shadow[..] == old(shadow[..])[id := Shadow(old(shadow[id].req).(seqNo := old(shadowFree)), None)]
    {
      if shadow[id].req.seqNo != id {
        return false;
      }
      if shadow[id].request == None {
        return false;
      }
      shadow[id] := Shadow(shadow[id].req.(seqNo := shadowFree), None);
      shadowFree := id;
      return true;
    }

    /** Fills the slot's segments one by one. */
    method FillSegments(slot: nat, sg: seq<Scatter>, claimed: seq<nat>)
      requires Valid() && |claimed| == |sg| && slot < page.slots.Length
      requires page.slots[slot].Req? && page.slots[slot].req.segs == []
      modifies page.slots
      ensures page.slots[..] == old(page.slots[..])[
        slot := Req(old(page.slots[slot].req).(segs := EncodeSegments(sg, claimed)))]
    {
      ghost var all := EncodeSegments(sg, claimed);
      for i := 0 to |sg|
        invariant page.slots[slot] == Req(old(page.slots[slot].req).(segs := all[..i]))
        invariant forall k :: 0 <= k < page.slots.Length && k != slot ==> page.slots[k] == old(page.slots[k])
      {
        var req := page.slots[slot].req;
        assert all[..i + 1] == all[..i] + [EncodeSegment(sg[i], claimed[i])];
        page.slots[slot] := Req(req.(segs := req.segs + [EncodeSegment(sg[i], claimed[i])]));
      }
      assert all[..|sg|] == all;
    }

    /** Queues one block request; the caller has made sure that the two BUG_ONs do not fire. */
    method QueueRequest(blk: BlkReq, claimed: seq<nat>) returns (queued: bool)
      requires Valid() && |claimed| == |blk.sg|
      requires !Protocol.QueueRequest(page.View(), View(), blk, claimed).QueueBug?
      modifies this, shadow, page.slots
      ensures Valid() && rspCons == old(rspCons)
      ensures var q := Protocol.QueueRequest(old(page.View()), old(View()), blk, claimed);
              if queued then q.Queued? && page.View() == q.sh && View() == q.f
              else q.Refused? && page.View() == old(page.View()) && View() == old(View())
    {
      if BeyondEnd(blk) || |refs| < MAX_SEGMENTS {
        return false;
      }
      var slot := Slot(reqPvt, page.slots.Length);
      var id := GetIdFromFreelist();
      shadow[id] := Shadow(shadow[id].req, Some(blk.tag));
      page.slots[slot] := Req(Request(id, blk.dir, blk.sector, []));
      FillSegments(slot, blk.sg, claimed);
      reqPvt := Add(reqPvt, 1);
      shadow[id] := Shadow(page.slots[slot].req, shadow[id].request);
      refs := refs - multiset(claimed);
      queued := true;
    }

    /** Publishes the queued requests, computes the unused notification test, and says whether to interrupt. */
    method FlushRequests() returns (notify: bool, interrupt: bool)
      modifies page`reqProd
      ensures page.View() == old(page.View()).(reqProd := reqPvt)
      ensures notify == MustNotify(old(page.reqProd), reqPvt, page.reqEvent)
      ensures interrupt == (page.reqStatus == Sleeping)
    {
      var old_, new_ := page.reqProd, reqPvt;
      page.reqProd := new_;
      notify := Sub(new_, page.reqEvent) < Sub(new_, old_);
      interrupt := page.reqStatus == Sleeping;
    }

    /** The body of both drain loops. */
    method DrainOne(i: u32, garbage: Response) returns (ended: Option<nat>, bug: bool)
      requires Valid()
      modifies this`shadowFree, this`refs, shadow
      ensures Valid()
      ensures match DrainResponse(page.View(), old(View()), i, garbage)
              case Skipped(f) => !bug && ended == None && View() == f
              case DrainBug => bug
              case Ended(f, _, tag, _) => !bug && ended == Some(tag) && View() == f
    {
      ended, bug := None, false;
      var slot := Slot(i, page.slots.Length);
      var rsp := AsResponse(page.slots[slot], garbage);
      var id := rsp.seqNo;
      if id >= shadow.Length {
        return;
      }
      var request := shadow[id].request;
      if request.Some? {
        refs := refs + Grefs(shadow[id].req.segs);
      }
      var ok := AddIdToFreelist(id);
      if !ok {
        return;
      }
      if rsp.op != 0 && rsp.op != 1 {
        bug := true;
        return;
      }
      ended := request;
    }

    /** A drain loop up to the snapshot `limit`; `tags` are the block requests ended, in order. */
    method Drain(limit: u32, garbage: Response) returns (tags: seq<nat>, bug: bool)
      requires Valid()
      modifies this, shadow
      ensures Valid() && reqPvt == old(reqPvt) && waitingRsps == old(waitingRsps)
      ensures var d := DrainFrom(page.View(), old(View()), old(rspCons), limit, garbage);
              bug == d.bug && (!bug ==> tags == d.tags && View() == d.f.(rspCons := limit))
    {
      tags, bug := [], false;
      var i := rspCons;
      ghost var all := DrainFrom(page.View(), View(), i, limit, garbage);
      while i != limit
        invariant Valid() && reqPvt == old(reqPvt) && rspCons == old(rspCons) && waitingRsps == old(waitingRsps)
        invariant page.View() == old(page.View())
        invariant Continues(all, tags, DrainFrom(page.View(), View(), i, limit, garbage))
        decreases Sub(limit, i)
      {
        DrainFromStep(page.View(), View(), i, limit, garbage, all, tags);
        var ended, failed := DrainOne(i, garbage);
        if failed {
          bug := true;
          return;
        }
        if ended.Some? {
          tags := tags + [ended.value];
        }
        StepCloser(i, limit);
        i := Add(i, 1);
      }
      rspCons := i;
    }

    /** RING_FINAL_CHECK_FOR_RESPONSES, run without interruption. */
    method FinalCheck() returns (more: bool)
      modifies page`rspEvent
      ensures more == (UnconsumedResponses(page.rspProd, rspCons) != 0)
      ensures page.View() == if more then old(page.View()) else old(page.View()).(rspEvent := Add(rspCons, 1))
    {
      more := Sub(page.rspProd, rspCons) != 0;
      if more {
        return;
      }
      page.rspEvent := Add(rspCons, 1);
      more := Sub(page.rspProd, rspCons) != 0;
    }

    /** The end of the response thread's round, run without interruption: it may go to sleep, and says whether
        the last check sends it round again. */
    method ConsiderSleeping(sleep: bool) returns (again: bool)
      modifies this`waitingRsps, page`rspStatus, page`rspEvent
      ensures var parks := sleep && old(page.rspStatus) == Running;
              && page.rspStatus == (if parks then Sleeping else old(page.rspStatus))
              && waitingRsps == (if parks then false else old(waitingRsps))
              && again == (parks && UnconsumedResponses(page.rspProd, rspCons) != 0)
              && page.View() == if parks && !again then old(page.View()).(rspEvent := Add(rspCons, 1))
                                else old(page.View())
    {
      again := false;
      if sleep && page.rspStatus == Running {
        page.rspStatus := Sleeping;
        waitingRsps := false;
        again := FinalCheck();
      }
    }

    method RingInterrupt() returns (wake: bool)
      modifies this`waitingRsps, page`rspStatus
      ensures waitingRsps && page.rspStatus == Running && wake == (old(page.rspStatus) == Sleeping)
    {
      waitingRsps := true;
      wake := page.LookAtResponseStatus();
    }
  }
}
