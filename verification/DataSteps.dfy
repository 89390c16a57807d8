/** How queueing, consuming, answering and draining move a request, and what each move keeps. */
module DataSteps {
  import opened Word32
  import opened Options
  import opened Protocol
  import opened System
  import opened Bag
  import opened Invariant

  // ---- moves of the ghost state

  ghost function Queue(g: Cargo, req: Request, tag: nat): Cargo
    requires req.seqNo < |g.place| && |g.chain| > 0
  {
    g.(reqPvt := g.reqPvt + 1, reqLog := g.reqLog + [req],
       chain := g.chain[..|g.chain| - 1],
       place := g.place[req.seqNo := InQueue(g.reqPvt)],
       bag := g.bag[req.seqNo := Outstanding(tag, req, false)])
  }

  ghost function Take(g: Cargo, p: nat): Cargo
    requires g.reqCons < |g.reqLog| && g.reqLog[g.reqCons].seqNo < |g.place|
  {
    var req := g.reqLog[g.reqCons];
    g.(reqCons := g.reqCons + 1, jobs := g.jobs[p := Job(req, false, false)],
       place := g.place[req.seqNo := AtBackend(p)])
  }

  ghost function Begin(g: Cargo, p: nat): Cargo
    requires p in g.jobs
  {
    g.(jobs := g.jobs[p := g.jobs[p].(submitted := true)])
  }

  ghost function Fail(g: Cargo, p: nat): Cargo
    requires p in g.jobs && g.jobs[p].req.seqNo in g.bag
  {
    var id := g.jobs[p].req.seqNo;
    g.(jobs := g.jobs[p := g.jobs[p].(failed := true)], bag := g.bag[id := g.bag[id].(failed := true)])
  }

  ghost function Reply(g: Cargo, p: nat, rsp: Response): Cargo
    requires rsp.seqNo < |g.place|
  {
    g.(rspPvt := g.rspPvt + 1, rspLog := g.rspLog + [rsp], jobs := g.jobs - {p},
       place := g.place[rsp.seqNo := InAnswer(g.rspPvt)])
  }

  ghost function Retire(g: Cargo): Cargo
    requires g.cursor < |g.rspLog| && g.rspLog[g.cursor].seqNo < |g.place|
  {
    var id := g.rspLog[g.cursor].seqNo;
    g.(cursor := g.cursor + 1, chain := g.chain + [id],
       place := g.place[id := InChain(|g.chain|)], bag := g.bag - {id})
  }

  // ---- slots

  lemma WriteRequestSlot(slots: seq<Entry>, g: Cargo, req: Request, tag: nat)
    requires |slots| > 0 && Logged(g) && SlotInv(slots, g) && g.reqPvt < g.cursor + |slots|
    requires req.seqNo < |g.place| && |g.chain| > 0
    ensures SlotInv(slots[g.reqPvt % |slots| := Req(req)], Queue(g, req, tag))
  {
    forall i | g.cursor <= i < g.reqPvt
      ensures i % |slots| != g.reqPvt % |slots|
    {
      ModDistinct(i, g.reqPvt, |slots|);
    }
  }

  lemma WriteResponseSlot(slots: seq<Entry>, g: Cargo, p: nat, rsp: Response)
    requires |slots| > 0 && Logged(g) && SlotInv(slots, g) && g.reqPvt <= g.cursor + |slots| && g.rspPvt < g.reqCons
    requires rsp.seqNo < |g.place|
    ensures SlotInv(slots[g.rspPvt % |slots| := Rsp(rsp)], Reply(g, p, rsp))
  {
    forall i | g.cursor <= i < g.reqPvt && i != g.rspPvt
      ensures i % |slots| != g.rspPvt % |slots|
    {
      if i < g.rspPvt {
        ModDistinct(i, g.rspPvt, |slots|);
      } else {
        ModDistinct(g.rspPvt, i, |slots|);
      }
    }
  }

  // ---- ids

  lemma QueueIds(shadow: seq<Shadow>, free: nat, g: Cargo, req: Request, tag: nat)
    requires Logged(g) && IdInv(shadow, free, g) && |g.chain| > 0
    requires req.seqNo == free && (req.dir == 0 || req.dir == 1)
    ensures free < |shadow| && shadow[free].request.None?
    ensures IdInv(shadow[free := Shadow(req, Some(tag))], shadow[free].req.seqNo, Queue(g, req, tag))
  {
    assert g.place[g.chain[|g.chain| - 1]] == InChain(|g.chain| - 1);
    assert AtPlace(shadow, g, free);
    var shadow' := shadow[free := Shadow(req, Some(tag))];
    forall id | 0 <= id < |shadow|
      ensures AtPlace(shadow', Queue(g, req, tag), id)
    {
      QueuePlace(shadow, free, g, req, tag, id);
    }
  }

  lemma QueuePlace(shadow: seq<Shadow>, free: nat, g: Cargo, req: Request, tag: nat, id: nat)
    requires Logged(g) && IdInv(shadow, free, g) && |g.chain| > 0
    requires req.seqNo == free < |shadow| && (req.dir == 0 || req.dir == 1)
    requires g.place[free] == InChain(|g.chain| - 1) && id < |shadow|
    ensures AtPlace(shadow[free := Shadow(req, Some(tag))], Queue(g, req, tag), id)
  {
    assert AtPlace(shadow, g, id);
  }

  lemma TakeIds(shadow: seq<Shadow>, free: nat, g: Cargo, p: nat)
    requires Logged(g) && IdInv(shadow, free, g) && g.reqCons < g.reqPvt && p !in g.jobs
    ensures g.reqLog[g.reqCons].seqNo < |g.place|
    ensures IdInv(shadow, free, Take(g, p))
  {
    var id0 := g.reqLog[g.reqCons].seqNo;
    assert g.place[id0] == InQueue(g.reqCons);
    var g' := Take(g, p);
    forall id | 0 <= id < |shadow|
      ensures AtPlace(shadow, g', id)
    {
      assert AtPlace(shadow, g, id);
    }
  }

  lemma BeginIds(shadow: seq<Shadow>, free: nat, g: Cargo, p: nat)
    requires Logged(g) && IdInv(shadow, free, g) && p in g.jobs
    ensures IdInv(shadow, free, Begin(g, p))
  {
    var g' := Begin(g, p);
    forall id | 0 <= id < |shadow|
      ensures AtPlace(shadow, g', id)
    {
      assert AtPlace(shadow, g, id);
    }
  }

  lemma FailIds(shadow: seq<Shadow>, free: nat, g: Cargo, p: nat)
    requires Logged(g) && IdInv(shadow, free, g) && p in g.jobs && g.jobs[p].req.seqNo in g.bag
    ensures IdInv(shadow, free, Fail(g, p))
  {
    var g' := Fail(g, p);
    forall id | 0 <= id < |shadow|
      ensures AtPlace(shadow, g', id)
    {
      assert AtPlace(shadow, g, id);
    }
  }

  lemma ReplyIds(shadow: seq<Shadow>, free: nat, g: Cargo, p: nat, rsp: Response)
    requires Logged(g) && IdInv(shadow, free, g) && p in g.jobs && g.rspPvt < g.reqCons
    requires rsp.seqNo == g.jobs[p].req.seqNo && rsp.op == g.jobs[p].req.dir
    ensures rsp.seqNo < |g.place|
    ensures IdInv(shadow, free, Reply(g, p, rsp))
  {
    assert g.place[rsp.seqNo] == AtBackend(p);
    var g' := Reply(g, p, rsp);
    forall id | 0 <= id < |shadow|
      ensures AtPlace(shadow, g', id)
    {
      assert AtPlace(shadow, g, id);
    }
    forall q | q in g'.jobs
      ensures var id := g'.jobs[q].req.seqNo;
              id < |shadow| && g'.place[id] == AtBackend(q) && shadow[id].req == g'.jobs[q].req
    {
      assert g.place[g.jobs[q].req.seqNo] == AtBackend(q);
    }
  }

  lemma RetireIds(shadow: seq<Shadow>, free: nat, g: Cargo)
    requires Logged(g) && IdInv(shadow, free, g) && g.cursor < g.rspPvt
    ensures var id := g.rspLog[g.cursor].seqNo;
            && id < |g.place| && Busy(shadow[id], id)
            && IdInv(shadow[id := Shadow(shadow[id].req.(seqNo := free), None)], id, Retire(g))
  {
    var id0 := g.rspLog[g.cursor].seqNo;
    assert g.place[id0] == InAnswer(g.cursor);
    assert AtPlace(shadow, g, id0);
    var g' := Retire(g);
    var shadow' := shadow[id0 := Shadow(shadow[id0].req.(seqNo := free), None)];
    forall id | 0 <= id < |shadow|
      ensures AtPlace(shadow', g', id)
    {
      RetirePlace(shadow, free, g, id0, id);
    }
  }

  lemma RetirePlace(shadow: seq<Shadow>, free: nat, g: Cargo, id0: nat, id: nat)
    requires Logged(g) && IdInv(shadow, free, g) && g.cursor < g.rspPvt && id < |shadow|
    requires id0 == g.rspLog[g.cursor].seqNo < |shadow| && g.place[id0] == InAnswer(g.cursor)
    ensures AtPlace(shadow[id0 := Shadow(shadow[id0].req.(seqNo := free), None)], Retire(g), id)
  {
    assert AtPlace(shadow, g, id);
  }
}
