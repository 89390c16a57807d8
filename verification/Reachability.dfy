/** Whole runs: every legal sequence of actions from the initialised system, and what holds after it. */
module Reachability {
  import opened RingMacros
  import opened Options
  import opened Protocol
  import opened System
  import opened Bag
  import opened Invariant
  import opened DataSteps
  import opened GrantSteps
  import opened QuietSteps
  import opened SystemSteps
  import opened AnswerSteps

  lemma QuietHistory(s: State, g: Ghost, a: Action)
    requires Enabled(s, a) && MovesNothing(a) && Logged(g.d)
    ensures EventOf(s, a) == None
    ensures LogsGrow(g.d, g.d, QueuedBy(s, a), CopiedBy(s, a), AnsweredBy(s, a), DrainedBy(s, a))
  {
    SameLogs(g.d, g.d);
  }

  /** One action keeps the invariant, moves the bag by its event, and extends the logs by its traffic. */
  ghost predicate Kept(s: State, g: Ghost, n: nat, pool: nat, total: multiset<nat>, a: Action, g': Ghost)
    requires Enabled(s, a)
  {
    && Inv(Step(s, a), g', n, pool, total)
    && BagMoves(g, g', EventOf(s, a))
    && LogsGrow(g.d, g'.d, QueuedBy(s, a), CopiedBy(s, a), AnsweredBy(s, a), DrainedBy(s, a))
  }

  lemma SubmitKeeps(s: State, g: Ghost, n: nat, pool: nat, total: multiset<nat>, a: Action) returns (g': Ghost)
    requires Enabled(s, a) && a.Submit? && Inv(s, g, n, pool, total)
    ensures Kept(s, g, n, pool, total, a, g')
  {
    g' := SubmitInv(s, g, n, pool, total, a.blk, a.refs);
  }

  lemma DrainKeeps(s: State, g: Ghost, n: nat, pool: nat, total: multiset<nat>, a: Action) returns (g': Ghost)
    requires Enabled(s, a) && a.DrainOne? && Inv(s, g, n, pool, total)
    ensures Kept(s, g, n, pool, total, a, g')
  {
    g' := DrainInv(s, g, n, pool, total, a.anyRsp);
  }

  lemma ConsumeKeeps(s: State, g: Ghost, n: nat, pool: nat, total: multiset<nat>, a: Action) returns (g': Ghost)
    requires Enabled(s, a) && a.Consume? && Inv(s, g, n, pool, total)
    ensures Kept(s, g, n, pool, total, a, g')
  {
    g' := ConsumeInv(s, g, n, pool, total, a.anyReq);
  }

  lemma DispatchKeeps(s: State, g: Ghost, n: nat, pool: nat, total: multiset<nat>, a: Action) returns (g': Ghost)
    requires Enabled(s, a) && a.Dispatch? && Inv(s, g, n, pool, total)
    ensures Kept(s, g, n, pool, total, a, g')
  {
    g' := DispatchInv(s, g, n, pool, total, a.outcome);
  }

  lemma BioKeeps(s: State, g: Ghost, n: nat, pool: nat, total: multiset<nat>, a: Action) returns (g': Ghost)
    requires Enabled(s, a) && a.BioDone? && Inv(s, g, n, pool, total)
    ensures Kept(s, g, n, pool, total, a, g')
  {
    g' := BioDoneInv(s, g, n, pool, total, a.p, a.error);
  }

  lemma QuietKeeps(s: State, g: Ghost, n: nat, pool: nat, total: multiset<nat>, a: Action) returns (g': Ghost)
    requires Enabled(s, a) && MovesNothing(a) && Inv(s, g, n, pool, total)
    ensures Kept(s, g, n, pool, total, a, g')
  {
    g' := QuietGhost(s, g, a);
    QuietInv(s, g, n, pool, total, a);
    QuietHistory(s, g, a);
  }

  lemma ReturnKeeps(s: State, g: Ghost, n: nat, pool: nat, total: multiset<nat>, a: Action)
    requires Enabled(s, a) && a.Return? && Inv(s, g, n, pool, total)
    ensures Kept(s, g, n, pool, total, a, g)
  {
    ReturnInv(s, g, n, pool, total, a.k);
    SameLogs(g.d, g.d);
  }

  lemma StepInv(s: State, g: Ghost, n: nat, pool: nat, total: multiset<nat>, a: Action) returns (g': Ghost)
    requires Enabled(s, a) && Inv(s, g, n, pool, total)
    ensures Kept(s, g, n, pool, total, a, g')
  {
    if a.Submit? {
      g' := SubmitKeeps(s, g, n, pool, total, a);
    } else if a.DrainOne? {
      g' := DrainKeeps(s, g, n, pool, total, a);
    } else if a.Consume? {
      g' := ConsumeKeeps(s, g, n, pool, total, a);
    } else if a.Dispatch? {
      g' := DispatchKeeps(s, g, n, pool, total, a);
    } else if a.BioDone? {
      g' := BioKeeps(s, g, n, pool, total, a);
    } else if a.Return? {
      ReturnKeeps(s, g, n, pool, total, a);
      g' := g;
    } else {
      g' := QuietKeeps(s, g, n, pool, total, a);
    }
  }

  // ---- histories

  /** What a run did: the specification's events, the requests queued and those the backend copied out,
      the responses written and those the frontend read. */
  datatype History = History(
    events: seq<Event>, queued: seq<Request>, copied: seq<Request>,
    answered: seq<Response>, drained: seq<Response>)

  const NO_HISTORY := History([], [], [], [], [])

  function Extend(h: History, s: State, a: Action): History
    requires Enabled(s, a)
  {
    History(h.events + (if EventOf(s, a).Some? then [EventOf(s, a).value] else []),
            h.queued + QueuedBy(s, a), h.copied + CopiedBy(s, a),
            h.answered + AnsweredBy(s, a), h.drained + DrainedBy(s, a))
  }

  function Record(h: History, s: State, acts: seq<Action>): History
    requires Legal(s, acts)
    decreases |acts|
  {
    if acts == [] then h else Record(Extend(h, s, acts[0]), Step(s, acts[0]), acts[1..])
  }

  ghost predicate Faithful(h: History, g: Cargo) {
    && Logged(g)
    && Replay(h.events) == Some(g.bag)
    && h.queued == g.reqLog && h.copied == g.reqLog[..g.reqCons]
    && h.answered == g.rspLog && h.drained == g.rspLog[..g.cursor]
  }

  lemma ReplayOne(events: seq<Event>, bag: Bag, e: Event)
    requires Replay(events) == Some(bag) && Allowed(bag, e)
    ensures Replay(events + [e]) == Some(Apply(bag, e))
  {
    assert (events + [e])[..|events|] == events;
  }

  lemma FaithfulMove(h: History, g: Ghost, g': Ghost, e: Option<Event>, queued: seq<Request>, copied: seq<Request>,
                     answered: seq<Response>, drained: seq<Response>)
    requires Faithful(h, g.d) && Logged(g'.d) && BagMoves(g, g', e)
    requires LogsGrow(g.d, g'.d, queued, copied, answered, drained)
    ensures Faithful(History(h.events + (if e.Some? then [e.value] else []), h.queued + queued, h.copied + copied,
                             h.answered + answered, h.drained + drained), g'.d)
  {
    if e.Some? {
      ReplayOne(h.events, g.d.bag, e.value);
    } else {
      assert h.events + [] == h.events;
    }
  }

  lemma FaithfulStep(h: History, s: State, g: Ghost, n: nat, pool: nat, total: multiset<nat>, a: Action)
    returns (g': Ghost)
    requires Enabled(s, a) && Inv(s, g, n, pool, total) && Faithful(h, g.d)
    ensures Inv(Step(s, a), g', n, pool, total)
    ensures Faithful(Extend(h, s, a), g'.d)
  {
    g' := StepInv(s, g, n, pool, total, a);
    FaithfulMove(h, g, g', EventOf(s, a), QueuedBy(s, a), CopiedBy(s, a), AnsweredBy(s, a), DrainedBy(s, a));
  }

  lemma {:induction false} RunInv(h: History, s: State, g: Ghost, n: nat, pool: nat, total: multiset<nat>,
                                  acts: seq<Action>) returns (g': Ghost)
    requires Legal(s, acts) && Inv(s, g, n, pool, total) && Faithful(h, g.d)
    ensures Inv(Exec(s, acts), g', n, pool, total)
    ensures Faithful(Record(h, s, acts), g'.d)
    decreases |acts|
  {
    if acts == [] {
      g' := g;
    } else {
      var g1 := FaithfulStep(h, s, g, n, pool, total, acts[0]);
      g' := RunInv(Extend(h, s, acts[0]), Step(s, acts[0]), g1, n, pool, total, acts[1..]);
    }
  }

  // ---- the initial state

  /** What module initialisation guarantees about its parameters. */
  ghost predicate Setup(n: nat, pool: nat, blockSize: nat) {
    RingSize(n) && blockSize >= 512
  }

  ghost function StartCargo(n: nat): Cargo {
    Cargo(0, 0, 0, 0, [], [], seq(n, (k: nat) requires k < n => n - 1 - k), map[],
          seq(n, (id: nat) requires id < n => InChain(n - 1 - id)), map[])
  }

  lemma {:induction false} NothingGranted(shadow: seq<Shadow>)
    requires forall id :: 0 <= id < |shadow| ==> shadow[id].request.None?
    ensures Granted(shadow) == multiset{}
  {
    if shadow != [] {
      NothingGranted(shadow[..|shadow| - 1]);
    }
  }

  /** Each id links to the next higher one. */
  ghost predicate Fresh(shadow: seq<Shadow>) {
    forall id :: 0 <= id < |shadow| ==>
      shadow[id].request.None? && shadow[id].req.seqNo == if id == |shadow| - 1 then LIST_END else id + 1
  }

  lemma InitLink(shadow: seq<Shadow>, id: nat)
    requires id < |shadow| < LIST_END && Fresh(shadow)
    ensures AtPlace(shadow, StartCargo(|shadow|), id)
  {
    var k := |shadow| - 1 - id;
    assert StartCargo(|shadow|).chain[k] == id;
  }

  lemma InitIds(shadow: seq<Shadow>)
    requires 0 < |shadow| < LIST_END && Fresh(shadow)
    ensures IdInv(shadow, 0, StartCargo(|shadow|)) && BagInv(shadow, StartCargo(|shadow|))
  {
    forall id | 0 <= id < |shadow|
      ensures AtPlace(shadow, StartCargo(|shadow|), id)
    {
      InitLink(shadow, id);
    }
  }

  lemma InitPool(n: nat, pool: nat, refs: multiset<nat>, blockSize: nat)
    requires n > 0
    ensures var s := Init(n, pool, refs, blockSize);
            && PoolInv(s.b, s.claim, s.bios, StartCargo(n))
            && HandleInv(s.b.handles, s.maps, StartCargo(n).jobs, pool)
  {
  }

  lemma InitInv(n: nat, pool: nat, refs: multiset<nat>, blockSize: nat) returns (g: Ghost)
    requires Setup(n, pool, blockSize)
    ensures n > 0 && Inv(Init(n, pool, refs, blockSize), g, n, pool, refs)
    ensures Faithful(NO_HISTORY, g.d)
  {
    RingSizeBounds(n);
    g := Ghost(0, 0, 0, 0, 0, StartCargo(n));
    var s := Init(n, pool, refs, blockSize);
    NothingGranted(s.f.shadow);
    InitIds(s.f.shadow);
    InitPool(n, pool, refs, blockSize);
    assert s.f.shadow == Init(n, 0, multiset{}, 512).f.shadow;
    assert SlotInv(s.sh.slots, g.d);
  }

  /** Every reachable state satisfies the invariant, with the logs that its run recorded. */
  lemma Reach(n: nat, pool: nat, refs: multiset<nat>, blockSize: nat, acts: seq<Action>) returns (g: Ghost)
    requires Setup(n, pool, blockSize) && n > 0 && Legal(Init(n, pool, refs, blockSize), acts)
    ensures Inv(Exec(Init(n, pool, refs, blockSize), acts), g, n, pool, refs)
    ensures Faithful(Record(NO_HISTORY, Init(n, pool, refs, blockSize), acts), g.d)
  {
    var g0 := InitInv(n, pool, refs, blockSize);
    g := RunInv(NO_HISTORY, Init(n, pool, refs, blockSize), g0, n, pool, refs, acts);
  }
}
