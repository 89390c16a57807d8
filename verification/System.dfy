/** The whole system as a state machine: frontend, backend, bio completions and interrupts, one atomic
    action at a time, in any order. */
module System {
  import opened Word32
  import opened RingMacros
  import opened Handshake
  import opened Options
  import opened Protocol

  /** What the holder of the queue lock is doing inside do_idd_request. */
  datatype Submitter = SubIdle | SubFlush | SubSignal | SubPoll | SubDrain(limit: u32)

  /** A request copied off the ring into a pool entry and not yet dispatched. */
  datatype Claim = Claim(p: nat, req: Request)

  /** `cursor` is the loop index of the running drain loop; `writing` says that the response lock is
      held between writing a response and pushing it; `bios` has one `p` for every unfinished bio of
      pool entry `p`; `bug` is set when a BUG or BUG_ON fires. */
  datatype State = State(
    blockSize: nat,
    sh: Shared, f: Front, b: Back,
    req: Channel, rsp: Channel,
    cursor: u32, sub: Submitter, claim: Option<Claim>, writing: bool,
    bios: multiset<nat>, maps: map<int, nat>, bug: bool)

  datatype Side = Requests | Responses

  datatype Action =
    | Submit(blk: BlkReq, refs: seq<nat>)
    | PushRequests
    | SignalBackend
    | Poll(giveUp: bool)
    | DrainOne(anyRsp: Response)
    | DrainDone
    | WakeUp(side: Side)
    | ReadIndex(side: Side)
    | KickDone
    | Sleepy(side: Side, sleep: bool)
    | SayAsleep(side: Side)
    | Unwait(side: Side)
    | Interrupt(side: Side)
    | Consume(anyReq: Request)
    | Dispatch(outcome: Outcome)
    | PassDone
    | BioDone(p: nat, error: bool)
    | PushResponse
    | SignalFrontend
    | Return(k: nat)

  function Chan(s: State, side: Side): Channel {
    if side.Requests? then s.req else s.rsp
  }

  function SetChan(s: State, side: Side, c: Channel): State {
    if side.Requests? then s.(req := c) else s.(rsp := c)
  }

  function Size(s: State): nat {
    |s.sh.slots|
  }

  /** The snapshot of the response index taken by the running drain loop, if one is running. */
  function DrainLimit(s: State): Option<u32> {
    if s.sub.SubDrain? then Some(s.sub.limit)
    else if s.rsp.at.Drain? then Some(s.rsp.at.limit)
    else None
  }

  predicate LockFree(s: State) {
    !s.writing && !s.rsp.signalling
  }

  predicate Reading(p: Point) {
    p.Scan? || p.Load? || p.Check1? || p.Check2? || p.Last1? || p.Last2?
  }

  function DispatchOf(s: State, o: Outcome): Dispatching
    requires s.claim.Some? && s.claim.value.p < |s.b.pool| && s.blockSize >= 512
    requires |o.row| == |o.refuse| == |s.claim.value.req.segs|
  {
    DispatchRequest(s.b, s.maps, s.blockSize, s.claim.value.p, s.claim.value.req, o)
  }

  // ---- when the data actions can happen

  predicate CanSubmit(s: State, blk: BlkReq, refs: seq<nat>) {
    && Size(s) > 0
    && s.sub.SubIdle? && (s.rsp.at.Top? || s.rsp.at.Asleep? || s.rsp.at.Kick?)
    && |refs| == |blk.sg| <= MAX_SEGMENTS && (blk.dir == 0 || blk.dir == 1)
    && (|s.f.refs| >= MAX_SEGMENTS ==> multiset(refs) <= s.f.refs)
  }

  predicate CanDrain(s: State) {
    Size(s) > 0 && DrainLimit(s).Some? && s.cursor != DrainLimit(s).value
  }

  predicate CanConsume(s: State) {
    Size(s) > 0 && s.req.at.Drain? && s.claim.None? && s.b.reqCons != s.req.at.limit
  }

  /** A rejection needs the response lock at once; a submission does not. */
  predicate CanDispatch(s: State, o: Outcome) {
    && Size(s) > 0
    && s.claim.Some? && s.claim.value.p < |s.b.pool| && s.blockSize >= 512
    && |o.row| == |o.refuse| == |s.claim.value.req.segs|
    && FreshHandles(s.maps, o.row)
    && (LockFree(s) || DispatchOf(s, o).Submitted?)
  }

  predicate CanFinishBio(s: State, p: nat) {
    Size(s) > 0 && p in s.bios && p < |s.b.pool| && (s.b.pool[p].pendcnt == 1 ==> LockFree(s))
  }

  /** The latest answer's responder holds the lock until it has signalled. */
  predicate CanReturn(s: State, k: nat) {
    k < |s.b.owed| && (k > 0 || LockFree(s))
  }

  predicate Enabled(s: State, a: Action) {
    && !s.bug && Size(s) > 0
    && match a
       case Submit(blk, refs) => CanSubmit(s, blk, refs)
       case PushRequests => s.sub.SubFlush?
       case SignalBackend => s.sub.SubSignal?
       case Poll(_) => s.sub.SubPoll?
       case DrainOne(_) => CanDrain(s)
       case DrainDone => DrainLimit(s).Some? && s.cursor == DrainLimit(s).value
       case WakeUp(side) =>
         Chan(s, side).at.Top? && (side.Responses? && s.rsp.waiting ==> s.sub.SubIdle?)
       case ReadIndex(side) =>
         && Reading(Chan(s, side).at)
         && (Chan(s, side).at.Scan? ==> side.Requests? && s.b.free != [])
       case KickDone => s.rsp.at.Kick? && s.sub.SubIdle?
       case Sleepy(side, _) => Chan(s, side).at.Decide?
       case SayAsleep(side) => Chan(s, side).at.Chosen?
       case Unwait(side) => Chan(s, side).at.Half?
       case Interrupt(side) => CanHandle(Chan(s, side))
       case Consume(_) => CanConsume(s)
       case Dispatch(o) => CanDispatch(s, o)
       case PassDone => s.req.at.Drain? && s.claim.None? && s.b.reqCons == s.req.at.limit
       case BioDone(p, _) => CanFinishBio(s, p)
       case PushResponse => s.writing
       case SignalFrontend => s.rsp.signalling
       case Return(k) => CanReturn(s, k)
  }

  function DoSubmit(s: State, blk: BlkReq, refs: seq<nat>): State
    requires CanSubmit(s, blk, refs)
  {
    if RingFull(Size(s), s.f.reqPvt, s.f.rspCons) then s
    else
      match QueueRequest(s.sh, s.f, blk, refs)
      case Refused => s
      case QueueBug => s.(bug := true)
      case Queued(sh, f, _) => s.(sh := sh, f := f, sub := SubFlush)
  }

  function DoDrainOne(s: State, anyRsp: Response): State
    requires CanDrain(s)
  {
    match DrainResponse(s.sh, s.f, s.cursor, anyRsp)
    case Skipped(f) => s.(f := f, cursor := Add(s.cursor, 1))
    case DrainBug => s.(bug := true)
    case Ended(f, _, _, _) => s.(f := f, cursor := Add(s.cursor, 1))
  }

  function DoDrainDone(s: State): State {
    var s1 := s.(f := s.f.(rspCons := s.cursor));
    var armed := s1.(sh := s.sh.(rspEvent := Add(s.cursor, 1)));
    if s.sub.SubDrain? then armed.(sub := SubPoll)
    else if s.cursor != s.f.reqPvt then s1.(rsp := s.rsp.(at := Check1))
    else armed.(rsp := s.rsp.(at := Kick))
  }

  function MoreToDo(s: State, side: Side): bool {
    if side.Requests? then UnconsumedRequests(Size(s), s.sh.reqProd, s.b.reqCons, s.b.rspPvt) != 0
    else UnconsumedResponses(s.sh.rspProd, s.f.rspCons) != 0
  }

  function Arm(s: State, side: Side): State {
    if side.Requests? then s.(sh := s.sh.(reqEvent := Add(s.b.reqCons, 1)))
    else s.(sh := s.sh.(rspEvent := Add(s.f.rspCons, 1)))
  }

  function DoReadIndex(s: State, side: Side): State
    requires Enabled(s, ReadIndex(side))
  {
    var c := Chan(s, side);
    match c.at
    case Scan =>
      var more := s.b.reqCons != s.sh.reqProd && !ConsOverflow(Size(s), s.b.reqCons, s.b.rspPvt);
      SetChan(s, side, c.(at := if more then Load else Decide))
    case Load =>
      if side.Requests? then SetChan(s, side, c.(at := Drain(s.sh.reqProd)))
      else SetChan(s.(cursor := s.f.rspCons), side, c.(at := Drain(s.sh.rspProd)))
    case _ =>
      var s1 := if (c.at.Check1? || c.at.Last1?) && !MoreToDo(s, side) then Arm(s, side) else s;
      SetChan(s1, side, c.(at := FinalCheck(c.at, MoreToDo(s, side),
        if side.Requests? then Scan else Load, if side.Requests? then Decide else Kick)))
  }

  function DoConsume(s: State, anyReq: Request): State
    requires CanConsume(s)
  {
    if ConsOverflow(Size(s), s.b.reqCons, s.b.rspPvt) then s.(req := s.req.(at := Check1))
    else if s.b.free == [] then s.(req := BreakOff(s.req))
    else
      var req := AsRequest(s.sh.slots[Slot(s.b.reqCons, Size(s))], anyReq);
      s.(b := s.b.(free := s.b.free[1..], reqCons := Add(s.b.reqCons, 1)),
         claim := Some(Claim(s.b.free[0], req)))
  }

  function Answer(s: State, b: Back, maps: map<int, nat>, p: nat, rsp: Response): State
    requires Size(s) > 0
  {
    var (sh, b1) := WriteResponse(s.sh, b, p, rsp);
    s.(sh := sh, b := b1, maps := maps, writing := true)
  }

  function DoDispatch(s: State, o: Outcome): State
    requires CanDispatch(s, o)
  {
    var Claim(p, req) := s.claim.value;
    match DispatchOf(s, o)
    case UnmapFailed => s.(bug := true)
    case Rejected(b, maps) =>
      Answer(s.(claim := None, req := s.req.(at := Check1)), b, maps, p, Response(req.seqNo, req.dir, -1))
    case Submitted(b, maps, bios) =>
      s.(b := b, maps := maps, claim := None, bios := s.bios[p := s.bios[p] + bios])
  }

  function DoBioDone(s: State, p: nat, error: bool): State
    requires CanFinishBio(s, p)
  {
    var s1 := s.(bios := s.bios[p := s.bios[p] - 1]);
    match EndBlockIo(s.b, s.maps, p, error)
    case More(b) => s1.(b := b)
    case EndBug => s1.(bug := true)
    case Last(b, maps, rsp) => Answer(s1, b, maps, p, rsp)
  }

  function Step(s: State, a: Action): State
    requires Enabled(s, a)
  {
    match a
    case Submit(blk, refs) => DoSubmit(s, blk, refs)
    case PushRequests => s.(sh := s.sh.(reqProd := s.f.reqPvt), req := Push(s.req), sub := SubSignal)
    case SignalBackend => s.(req := Signal(s.req), sub := SubPoll)
    case Poll(giveUp) =>
      if s.sh.rspProd != s.f.rspCons then s.(sub := SubDrain(s.sh.rspProd), cursor := s.f.rspCons)
      else if giveUp then s.(sub := SubIdle) else s
    case DrainOne(anyRsp) => DoDrainOne(s, anyRsp)
    case DrainDone => DoDrainDone(s)
    case WakeUp(side) => SetChan(s, side, Wake(Chan(s, side), if side.Requests? then Scan else Load))
    case ReadIndex(side) => DoReadIndex(s, side)
    case KickDone => s.(rsp := s.rsp.(at := Decide))
    case Sleepy(side, sleep) => SetChan(s, side, DecideSleep(Chan(s, side), sleep))
    case SayAsleep(side) => SetChan(s, side, StoreSleeping(Chan(s, side)))
    case Unwait(side) => SetChan(s, side, ClearWaiting(Chan(s, side)))
    case Interrupt(side) => SetChan(s, side, Handle(Chan(s, side)))
    case Consume(anyReq) => DoConsume(s, anyReq)
    case Dispatch(o) => DoDispatch(s, o)
    case PassDone => s.(req := s.req.(at := Check1))
    case BioDone(p, error) => DoBioDone(s, p, error)
    case PushResponse => s.(sh := s.sh.(rspProd := s.b.rspPvt), rsp := Push(s.rsp), writing := false)
    case SignalFrontend => s.(rsp := Signal(s.rsp))
    case Return(k) => s.(b := ReturnEntry(s.b, k))
  }

  /** The state after module initialisation, for a ring of n entries and a pool of `pool` entries. */
  function Init(n: nat, pool: nat, refs: multiset<nat>, blockSize: nat): State
    requires n > 0
  {
    var none := Request(0, 0, 0, []);
    State(blockSize,
          Shared(0, 1, 0, 1, seq(n, i => Req(none))),
          Front(0, 0, seq(n, (i: nat) => Shadow(none.(seqNo := if i == n - 1 then LIST_END else i + 1), None)),
                0, refs),
          Back(0, 0, seq(pool, (i: nat) => i), [], seq(pool, i => Pending(0, 0, 0, 0, 0)),
               seq(11 * pool, i => INVALID_HANDLE)),
          START, START,
          0, SubIdle, None, false, multiset{}, map[], false)
  }

  predicate Legal(s: State, acts: seq<Action>)
    decreases |acts|
  {
    acts == [] || (Enabled(s, acts[0]) && Legal(Step(s, acts[0]), acts[1..]))
  }

  function Exec(s: State, acts: seq<Action>): State
    requires Legal(s, acts)
    decreases |acts|
  {
    if acts == [] then s else Exec(Step(s, acts[0]), acts[1..])
  }

  lemma Prepend(s: State, a: Action, acts: seq<Action>)
    requires Enabled(s, a) && Legal(Step(s, a), acts)
    ensures Legal(s, [a] + acts) && Exec(s, [a] + acts) == Exec(Step(s, a), acts)
  {
    assert ([a] + acts)[1..] == acts;
  }
}
