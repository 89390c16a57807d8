/** The actions that move no request: control flow, index pushes, interrupts and the sleep handshake. */
module QuietSteps {
  import opened Word32
  import opened RingMacros
  import opened Handshake
  import opened System
  import opened Invariant

  predicate MovesNothing(a: Action) {
    !a.Submit? && !a.DrainOne? && !a.Consume? && !a.Dispatch? && !a.BioDone? && !a.Return?
  }

  ghost function QuietGhost(s: State, g: Ghost, a: Action): Ghost {
    match a
    case PushRequests => g.(reqProd := g.d.reqPvt)
    case Poll(_) => if s.sh.rspProd != s.f.rspCons then g.(snap := g.rspProd) else g
    case DrainDone => g.(rspCons := g.d.cursor)
    case ReadIndex(side) =>
      if !Chan(s, side).at.Load? then g
      else if side.Requests? then g.(pass := g.reqProd) else g.(snap := g.rspProd)
    case PushResponse => g.(rspProd := g.d.rspPvt)
    case _ => g
  }

  ghost predicate SameData(s: State, s': State) {
    && s'.sh.slots == s.sh.slots && s'.b == s.b && s'.claim == s.claim && s'.bios == s.bios
    && s'.maps == s.maps && s'.f == s.f.(rspCons := s'.f.rspCons)
    && s'.blockSize == s.blockSize && s'.bug == s.bug
  }

  lemma ReadKeepsData(s: State, side: Side)
    requires Enabled(s, ReadIndex(side))
    ensures SameData(s, DoReadIndex(s, side))
  {
  }

  lemma QuietKeepsData(s: State, a: Action)
    requires Enabled(s, a) && MovesNothing(a)
    ensures SameData(s, Step(s, a))
  {
    if a.ReadIndex? {
      ReadKeepsData(s, a.side);
    }
  }

  lemma Guards(s: State, g: Ghost, n: nat)
    requires RingSize(n) && Size(s) == n && Order(g, n) && Stored(s, g)
    ensures n <= 0x800_0000
    ensures RingFull(n, s.f.reqPvt, s.f.rspCons) <==> g.d.reqPvt == g.rspCons + n
    ensures ConsOverflow(n, s.b.reqCons, s.b.rspPvt) ==> g.reqProd == g.d.reqCons
    ensures MoreToDo(s, Requests) <==> UnreadRequests(s)
    ensures MoreToDo(s, Responses) <==> UnreadResponses(s)
    ensures UnreadRequests(s) <==> g.d.reqCons < g.reqProd
    ensures UnreadResponses(s) <==> g.rspCons < g.rspProd
  {
    RingSizeBounds(n);
    GuardsExact(n, g.rspCons, g.d.rspPvt, g.d.reqCons, g.reqProd, g.d.reqPvt);
    WrapInjective(g.rspProd, g.rspCons);
    SubWrap(g.rspProd, g.rspCons);
  }

  // ---- counters and control

  lemma FlushFrame(s: State, g: Ghost, n: nat, a: Action)
    requires Frame(s, g, n) && Enabled(s, a) && (a.PushRequests? || a.SignalBackend?)
    ensures Frame(Step(s, a), QuietGhost(s, g, a), n)
  {
  }

  lemma PollFrame(s: State, g: Ghost, n: nat, a: Action)
    requires Frame(s, g, n) && Enabled(s, a) && a.Poll?
    ensures Frame(Step(s, a), QuietGhost(s, g, a), n)
  {
  }

  lemma DrainDoneFrame(s: State, g: Ghost, n: nat)
    requires Frame(s, g, n) && Enabled(s, DrainDone)
    ensures Frame(Step(s, DrainDone), QuietGhost(s, g, DrainDone), n)
  {
  }

  lemma SideFrame(s: State, g: Ghost, n: nat, side: Side, c: Channel)
    requires Frame(s, g, n) && !Chan(s, side).at.Drain? && !c.at.Drain? && c.signalling == Chan(s, side).signalling
    requires !s.sub.SubIdle? && side.Responses? ==> c.at.Top? || c.at.Asleep? || c.at.Kick?
    requires side.Responses? ==> !c.cut
    ensures Frame(SetChan(s, side, c), g, n)
  {
  }

  lemma ThreadFrame(s: State, g: Ghost, n: nat, a: Action)
    requires Frame(s, g, n) && Enabled(s, a) && (a.WakeUp? || a.KickDone?)
    ensures Frame(Step(s, a), g, n)
  {
    var side := if a.KickDone? then Responses else a.side;
    SideFrame(s, g, n, side, Chan(Step(s, a), side));
  }

  /** A thread's step from the status word to the second store. */
  ghost predicate SleepMove(c: Channel, c': Channel) {
    && !c.at.Drain? && !(c.at.Top? || c.at.Asleep? || c.at.Kick?)
    && (c'.at.Top? || c'.at.Chosen? || c'.at.Half? || c'.at.Last1?)
    && c'.signalling == c.signalling && (!c.cut ==> !c'.cut)
  }

  lemma SleepMoves(c: Channel)
    ensures c.at.Decide? ==> SleepMove(c, DecideSleep(c, true)) && SleepMove(c, DecideSleep(c, false))
    ensures c.at.Chosen? ==> SleepMove(c, StoreSleeping(c))
    ensures c.at.Half? ==> SleepMove(c, ClearWaiting(c))
  {
  }

  lemma SleepStep(s: State, a: Action)
    requires Enabled(s, a) && (a.Sleepy? || a.SayAsleep? || a.Unwait?)
    ensures var c' := Chan(Step(s, a), a.side); Step(s, a) == SetChan(s, a.side, c') && SleepMove(Chan(s, a.side), c')
  {
    SleepMoves(Chan(s, a.side));
  }

  lemma SleepFrame(s: State, g: Ghost, n: nat, a: Action)
    requires Frame(s, g, n) && Enabled(s, a) && (a.Sleepy? || a.SayAsleep? || a.Unwait?)
    ensures Frame(Step(s, a), g, n)
  {
    SleepStep(s, a);
    SideFrame(s, g, n, a.side, Chan(Step(s, a), a.side));
  }

  lemma PassDoneFrame(s: State, g: Ghost, n: nat)
    requires Frame(s, g, n) && Enabled(s, PassDone)
    ensures Frame(Step(s, PassDone), g, n)
  {
  }

  lemma InterruptFrame(s: State, g: Ghost, n: nat, side: Side)
    requires Frame(s, g, n) && Enabled(s, Interrupt(side))
    ensures Frame(Step(s, Interrupt(side)), g, n)
  {
    var c := Chan(s, side);
    if c.at.Drain? {
      InterruptInDrain(s, g, n, side);
    } else {
      SideFrame(s, g, n, side, Handle(c));
    }
  }

  lemma InterruptInDrain(s: State, g: Ghost, n: nat, side: Side)
    requires Frame(s, g, n) && Enabled(s, Interrupt(side)) && Chan(s, side).at.Drain?
    ensures Frame(Step(s, Interrupt(side)), g, n)
  {
  }

  lemma LoadFrame(s: State, g: Ghost, n: nat, side: Side)
    requires Frame(s, g, n) && Enabled(s, ReadIndex(side)) && Chan(s, side).at.Load?
    ensures Frame(Step(s, ReadIndex(side)), QuietGhost(s, g, ReadIndex(side)), n)
  {
  }

  lemma ReadRequestsEffect(s: State)
    requires Enabled(s, ReadIndex(Requests)) && !s.req.at.Load?
    ensures var s' := Step(s, ReadIndex(Requests));
            && !s.req.at.Drain? && !s'.req.at.Drain?
            && s' == s.(sh := s.sh.(reqEvent := s'.sh.reqEvent), req := s.req.(at := s'.req.at))
  {
  }

  lemma ReadRequestsFrame(s: State, g: Ghost, n: nat)
    requires Frame(s, g, n) && Enabled(s, ReadIndex(Requests)) && !s.req.at.Load?
    ensures Frame(Step(s, ReadIndex(Requests)), g, n)
  {
    ReadRequestsEffect(s);
    var s' := Step(s, ReadIndex(Requests));
    assert Order(g, n) && Stored(s', g);
  }

  lemma ReadResponsesFrame(s: State, g: Ghost, n: nat)
    requires Frame(s, g, n) && Enabled(s, ReadIndex(Responses)) && !s.rsp.at.Load?
    ensures Frame(Step(s, ReadIndex(Responses)), g, n)
  {
  }

  lemma ReadIndexFrame(s: State, g: Ghost, n: nat, side: Side)
    requires Frame(s, g, n) && Enabled(s, ReadIndex(side))
    ensures Frame(Step(s, ReadIndex(side)), QuietGhost(s, g, ReadIndex(side)), n)
  {
    if Chan(s, side).at.Load? {
      LoadFrame(s, g, n, side);
    } else if side.Requests? {
      ReadRequestsFrame(s, g, n);
    } else {
      ReadResponsesFrame(s, g, n);
    }
  }

  lemma PushResponseFrame(s: State, g: Ghost, n: nat, a: Action)
    requires Frame(s, g, n) && Enabled(s, a) && (a.PushResponse? || a.SignalFrontend?)
    ensures Frame(Step(s, a), QuietGhost(s, g, a), n)
  {
  }

  // ---- channels

  lemma FlushChannels(s: State, g: Ghost, n: nat, a: Action)
    requires Frame(s, g, n) && Channels(s) && Enabled(s, a)
    requires a.PushRequests? || a.SignalBackend? || a.Poll? || a.PushResponse? || a.SignalFrontend?
    ensures Channels(Step(s, a))
  {
    var s' := Step(s, a);
    NextInv(s.req, UnreadRequests(s), s'.req, UnreadRequests(s'));
    NextInv(s.rsp, UnreadResponses(s), s'.rsp, UnreadResponses(s'));
  }

  lemma DrainDoneChannels(s: State, g: Ghost, n: nat)
    requires RingSize(n) && Frame(s, g, n) && Channels(s) && Enabled(s, DrainDone)
    ensures Channels(Step(s, DrainDone))
  {
    var s' := Step(s, DrainDone);
    Guards(s, g, n);
    WrapInjective(g.rspProd, g.d.cursor);
    WrapInjective(g.d.reqPvt, g.d.cursor);
    NextInv(s.rsp, UnreadResponses(s), s'.rsp, UnreadResponses(s'));
  }

  lemma SideChannels(s: State, side: Side, c': Channel)
    requires Channels(s)
    requires ThreadStep(Chan(s, side), if side.Requests? then UnreadRequests(s) else UnreadResponses(s), c')
    ensures Channels(SetChan(s, side, c'))
  {
    ThreadInv(Chan(s, side), if side.Requests? then UnreadRequests(s) else UnreadResponses(s), c');
  }

  lemma ThreadChannels(s: State, a: Action)
    requires Channels(s) && Enabled(s, a) && (a.WakeUp? || a.KickDone?)
    ensures Channels(Step(s, a))
  {
    var side := if a.KickDone? then Responses else a.side;
    SideChannels(s, side, Chan(Step(s, a), side));
  }

  lemma SleepChannels(s: State, a: Action)
    requires Channels(s) && Enabled(s, a) && (a.Sleepy? || a.SayAsleep? || a.Unwait?)
    ensures Channels(Step(s, a))
  {
    SideChannels(s, a.side, Chan(Step(s, a), a.side));
  }

  lemma InterruptChannels(s: State, side: Side)
    requires Channels(s) && Enabled(s, Interrupt(side))
    ensures Channels(Step(s, Interrupt(side)))
  {
    HandlerInv(Chan(s, side), if side.Requests? then UnreadRequests(s) else UnreadResponses(s));
  }

  lemma PassDoneChannels(s: State)
    requires Channels(s) && Enabled(s, PassDone)
    ensures Channels(Step(s, PassDone))
  {
    var s' := Step(s, PassDone);
    NextInv(s.req, UnreadRequests(s), s'.req, UnreadRequests(s'));
  }

  lemma CheckIsThreadStep(c: Channel, u: bool, entry: Point, quiet: Point)
    requires c.at.Check1? || c.at.Check2? || c.at.Last1? || c.at.Last2?
    requires (entry.Scan? || entry.Load?) && (quiet.Kick? || quiet.Decide?)
    ensures ThreadStep(c, u, c.(at := FinalCheck(c.at, u, entry, quiet)))
  {
  }

  lemma ReadIndexChannels(s: State, g: Ghost, n: nat, side: Side)
    requires RingSize(n) && Frame(s, g, n) && Channels(s) && Enabled(s, ReadIndex(side))
    ensures Channels(Step(s, ReadIndex(side)))
  {
    var s' := Step(s, ReadIndex(side));
    var c := Chan(s, side);
    Guards(s, g, n);
    if c.at.Scan? || c.at.Load? {
      NextInv(c, MoreToDo(s, side), Chan(s', side), MoreToDo(s, side));
    } else {
      FinalCheckChannels(s, g, n, side);
    }
  }

  lemma FinalCheckChannels(s: State, g: Ghost, n: nat, side: Side)
    requires RingSize(n) && Frame(s, g, n) && Channels(s) && Enabled(s, ReadIndex(side))
    requires !Chan(s, side).at.Scan? && !Chan(s, side).at.Load?
    ensures Channels(Step(s, ReadIndex(side)))
  {
    var s' := Step(s, ReadIndex(side));
    var c := Chan(s, side);
    Guards(s, g, n);
    CheckIsThreadStep(c, MoreToDo(s, side), if side.Requests? then Scan else Load,
                      if side.Requests? then Decide else Kick);
    NextInv(c, MoreToDo(s, side), Chan(s', side), MoreToDo(s, side));
  }

  // ---- together

  lemma QuietFrame(s: State, g: Ghost, n: nat, a: Action)
    requires Frame(s, g, n) && Enabled(s, a) && MovesNothing(a)
    ensures Frame(Step(s, a), QuietGhost(s, g, a), n)
  {
    match a
    case PushRequests | SignalBackend => FlushFrame(s, g, n, a);
    case Poll(_) => PollFrame(s, g, n, a);
    case DrainDone => DrainDoneFrame(s, g, n);
    case Interrupt(side) => InterruptFrame(s, g, n, side);
    case ReadIndex(side) => ReadIndexFrame(s, g, n, side);
    case PushResponse | SignalFrontend => PushResponseFrame(s, g, n, a);
    case PassDone => PassDoneFrame(s, g, n);
    case WakeUp(_) | KickDone => ThreadFrame(s, g, n, a);
    case _ => SleepFrame(s, g, n, a);
  }

  lemma QuietChannels(s: State, g: Ghost, n: nat, a: Action)
    requires RingSize(n) && Frame(s, g, n) && Channels(s) && Enabled(s, a) && MovesNothing(a)
    ensures Channels(Step(s, a))
  {
    match a
    case PushRequests | SignalBackend | Poll(_) | PushResponse | SignalFrontend => FlushChannels(s, g, n, a);
    case DrainDone => DrainDoneChannels(s, g, n);
    case ReadIndex(side) => ReadIndexChannels(s, g, n, side);
    case PassDone => PassDoneChannels(s);
    case KickDone | WakeUp(_) => ThreadChannels(s, a);
    case Sleepy(_, _) | SayAsleep(_) | Unwait(_) => SleepChannels(s, a);
    case Interrupt(side) => InterruptChannels(s, side);
  }

  /** Every quiet action keeps the invariant and leaves the bag alone. */
  lemma QuietInv(s: State, g: Ghost, n: nat, pool: nat, total: multiset<nat>, a: Action)
    requires Inv(s, g, n, pool, total) && Enabled(s, a) && MovesNothing(a)
    ensures Inv(Step(s, a), QuietGhost(s, g, a), n, pool, total)
    ensures QuietGhost(s, g, a).d == g.d
  {
    QuietKeepsData(s, a);
    QuietFrame(s, g, n, a);
    QuietChannels(s, g, n, a);
  }
}
