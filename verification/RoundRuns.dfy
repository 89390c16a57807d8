/** What a thread's sleeping round, an interrupt handler and a flush do without interruption, as runs of the system. */
module RoundRuns {
  import opened Word32
  import opened Handshake
  import opened Protocol
  import opened System
  import opened Wakeups
  import opened LostRuns

  /** The entry point after a last check that finds something. */
  function Entrance(side: Side): Point {
    if side.Requests? then Scan else Load
  }

  /** The shared page with the event index behind the consumer. */
  function Armed(s: State, side: Side): Shared {
    if side.Requests? then s.sh.(reqEvent := Add(s.b.reqCons, 1)) else s.sh.(rspEvent := Add(s.f.rspCons, 1))
  }

  /** The two stores. */
  lemma BothStores(s: State, side: Side) returns (acts: seq<Action>, s': State)
    requires !s.bug && Size(s) > 0 && Chan(s, side).at.Decide? && Chan(s, side).status == Running
    ensures acts == [Sleepy(side, true), SayAsleep(side), Unwait(side)] && Leads(s, acts, s')
    ensures var c := Chan(s, side);
            s' == SetChan(s, side, c.(status := Sleeping, waiting := false, at := Last1, cut := false,
                                      raced := c.raced || c.handler != Quiet))
  {
    var c := Chan(s, side);
    acts := [];
    Then(s, acts, s, Sleepy(side, true));
    acts := acts + [Sleepy(side, true)];
    var s1 := SetChan(s, side, c.(at := Chosen, cut := false));
    Then(s, acts, s1, SayAsleep(side));
    acts, s1 := acts + [SayAsleep(side)], SetChan(s, side, c.(status := Sleeping, at := Half, cut := false));
    Then(s, acts, s1, Unwait(side));
    acts, s' := acts + [Unwait(side)], SetChan(s, side, c.(status := Sleeping, waiting := false, at := Last1,
                                                          cut := false, raced := c.raced || c.handler != Quiet));
  }

  /** The last check, with something unread. */
  lemma GoesRound(s: State, side: Side)
    requires !s.bug && Size(s) > 0 && Chan(s, side).at.Last1? && MoreToDo(s, side)
    ensures Leads(s, [ReadIndex(side)], SetChan(s, side, Chan(s, side).(at := Entrance(side))))
  {
    Then(s, [], s, ReadIndex(side));
    assert [] + [ReadIndex(side)] == [ReadIndex(side)];
  }

  /** The last check, with nothing unread. */
  lemma FirstReading(s: State, side: Side)
    requires !s.bug && Size(s) > 0 && Chan(s, side).at.Last1? && !MoreToDo(s, side)
    ensures Enabled(s, ReadIndex(side))
    ensures Step(s, ReadIndex(side)) == SetChan(s.(sh := Armed(s, side)), side, Chan(s, side).(at := Last2))
  {
  }

  lemma SecondReading(s: State, side: Side)
    requires !s.bug && Size(s) > 0 && Chan(s, side).at.Last2? && !MoreToDo(s, side)
    ensures Enabled(s, ReadIndex(side)) && Step(s, ReadIndex(side)) == SetChan(s, side, Chan(s, side).(at := Top))
  {
  }

  lemma Parks(s: State, side: Side)
    requires !s.bug && Size(s) > 0 && Chan(s, side).at.Last1? && !MoreToDo(s, side)
    ensures Leads(s, [ReadIndex(side), ReadIndex(side)],
                  SetChan(s.(sh := Armed(s, side)), side, Chan(s, side).(at := Top)))
  {
    var a := ReadIndex(side);
    FirstReading(s, side);
    Then(s, [], s, a);
    assert [] + [a] == [a];
    var s1 := SetChan(s.(sh := Armed(s, side)), side, Chan(s, side).(at := Last2));
    SecondReading(s1, side);
    Then(s, [a], s1, a);
    assert [a] + [a] == [a, a];
  }

  /** The end of a thread's round, from reading the status word on: with the decision to sleep under RUNNING the
      thread stores SLEEPING, clears its flag and looks once more, arming its event index if it finds nothing;
      otherwise it goes on at its flag and stores nothing. */
  lemma SleepingRoundIsRun(s: State, side: Side, sleep: bool) returns (acts: seq<Action>, s': State)
    requires !s.bug && Size(s) > 0 && Chan(s, side).at.Decide? && Chan(s, side).handler == Quiet
    ensures Leads(s, acts, s')
    ensures var (c, c') := (Chan(s, side), Chan(s', side));
            var parks := sleep && c.status == Running;
            var again := parks && MoreToDo(s, side);
            && acts == (if !parks then [Sleepy(side, sleep)]
                        else [Sleepy(side, true), SayAsleep(side), Unwait(side)]
                             + (if again then [ReadIndex(side)] else [ReadIndex(side), ReadIndex(side)]))
            && c'.status == (if parks then Sleeping else c.status)
            && c'.waiting == (if parks then false else c.waiting)
            && c'.at == (if again then Entrance(side) else Top)
            && s' == SetChan(if parks && !again then s.(sh := Armed(s, side)) else s, side, c')
            && c' == c.(status := c'.status, waiting := c'.waiting, at := c'.at, cut := c'.cut)
  {
    var c := Chan(s, side);
    if sleep && c.status == Running {
      var s1;
      acts, s1 := BothStores(s, side);
      if MoreToDo(s, side) {
        GoesRound(s1, side);
        s' := SetChan(s1, side, Chan(s1, side).(at := Entrance(side)));
        Join(s, acts, s1, [ReadIndex(side)], s');
        acts := acts + [ReadIndex(side)];
      } else {
        Parks(s1, side);
        s' := SetChan(s1.(sh := Armed(s1, side)), side, Chan(s1, side).(at := Top));
        Join(s, acts, s1, [ReadIndex(side), ReadIndex(side)], s');
        acts := acts + [ReadIndex(side), ReadIndex(side)];
      }
    } else {
      Then(s, [], s, Sleepy(side, sleep));
      acts, s' := [] + [Sleepy(side, sleep)], SetChan(s, side, c.(at := Top));
      assert acts == [Sleepy(side, sleep)];
    }
  }

  /** A whole handler sets the flag, wakes the thread exactly if it sleeps under SLEEPING, and stores RUNNING. */
  lemma HandlerIsRun(s: State, side: Side) returns (s': State)
    requires !s.bug && Size(s) > 0 && Chan(s, side).handler == Quiet && Chan(s, side).irq
    ensures Leads(s, [Interrupt(side), Interrupt(side), Interrupt(side)], s')
    ensures var c := Chan(s, side);
            var wakes := c.at.Asleep? && c.status == Sleeping;
            s' == SetChan(s, side, c.(waiting := true, irq := false, status := Running,
                                      at := if wakes then Top else c.at))
  {
    var c, a := Chan(s, side), Interrupt(side);
    HandlerRun(c);
    var s1 := SetChan(s, side, Handle(c));
    var s2 := SetChan(s, side, Handle(Handle(c)));
    HandlerStep(s, side);
    HandlerStep(s1, side);
    HandlerStep(s2, side);
    s' := SetChan(s, side, Handle(Handle(Handle(c))));
    Then(s, [], s, a);
    Then(s, [] + [a], s1, a);
    Then(s, [] + [a] + [a], s2, a);
    assert [] + [a] + [a] + [a] == [a, a, a];
  }

  /** A flush publishes the private index, and interrupts the backend exactly if its status word says SLEEPING. */
  lemma FlushIsRun(s: State) returns (s': State)
    requires !s.bug && Size(s) > 0 && s.sub.SubFlush?
    ensures Leads(s, [PushRequests, SignalBackend], s')
    ensures s' == s.(sh := s.sh.(reqProd := s.f.reqPvt), sub := SubPoll,
                     req := s.req.(signalling := false, irq := s.req.irq || s.req.status == Sleeping))
  {
    Then(s, [], s, PushRequests);
    var s1 := s.(sh := s.sh.(reqProd := s.f.reqPvt), sub := SubSignal, req := s.req.(signalling := true));
    assert [] + [PushRequests] == [PushRequests];
    Then(s, [PushRequests], s1, SignalBackend);
    assert [PushRequests] + [SignalBackend] == [PushRequests, SignalBackend];
    s' := Step(s1, SignalBackend);
  }

  /** The rest of an answer publishes it, and interrupts the frontend exactly if its status word says SLEEPING. */
  lemma PublishIsRun(s: State) returns (s': State)
    requires !s.bug && Size(s) > 0 && s.writing && !s.rsp.signalling
    ensures Leads(s, [PushResponse, SignalFrontend], s')
    ensures s' == s.(sh := s.sh.(rspProd := s.b.rspPvt), writing := false,
                     rsp := s.rsp.(signalling := false, irq := s.rsp.irq || s.rsp.status == Sleeping))
  {
    Then(s, [], s, PushResponse);
    var s1 := s.(sh := s.sh.(rspProd := s.b.rspPvt), writing := false, rsp := s.rsp.(signalling := true));
    assert [] + [PushResponse] == [PushResponse];
    Then(s, [PushResponse], s1, SignalFrontend);
    assert [PushResponse] + [SignalFrontend] == [PushResponse, SignalFrontend];
    s' := Step(s1, SignalFrontend);
  }
}
