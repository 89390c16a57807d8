/** Sleeping threads in the whole system: when one can still be woken. */
module Wakeups {
  import opened RingMacros
  import opened Handshake
  import opened Options
  import opened System
  import opened Invariant
  import opened Reachability
  import opened EndToEnd
  import opened QuietSteps

  predicate Unread(s: State, side: Side) {
    if side.Requests? then UnreadRequests(s) else UnreadResponses(s)
  }

  /** A thread that no interrupt wakes, with no request copied off the ring and waiting to be dispatched. */
  ghost predicate Lost(s: State, side: Side) {
    Stuck(Chan(s, side)) && (side.Requests? ==> s.claim.None?)
  }

  lemma LostData(s: State, side: Side, a: Action)
    requires Lost(s, side) && Enabled(s, a) && !MovesNothing(a)
    ensures Lost(Step(s, a), side)
  {
  }

  lemma LostQuiet(s: State, side: Side, a: Action)
    requires Lost(s, side) && Enabled(s, a) && MovesNothing(a)
    ensures Lost(Step(s, a), side)
  {
  }

  lemma LostStep(s: State, side: Side, a: Action)
    requires Lost(s, side) && Enabled(s, a)
    ensures Lost(Step(s, a), side)
  {
    if MovesNothing(a) {
      LostQuiet(s, side, a);
    } else {
      LostData(s, side, a);
    }
  }

  lemma {:induction false} LostForever(s: State, side: Side, acts: seq<Action>)
    requires Lost(s, side) && Legal(s, acts)
    ensures Lost(Exec(s, acts), side)
    decreases |acts|
  {
    if acts != [] {
      LostStep(s, side, acts[0]);
      LostForever(Step(s, acts[0]), side, acts[1..]);
    }
  }

  ghost predicate Wakes(s: State, side: Side, acts: seq<Action>) {
    Legal(s, acts) && !Chan(Exec(s, acts), side).at.Asleep?
  }

  lemma OneInterrupt(s: State, side: Side) returns (acts: seq<Action>)
    requires !s.bug && Size(s) > 0
    requires var c := Chan(s, side); c.at.Asleep? && c.status == Sleeping && c.handler == Flagged
    ensures Wakes(s, side, acts) && NoSubmit(acts)
  {
    var a := Interrupt(side);
    Prepend(s, a, []);
    acts := [a] + [];
  }

  lemma TwoInterrupts(s: State, side: Side) returns (acts: seq<Action>)
    requires !s.bug && Size(s) > 0
    requires var c := Chan(s, side); c.at.Asleep? && c.status == Sleeping && c.handler == Quiet && c.irq
    ensures Wakes(s, side, acts) && NoSubmit(acts)
  {
    var a := Interrupt(side);
    var rest := OneInterrupt(Step(s, a), side);
    Prepend(s, a, rest);
    acts := [a] + rest;
  }

  lemma Rescued(s: State, g: Ghost, side: Side) returns (acts: seq<Action>)
    requires !s.bug && Size(s) > 0 && Control(s, g)
    requires var c := Chan(s, side);
             && c.at.Asleep? && c.status == Sleeping
             && (c.handler == Flagged || (c.handler == Quiet && (c.irq || c.signalling)))
    ensures Wakes(s, side, acts) && NoSubmit(acts)
  {
    var c := Chan(s, side);
    if c.handler == Flagged {
      acts := OneInterrupt(s, side);
    } else if c.irq {
      acts := TwoInterrupts(s, side);
    } else {
      var a := if side.Requests? then SignalBackend else SignalFrontend;
      var rest := TwoInterrupts(Step(s, a), side);
      Prepend(s, a, rest);
      acts := [a] + rest;
    }
  }

  lemma NotCut(s: State, g: Ghost, side: Side)
    requires Control(s, g) && side.Responses?
    ensures !Chan(s, side).cut
  {
  }

  lemma AnnouncedSleeper(c: Channel)
    requires ChannelInv(c, true) && c.at.Asleep? && c.status == Sleeping && c.handler != Looked && !c.cut
    ensures c.handler == Flagged || c.irq || c.signalling
  {
  }

  /** In every reachable state in which a thread sleeps over unread entries and has not come straight from a pass
      broken off: some continuation wakes the thread exactly if the status word says SLEEPING and no handler that
      has already looked at it is about to store RUNNING. */
  lemma SleeperWakesExactly(r: Run, side: Side)
    requires r.Legal() && Chan(r.Final(), side).at.Asleep? && Unread(r.Final(), side)
    requires side.Requests? ==> !r.Final().req.cut
    ensures var c := Chan(r.Final(), side);
            c.status == Sleeping && c.handler != Looked <==> exists acts :: Wakes(r.Final(), side, acts)
  {
    var s := r.Final();
    var g := ReachRun(r);
    var c := Chan(s, side);
    if side.Responses? {
      NotCut(s, g, side);
    }
    if c.status == Sleeping && c.handler != Looked {
      AnnouncedSleeper(c);
      RingSizeBounds(r.n);
      var acts := Rescued(s, g, side);
    } else {
      forall acts
        ensures !Wakes(s, side, acts)
      {
        if Legal(s, acts) {
          LostForever(s, side, acts);
        }
      }
    }
  }

  // ---- the backend thread without new requests

  predicate NoSubmit(acts: seq<Action>) {
    forall i :: 0 <= i < |acts| ==> !acts[i].Submit?
  }

  /** An interrupt for the backend thread is raised, or will be when the running do_idd_request goes on. */
  predicate Due(s: State) {
    s.req.signalling || s.sub.SubFlush?
  }

  /** Asleep, and neither a handler nor a due interrupt is left to wake the thread. */
  predicate Deaf(s: State) {
    var c := s.req;
    && c.at.Asleep? && s.claim.None? && (s.sub.SubSignal? ==> c.signalling)
    && (Stuck(c) || (c.handler == Quiet && !c.irq && !Due(s)))
  }

  lemma DeafData(s: State, a: Action)
    requires Deaf(s) && Enabled(s, a) && !a.Submit? && !MovesNothing(a)
    ensures Deaf(Step(s, a))
  {
  }

  lemma DeafQuiet(s: State, a: Action)
    requires Deaf(s) && Enabled(s, a) && MovesNothing(a)
    ensures Deaf(Step(s, a))
  {
  }

  lemma DeafStep(s: State, a: Action)
    requires Deaf(s) && Enabled(s, a) && !a.Submit?
    ensures Deaf(Step(s, a))
  {
    if MovesNothing(a) {
      DeafQuiet(s, a);
    } else {
      DeafData(s, a);
    }
  }

  lemma {:induction false} DeafForever(s: State, acts: seq<Action>)
    requires Deaf(s) && Legal(s, acts) && NoSubmit(acts)
    ensures Deaf(Exec(s, acts))
    decreases |acts|
  {
    if acts != [] {
      DeafStep(s, acts[0]);
      DeafForever(Step(s, acts[0]), acts[1..]);
    }
  }

  lemma NoSubmitPrepend(a: Action, acts: seq<Action>)
    requires !a.Submit? && NoSubmit(acts)
    ensures NoSubmit([a] + acts)
  {
  }

  lemma Flushed(s: State, g: Ghost) returns (acts: seq<Action>)
    requires !s.bug && Size(s) > 0 && Control(s, g)
    requires var c := s.req;
             c.at.Asleep? && c.status == Sleeping && c.handler != Looked && (c.handler == Flagged || c.irq || Due(s))
    ensures Wakes(s, Requests, acts) && NoSubmit(acts)
  {
    if s.sub.SubFlush? && s.req.handler == Quiet && !s.req.irq {
      var s1 := Step(s, PushRequests);
      var s2 := Step(s1, SignalBackend);
      var rest := TwoInterrupts(s2, Requests);
      NoSubmitPrepend(SignalBackend, rest);
      Prepend(s1, SignalBackend, rest);
      Prepend(s, PushRequests, [SignalBackend] + rest);
      acts := [PushRequests] + ([SignalBackend] + rest);
    } else {
      acts := Rescued(s, g, Requests);
    }
  }

  /** In every reachable state in which the backend thread sleeps, broken off or not, some continuation without new
      requests wakes it exactly if the status word says SLEEPING, no handler that has already looked at it is about
      to store RUNNING, and an interrupt is being handled, pending or due. */
  lemma BackendWakesExactly(r: Run)
    requires r.Legal() && r.Final().req.at.Asleep?
    ensures var (s, c) := (r.Final(), r.Final().req);
            c.status == Sleeping && c.handler != Looked && (c.handler == Flagged || c.irq || Due(s)) <==>
            exists acts :: Wakes(s, Requests, acts) && NoSubmit(acts)
  {
    var s := r.Final();
    var g := ReachRun(r);
    var c := s.req;
    RingSizeBounds(r.n);
    if c.status == Sleeping && c.handler != Looked && (c.handler == Flagged || c.irq || Due(s)) {
      var acts := Flushed(s, g);
    } else {
      assert Deaf(s);
      forall acts
        ensures !(Wakes(s, Requests, acts) && NoSubmit(acts))
      {
        if Legal(s, acts) && NoSubmit(acts) {
          DeafForever(s, acts);
        }
      }
    }
  }

  // ---- the handshake with whole steps

  /** A thread's two stores directly follow each other, and so do the three steps of a handler. */
  predicate Whole(acts: seq<Action>)
    decreases |acts|
  {
    if acts == [] then true
    else
      match acts[0]
      case SayAsleep(side) => |acts| >= 2 && acts[1] == Unwait(side) && Whole(acts[2..])
      case Unwait(_) => false
      case Interrupt(_) => |acts| >= 3 && acts[1] == acts[2] == acts[0] && Whole(acts[3..])
      case _ => Whole(acts[1..])
  }

  ghost predicate Quiescent(c: Channel) {
    c.handler == Quiet && !c.at.Half? && !c.raced
  }

  ghost predicate BothQuiescent(s: State) {
    Quiescent(s.req) && Quiescent(s.rsp)
  }

  lemma PlainData(s: State, a: Action)
    requires BothQuiescent(s) && Enabled(s, a) && !MovesNothing(a)
    ensures BothQuiescent(Step(s, a))
  {
  }

  lemma ReadKeepsOthers(s: State, side: Side)
    requires Enabled(s, ReadIndex(side))
    ensures var t := DoReadIndex(s, side);
            && t == SetChan(t, side, Chan(t, side)) && Chan(t, side) == Chan(s, side).(at := Chan(t, side).at)
            && (if side.Requests? then t.rsp == s.rsp else t.req == s.req) && !Chan(t, side).at.Half?
  {
  }

  lemma PlainRead(s: State, side: Side)
    requires BothQuiescent(s) && Enabled(s, ReadIndex(side))
    ensures BothQuiescent(DoReadIndex(s, side))
  {
    ReadKeepsOthers(s, side);
  }

  lemma PlainQuiet(s: State, a: Action)
    requires BothQuiescent(s) && Enabled(s, a) && MovesNothing(a)
    requires !a.ReadIndex? && !a.SayAsleep? && !a.Unwait? && !a.Interrupt?
    ensures BothQuiescent(Step(s, a))
  {
  }

  lemma PlainStep(s: State, a: Action)
    requires BothQuiescent(s) && Enabled(s, a) && !a.SayAsleep? && !a.Unwait? && !a.Interrupt?
    ensures BothQuiescent(Step(s, a))
  {
    if a.ReadIndex? {
      PlainRead(s, a.side);
    } else if MovesNothing(a) {
      PlainQuiet(s, a);
    } else {
      PlainData(s, a);
    }
  }

  lemma TwoStores(s: State, side: Side, acts: seq<Action>)
    requires BothQuiescent(s) && |acts| >= 2 && acts[0] == SayAsleep(side) && acts[1] == Unwait(side) && Legal(s, acts)
    ensures exists t :: BothQuiescent(t) && Legal(t, acts[2..]) && Exec(s, acts) == Exec(t, acts[2..])
  {
    var s1 := Step(s, acts[0]);
    assert acts[1..][0] == acts[1] && acts[1..][1..] == acts[2..];
    var t := Step(s1, acts[1]);
    assert BothQuiescent(t) && Legal(t, acts[2..]) && Exec(s, acts) == Exec(t, acts[2..]);
  }

  lemma HandlerStep(s: State, side: Side)
    requires Enabled(s, Interrupt(side))
    ensures Step(s, Interrupt(side)) == SetChan(s, side, Handle(Chan(s, side)))
  {
  }

  /** One interrupt at the head of a run. */
  lemma FirstInterrupt(s: State, side: Side, acts: seq<Action>, rest: seq<Action>)
    requires |acts| > 0 && acts[0] == Interrupt(side) && rest == acts[1..] && Legal(s, acts)
    ensures CanHandle(Chan(s, side))
    ensures var t := SetChan(s, side, Handle(Chan(s, side))); Legal(t, rest) && Exec(s, acts) == Exec(t, rest)
  {
    HandlerStep(s, side);
  }

  lemma WholeHandler(s: State, side: Side, acts: seq<Action>)
    requires BothQuiescent(s) && |acts| >= 3 && acts[0] == acts[1] == acts[2] == Interrupt(side) && Legal(s, acts)
    ensures exists t :: BothQuiescent(t) && Legal(t, acts[3..]) && Exec(s, acts) == Exec(t, acts[3..])
  {
    var c := Chan(s, side);
    FirstInterrupt(s, side, acts, acts[1..]);
    var s1 := SetChan(s, side, Handle(c));
    FirstInterrupt(s1, side, acts[1..], acts[2..]);
    var s2 := SetChan(s, side, Handle(Handle(c)));
    FirstInterrupt(s2, side, acts[2..], acts[3..]);
    var t := SetChan(s, side, Handle(Handle(Handle(c))));
    QuiescentAfter(s, side, t);
    assert Legal(t, acts[3..]) && Exec(s, acts) == Exec(t, acts[3..]);
  }

  lemma QuiescentAfter(s: State, side: Side, t: State)
    requires BothQuiescent(s) && Chan(s, side).irq
    requires var c := Chan(s, side); t == SetChan(s, side, Handle(Handle(Handle(c))))
    ensures BothQuiescent(t)
  {
    HandlerRun(Chan(s, side));
  }

  lemma {:induction false} WholeNeverRaces(s: State, acts: seq<Action>)
    requires BothQuiescent(s) && Legal(s, acts) && Whole(acts)
    ensures BothQuiescent(Exec(s, acts))
    decreases |acts|
  {
    if acts != [] {
      if acts[0].SayAsleep? {
        TwoStores(s, acts[0].side, acts);
        var t :| BothQuiescent(t) && Legal(t, acts[2..]) && Exec(s, acts) == Exec(t, acts[2..]);
        WholeNeverRaces(t, acts[2..]);
      } else if acts[0].Interrupt? {
        WholeHandler(s, acts[0].side, acts);
        var t :| BothQuiescent(t) && Legal(t, acts[3..]) && Exec(s, acts) == Exec(t, acts[3..]);
        WholeNeverRaces(t, acts[3..]);
      } else {
        PlainStep(s, acts[0]);
        WholeNeverRaces(Step(s, acts[0]), acts[1..]);
      }
    }
  }

  /** With the two stores as one step and the handler as one step: in both directions the status is RUNNING
      exactly when the waiting flag is set, and a thread asleep over unread entries has an interrupt in flight
      or a producer between its push and its status read, unless it came straight from a pass broken off. */
  lemma WholeHandshake(r: Run, side: Side)
    requires r.Legal() && Whole(r.acts)
    ensures var c := Chan(r.Final(), side);
            && (c.status == Running <==> c.waiting)
            && (c.at.Asleep? && Unread(r.Final(), side) ==> c.status == Sleeping && (!c.cut ==> c.irq || c.signalling))
    ensures !r.Final().req.raced && !r.Final().rsp.raced
  {
    WholeNeverRaces(Init(r.n, r.pool, r.refs, r.blockSize), r.acts);
    SleepersAreCovered(r, side);
  }
}
