/** The event-index notification scheme of the ring macros: a producer that notifies only when the
    consumer's event index was passed, and a consumer that parks only after a false final check. */
module EventIndex {
  import opened Word32
  import opened RingMacros

  datatype Producer = Filling | Pushed(old_: u32, new_: u32)
  datatype Consumer = Busy | Armed | Parked

  /** The shared indexes of one direction, the private ones, and a notification that is under way. */
  datatype Line = Line(
    prod: u32, event: u32,
    pvt: u32, producer: Producer,
    cons: u32, consumer: Consumer,
    notified: bool)

  const START := Line(0, 1, 0, Filling, 0, Busy, false)

  datatype Action =
    | Fill         // the producer writes one more entry
    | PushIndex    // it publishes its private index
    | TestEvent    // it reads the event index and notifies if the test holds
    | Take         // the consumer takes one entry
    | FirstCheck   // final check, first reading; arms the event index if nothing is unread
    | SecondCheck  // final check, second reading; parks if nothing is unread
    | Deliver      // the notification reaches the consumer

  /** The producer never has more than `n` entries beyond the consumer. */
  predicate Enabled(l: Line, n: nat, a: Action) {
    match a
    case Fill => l.producer.Filling? && Sub(l.pvt, l.cons) < n
    case PushIndex => l.producer.Filling?
    case TestEvent => l.producer.Pushed?
    case Take => l.consumer.Busy? && Sub(l.prod, l.cons) != 0
    case FirstCheck => l.consumer.Busy?
    case SecondCheck => l.consumer.Armed?
    case Deliver => l.notified
  }

  function Step(l: Line, a: Action): Line
    requires a.TestEvent? ==> l.producer.Pushed?
  {
    match a
    case Fill => l.(pvt := Add(l.pvt, 1))
    case PushIndex => l.(prod := l.pvt, producer := Pushed(l.prod, l.pvt))
    case TestEvent =>
      l.(producer := Filling,
         notified := l.notified || MustNotify(l.producer.old_, l.producer.new_, l.event))
    case Take => l.(cons := Add(l.cons, 1))
    case FirstCheck =>
      if Sub(l.prod, l.cons) != 0 then l else l.(event := Add(l.cons, 1), consumer := Armed)
    case SecondCheck => l.(consumer := if Sub(l.prod, l.cons) != 0 then Busy else Parked)
    case Deliver => l.(notified := false, consumer := if l.consumer.Parked? then Busy else l.consumer)
  }

  predicate Legal(l: Line, n: nat, acts: seq<Action>)
    decreases |acts|
  {
    acts == [] || (Enabled(l, n, acts[0]) && Legal(Step(l, acts[0]), n, acts[1..]))
  }

  function Exec(l: Line, n: nat, acts: seq<Action>): Line
    requires Legal(l, n, acts)
    decreases |acts|
  {
    if acts == [] then l else Exec(Step(l, acts[0]), n, acts[1..])
  }

  /** The unbounded counters behind a line; `old_` is the published index before the last push. */
  datatype Counters = Counters(cons: nat, old_: nat, prod: nat, pvt: nat)

  ghost predicate Inv(l: Line, n: nat, g: Counters) {
    && n <= 0x800_0000
    && g.cons <= g.prod <= g.pvt <= g.cons + n
    && l.cons == Wrap(g.cons) && l.prod == Wrap(g.prod) && l.pvt == Wrap(g.pvt)
    && (l.producer.Pushed? ==>
          && g.old_ <= g.prod == g.pvt && g.prod <= g.old_ + n
          && l.producer.old_ == Wrap(g.old_) && l.producer.new_ == Wrap(g.prod))
    && (!l.consumer.Busy? ==> l.event == Wrap(g.cons + 1))
    && (l.consumer.Parked? && g.cons < g.prod ==>
          l.notified || (l.producer.Pushed? && g.old_ <= g.cons))
  }

  function Advance(g: Counters, a: Action): Counters {
    match a
    case Fill => g.(pvt := g.pvt + 1)
    case PushIndex => g.(old_ := g.prod, prod := g.pvt)
    case Take => g.(cons := g.cons + 1)
    case _ => g
  }

  /** The test notifies when the consumer's next index was just published. */
  lemma PendingTestNotifies(l: Line, n: nat, g: Counters)
    requires Inv(l, n, g) && l.producer.Pushed? && l.consumer.Parked? && g.old_ <= g.cons < g.prod
    ensures Step(l, TestEvent).notified
  {
    NotifyInWindow(g.old_, g.prod, g.cons + 1);
  }

  /** The producer's test notifies exactly if its last push has passed an index behind the event index. */
  lemma NotifiesExactly(l: Line, n: nat, g: Counters)
    requires Inv(l, n, g) && l.producer.Pushed?
    ensures Step(l, TestEvent).notified <==>
            l.notified || exists e: int :: Wrap(e) == l.event && g.old_ < e <= g.prod
  {
    NotifyExact(g.old_, g.prod, l.event);
    WrapSmall(l.event);
  }

  lemma ProducerInv(l: Line, n: nat, g: Counters, a: Action)
    requires Inv(l, n, g) && Enabled(l, n, a) && (a.Fill? || a.PushIndex? || a.TestEvent?)
    ensures Inv(Step(l, a), n, Advance(g, a))
  {
    SubWrap(g.pvt, g.cons);
    AddWrap(g.pvt, 1);
    if a.TestEvent? && l.consumer.Parked? && g.old_ <= g.cons < g.prod {
      PendingTestNotifies(l, n, g);
    }
  }

  lemma ConsumerInv(l: Line, n: nat, g: Counters, a: Action)
    requires Inv(l, n, g) && Enabled(l, n, a) && !a.Fill? && !a.PushIndex? && !a.TestEvent?
    ensures Inv(Step(l, a), n, Advance(g, a))
  {
    SubWrap(g.prod, g.cons);
    AddWrap(g.cons, 1);
  }

  lemma StepInv(l: Line, n: nat, g: Counters, a: Action)
    requires Inv(l, n, g) && Enabled(l, n, a)
    ensures Inv(Step(l, a), n, Advance(g, a))
  {
    if a.Fill? || a.PushIndex? || a.TestEvent? {
      ProducerInv(l, n, g, a);
    } else {
      ConsumerInv(l, n, g, a);
    }
  }

  lemma {:induction false} RunInv(l: Line, n: nat, g: Counters, acts: seq<Action>) returns (g': Counters)
    requires Inv(l, n, g) && Legal(l, n, acts)
    ensures Inv(Exec(l, n, acts), n, g')
    decreases |acts|
  {
    if acts == [] {
      g' := g;
    } else {
      StepInv(l, n, g, acts[0]);
      g' := RunInv(Step(l, acts[0]), n, Advance(g, acts[0]), acts[1..]);
    }
  }

  ghost predicate ParkedIsNotified(l: Line) {
    l.consumer.Parked? && Sub(l.prod, l.cons) != 0 ==>
      l.notified || (l.producer.Pushed? && Step(l, TestEvent).notified)
  }

  lemma InvNotifies(l: Line, n: nat, g: Counters)
    requires Inv(l, n, g)
    ensures ParkedIsNotified(l)
  {
    SubWrap(g.prod, g.cons);
    if l.consumer.Parked? && g.cons < g.prod && !l.notified {
      PendingTestNotifies(l, n, g);
    }
  }

  /** The hold-off loses no notification: after any run from the initialised ring, a consumer that has
      parked over unread entries has been notified, or the producer's pending test will notify it. */
  lemma HoldOffLosesNothing(n: nat, acts: seq<Action>)
    requires n <= 0x800_0000 && Legal(START, n, acts)
    ensures ParkedIsNotified(Exec(START, n, acts))
  {
    var g := RunInv(START, n, Counters(0, 0, 0, 0), acts);
    InvNotifies(Exec(START, n, acts), n, g);
  }
}
