/** The sleep handshake of one direction of the ring: a producer that interrupts a sleeping consumer,
    the consumer's interrupt handler, and the consumer thread. The request direction (flusher and
    backend thread) and the response direction (responder and frontend thread) are two instances. */
module Handshake {
  import opened Word32

  datatype Status = Sleeping | Running

  /** Progress of the interrupt handler: it sets the waiting flag, then reads the status word (and wakes
      a sleeping thread), then stores RUNNING. */
  datatype Handler = Quiet | Flagged | Looked

  /** Program points of the consumer thread. */
  datatype Point =
    | Top                 // about to test the waiting flag
    | Asleep              // found it clear; sleeps until woken
    | Scan                // about to compare the indexes
    | Load                // about to take a snapshot of the producer index
    | Drain(limit: u32)   // consuming up to the snapshot
    | Check1 | Check2     // first and second reading of the final check after draining
    | Kick                // frontend only: restarting the queue
    | Decide              // about to read the status word
    | Chosen              // read RUNNING and decided to sleep
    | Half                // stored SLEEPING, waiting flag not yet cleared
    | Last1 | Last2       // first and second reading of the final check before parking

  /** `raced` is a history flag: the thread cleared its waiting flag while a handler was running or
      after one had already put the status word back to RUNNING. `cut` says that an empty pool has broken off the
      thread's last pass and that it has not looked at the indexes since; nothing depends on either. */
  datatype Channel = Channel(
    status: Status,
    waiting: bool,
    irq: bool,
    handler: Handler,
    signalling: bool,
    at: Point,
    raced: bool,
    cut: bool)

  const START := Channel(Running, true, false, Quiet, false, Top, false, false)

  predicate Observing(p: Point) {
    !(p.Top? || p.Asleep? || p.Kick? || p.Decide?)
  }

  // ---- steps; `more` is what the consumer's reading of the indexes says

  function Push(c: Channel): Channel {
    c.(signalling := true)
  }

  function Signal(c: Channel): Channel {
    c.(signalling := false, irq := c.irq || c.status == Sleeping)
  }

  predicate CanHandle(c: Channel) {
    c.handler != Quiet || c.irq
  }

  function Handle(c: Channel): Channel
    requires CanHandle(c)
  {
    match c.handler
    case Quiet => c.(waiting := true, irq := false, handler := Flagged)
    case Flagged => c.(handler := Looked, at := if c.status == Sleeping && c.at.Asleep? then Top else c.at)
    case Looked => c.(status := Running, handler := Quiet)
  }

  /** The three handler steps of the handshake, taken together. */
  lemma HandlerRun(c: Channel)
    requires c.handler == Quiet && c.irq
    ensures CanHandle(Handle(c)) && CanHandle(Handle(Handle(c)))
    ensures Handle(Handle(Handle(c)))
         == c.(waiting := true, irq := false, status := Running,
               at := if c.status == Sleeping && c.at.Asleep? then Top else c.at)
  {
  }

  function Wake(c: Channel, entry: Point): Channel
    requires c.at.Top?
  {
    if c.waiting then c.(at := entry, cut := false) else c.(at := Asleep)
  }

  /** The two readings of the final check, and the branch taken after the second. */
  function FinalCheck(p: Point, more: bool, entry: Point, quiet: Point): Point
    requires p.Check1? || p.Check2? || p.Last1? || p.Last2?
  {
    match p
    case Check1 => if more then Load else Check2
    case Check2 => if more then Load else quiet
    case Last1 => if more then entry else Last2
    case Last2 => if more then entry else Top
  }

  function DecideSleep(c: Channel, sleep: bool): Channel
    requires c.at.Decide?
  {
    if sleep && c.status == Running then c.(at := Chosen, cut := false) else c.(at := Top)
  }

  /** The consume loop finds the pool empty and breaks off. */
  function BreakOff(c: Channel): Channel
    requires c.at.Drain?
  {
    c.(at := Decide, cut := true)
  }

  function StoreSleeping(c: Channel): Channel
    requires c.at.Chosen?
  {
    c.(status := Sleeping, at := Half)
  }

  function ClearWaiting(c: Channel): Channel
    requires c.at.Half?
  {
    c.(waiting := false, at := Last1, raced := c.raced || c.handler != Quiet || c.status != Sleeping)
  }

  /** One step of the handshake; `u` and `u'` say whether unread entries exist before and after. */
  ghost predicate Next(c: Channel, u: bool, c': Channel, u': bool) {
    || (c' == c && (u' ==> u))
    || (c' == Push(c) && !c.signalling)
    || (c' == Signal(c) && c.signalling && u' == u)
    || (u' == u && CanHandle(c) && c' == Handle(c))
    || (c.at.Drain? && (c'.at.Drain? || c'.at.Check1?) && c' == c.(at := c'.at) && (u' ==> u))
    || (c.at.Drain? && (c'.at.Kick? || c'.at.Decide?) && c' == c.(at := c'.at) && !u')
    || (c.at.Drain? && c' == BreakOff(c) && u' == u)
    || (u' == u && ThreadStep(c, u, c'))
  }

  ghost predicate ThreadStep(c: Channel, u: bool, c': Channel) {
    match c.at
    case Top => c' == Wake(c, Scan) || c' == Wake(c, Load)
    case Asleep => false
    case Scan => c' == c.(at := if u then Load else Decide)
    case Load => c'.at.Drain? && c' == c.(at := c'.at)
    case Drain(_) => false
    case Kick => c' == c.(at := Decide)
    case Decide => c' == DecideSleep(c, true) || c' == DecideSleep(c, false)
    case Chosen => c' == StoreSleeping(c)
    case Half => c' == ClearWaiting(c)
    case _ => exists entry: Point, quiet: Point ::
      (entry.Scan? || entry.Load?) && (quiet.Kick? || quiet.Decide?) &&
      c' == c.(at := FinalCheck(c.at, u, entry, quiet))
  }

  // ---- what every step keeps

  /** While the status word says SLEEPING, unread entries are still going to be read, or are announced, unless a
      pass has been broken off. */
  ghost predicate Announced(c: Channel, u: bool) {
    c.status == Sleeping && u && !Observing(c.at) && !c.cut ==> c.irq || c.signalling || c.handler != Quiet
  }

  /** Without a race the waiting flag and the status word agree whenever neither side is between its
      two stores, and a thread sleeps only under SLEEPING. */
  ghost predicate InStep(c: Channel) {
    && (c.handler == Quiet && !c.at.Half? ==> (c.status == Running <==> c.waiting))
    && (c.handler != Quiet && !c.at.Half? ==> c.waiting)
    && (c.at.Chosen? ==> c.status == Running && c.waiting)
    && (c.at.Half? ==> c.waiting)
    && (c.at.Asleep? ==> c.status == Sleeping && c.handler != Looked && (c.waiting <==> c.handler == Flagged))
  }

  /** A clear waiting flag under SLEEPING with unread entries: their interrupt has not begun to be handled. */
  ghost predicate Noticed(c: Channel, u: bool) {
    c.status == Sleeping && u && !Observing(c.at) && !c.cut && !c.waiting ==> c.irq || c.signalling
  }

  ghost predicate ChannelInv(c: Channel, u: bool) {
    Announced(c, u) && Noticed(c, u) && (!c.raced ==> InStep(c))
  }

  lemma CheckInv(c: Channel, u: bool, c': Channel)
    requires ChannelInv(c, u) && ThreadStep(c, u, c') && (c.at.Check1? || c.at.Check2? || c.at.Last1? || c.at.Last2?)
    ensures ChannelInv(c', u)
  {
    var entry: Point, quiet: Point :|
      (entry.Scan? || entry.Load?) && (quiet.Kick? || quiet.Decide?) &&
      c' == c.(at := FinalCheck(c.at, u, entry, quiet));
  }

  lemma ThreadInv(c: Channel, u: bool, c': Channel)
    requires ChannelInv(c, u) && ThreadStep(c, u, c')
    ensures ChannelInv(c', u)
  {
    match c.at
    case Check1 | Check2 | Last1 | Last2 => CheckInv(c, u, c');
    case _ =>
  }

  lemma HandlerInv(c: Channel, u: bool)
    requires ChannelInv(c, u) && CanHandle(c)
    ensures ChannelInv(Handle(c), u)
  {
    match c.handler
    case Quiet =>
    case Flagged =>
    case Looked =>
  }

  /** Every step of the handshake keeps the invariant. */
  lemma NextInv(c: Channel, u: bool, c': Channel, u': bool)
    requires ChannelInv(c, u) && Next(c, u, c', u')
    ensures ChannelInv(c', u')
  {
    if u' == u && CanHandle(c) && c' == Handle(c) {
      HandlerInv(c, u);
    } else if u' == u && ThreadStep(c, u, c') {
      ThreadInv(c, u, c');
    }
  }

  // ---- consequences

  ghost predicate InterruptInFlight(c: Channel) {
    c.irq || c.handler == Flagged
  }

  /** A thread asleep over unread entries is about to be woken, unless the race has happened or its last pass was
      broken off. */
  lemma SleeperIsCovered(c: Channel, u: bool)
    requires ChannelInv(c, u) && !c.raced
    ensures c.handler == Quiet && !c.at.Half? ==> (c.status == Running <==> c.waiting)
    ensures c.at.Asleep? && u ==> c.status == Sleeping && (!c.cut ==> InterruptInFlight(c) || c.signalling)
  {
  }

  // ---- sleepers that no interrupt wakes

  /** Asleep, and the status word says RUNNING or a handler that has already looked is about to say so. */
  predicate Stuck(c: Channel) {
    c.at.Asleep? && (c.status == Running || c.handler == Looked)
  }
}
