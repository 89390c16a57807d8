/** The specification: a plain bag of outstanding requests, keyed by request id. */
module Bag {
  import opened Options
  import opened Protocol

  datatype Outstanding = Outstanding(tag: nat, req: Request, failed: bool)

  type Bag = map<nat, Outstanding>

  /** What the block layer and the device see: a request is accepted under an id, something goes wrong
      with it (its dispatch is refused, or one of its bios fails), and it is ended by a response. */
  datatype Event =
    | Accept(id: nat, tag: nat, req: Request)
    | Fault(id: nat)
    | End(id: nat, tag: nat, rsp: Response)

  /** An id is accepted only while it is not outstanding. An end takes out the request accepted under
      that id; its response carries the same id and direction, and reports -1 exactly after a fault. */
  predicate Allowed(bag: Bag, e: Event) {
    match e
    case Accept(id, _, req) => id !in bag && req.seqNo == id
    case Fault(id) => id in bag
    case End(id, tag, rsp) =>
      && id in bag && bag[id].tag == tag
      && rsp.seqNo == id && rsp.op == bag[id].req.dir
      && rsp.res == (if bag[id].failed then -1 else 0)
  }

  function Apply(bag: Bag, e: Event): Bag
    requires Allowed(bag, e)
  {
    match e
    case Accept(id, tag, req) => bag[id := Outstanding(tag, req, false)]
    case Fault(id) => bag[id := bag[id].(failed := true)]
    case End(id, _, _) => bag - {id}
  }

  /** The bag after a trace, if the bag machine allows the trace. */
  function Replay(trace: seq<Event>): Option<Bag> {
    if trace == [] then Some(map[])
    else
      var last := trace[|trace| - 1];
      match Replay(trace[..|trace| - 1])
      case None => None
      case Some(bag) => if Allowed(bag, last) then Some(Apply(bag, last)) else None
  }

  function Accepts(trace: seq<Event>, id: nat): nat {
    if trace == [] then 0
    else
      var last := trace[|trace| - 1];
      Accepts(trace[..|trace| - 1], id) + (if last.Accept? && last.id == id then 1 else 0)
  }

  function Ends(trace: seq<Event>, id: nat): nat {
    if trace == [] then 0
    else
      var last := trace[|trace| - 1];
      Ends(trace[..|trace| - 1], id) + (if last.End? && last.id == id then 1 else 0)
  }

  /** The tag most recently accepted under an id and not ended since. */
  function OpenTag(trace: seq<Event>, id: nat): Option<nat> {
    if trace == [] then None
    else
      var last := trace[|trace| - 1];
      var before := OpenTag(trace[..|trace| - 1], id);
      if last.Accept? && last.id == id then Some(last.tag)
      else if last.End? && last.id == id then None
      else before
  }

  /** In an allowed trace every acceptance under an id is ended at most once and before the next one:
      the counts differ by one exactly while the id is outstanding, with the tag accepted last. */
  lemma {:induction false} EndedAtMostOnce(trace: seq<Event>, id: nat)
    requires Replay(trace).Some?
    ensures var bag := Replay(trace).value;
            && Accepts(trace, id) == Ends(trace, id) + (if id in bag then 1 else 0)
            && OpenTag(trace, id) == (if id in bag then Some(bag[id].tag) else None)
  {
    if trace != [] {
      EndedAtMostOnce(trace[..|trace| - 1], id);
    }
  }
}
