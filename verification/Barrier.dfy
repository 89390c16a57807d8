/** The thread barrier: a counter under a mutex and a System V semaphore, used by n threads that
    alternate between the barriers of a pair. */
module Barrier {
  import opened FiniteSets

  datatype Cell = Cell(counter: int, sem: int)

  /** A thread outside, or inside a wait with its semaphore operation still to be issued. */
  datatype Place = Outside | Inside(op: int)

  /** `returned` counts the waits a thread has finished. */
  datatype Thread = Thread(returned: nat, place: Place)

  datatype State = State(cells: seq<Cell>, threads: seq<Thread>)

  function Entered(t: Thread): nat {
    t.returned + (if t.place.Inside? then 1 else 0)
  }

  // ---- the barrier code

  /** The mutex section: count the arrival; the last one resets the counter and will post. */
  function Arrive(c: Cell, n: nat): (Cell, int) {
    if c.counter == n - 1 then (c.(counter := 0), n - 1) else (c.(counter := c.counter + 1), -1)
  }

  /** semop blocks while the semaphore would become negative. */
  predicate CanSemop(c: Cell, op: int) {
    c.sem + op >= 0
  }

  function Semop(c: Cell, op: int): Cell {
    c.(sem := c.sem + op)
  }

  class XddBarrier {
    const threads: nat
    var counter: int
    var sem: int

    function View(): Cell
      reads this
    {
      Cell(counter, sem)
    }

    constructor (threads: nat)
      ensures View() == Cell(0, 0) && this.threads == threads
    {
      this.threads := threads;
      counter, sem := 0, 0;
    }

    /** Up to the end of the mutex section. A single thread returns at once; otherwise `op` is the semaphore
        operation to issue. */
    method Lock() returns (sleeps: bool, op: int)
      modifies this
      ensures sleeps == (threads != 1)
      ensures !sleeps ==> View() == old(View())
      ensures sleeps ==> (View(), op) == Arrive(old(View()), threads)
    {
      sleeps, op := threads - 1 != 0, 0;
      if !sleeps {
        return;
      }
      var localCounter := counter;
      counter := counter + 1;
      if localCounter == threads - 1 {
        counter := 0;
        op := threads - 1;
      } else {
        op := -1;
      }
    }

    /** The semaphore operation, at a moment when it does not block. */
    method Operate(op: int)
      requires CanSemop(View(), op)
      modifies this`sem
      ensures View() == Semop(old(View()), op)
    {
      sem := sem + op;
    }
  }

  // ---- n threads alternating between the barriers

  datatype Action = Enter(t: nat) | Issue(t: nat)

  function CellOf(s: State, t: nat): nat
    requires t < |s.threads| && |s.cells| > 0
  {
    s.threads[t].returned % |s.cells|
  }

  predicate Enabled(s: State, a: Action) {
    && a.t < |s.threads| && |s.cells| > 0
    && match a
       case Enter(t) => s.threads[t].place.Outside?
       case Issue(t) => s.threads[t].place.Inside? && CanSemop(s.cells[CellOf(s, t)], s.threads[t].place.op)
  }

  /** A single thread does not sleep at all. */
  function Step(s: State, a: Action): State
    requires Enabled(s, a)
  {
    var n, t := |s.threads|, a.t;
    var th, k := s.threads[t], CellOf(s, t);
    match a
    case Enter(_) =>
      if n - 1 == 0 then s.(threads := s.threads[t := th.(returned := th.returned + 1)])
      else
        var (c, op) := Arrive(s.cells[k], n);
        s.(cells := s.cells[k := c], threads := s.threads[t := th.(place := Inside(op))])
    case Issue(_) =>
      s.(cells := s.cells[k := Semop(s.cells[k], th.place.op)],
         threads := s.threads[t := Thread(th.returned + 1, Outside)])
  }

  function Init(cells: nat, n: nat): State {
    State(seq(cells, i => Cell(0, 0)), seq(n, i => Thread(0, Outside)))
  }

  predicate Legal(s: State, acts: seq<Action>)
    decreases |acts|
  {
    acts == [] || (Enabled(s, acts[0]) && Legal(Step(s, acts[0]), acts[1..]))
  }

  function Exec(s: State, acts: seq<Action>): State
    requires Legal(s, acts)
    decreases |acts|
  {
    if acts == [] then s else Exec(Step(s, acts[0]), acts[1..])
  }

  // ---- invariant of a pair; r is the round that some thread has not entered yet

  function Arrived(s: State, r: nat): set<nat> {
    set t: nat | t < |s.threads| && Entered(s.threads[t]) == r + 1
  }

  function Waiting(s: State, r: nat): set<nat> {
    set t: nat | t < |s.threads| && s.threads[t].returned + 1 == r && s.threads[t].place == Inside(-1)
  }

  function Posting(s: State, r: nat): set<nat> {
    set t: nat | t < |s.threads| && s.threads[t].returned + 1 == r && s.threads[t].place.Inside?
                 && s.threads[t].place.op != -1
  }

  ghost predicate ThreadOk(th: Thread, n: nat, r: nat) {
    || th == Thread(r, Outside)
    || th == Thread(r, Inside(-1))
    || (th.returned + 1 == r && (th.place == Inside(-1) || th.place == Inside(n - 1)))
  }

  ghost predicate ThreadsOk(s: State, n: nat, r: nat) {
    |s.threads| == n && forall t :: 0 <= t < n ==> ThreadOk(s.threads[t], n, r)
  }

  /** How the two cells follow from the threads' places: `p` is the cell of the finished round. */
  ghost predicate CellsOk(n: nat, c: Cell, p: Cell, arrived: set<nat>, waiting: set<nat>, posting: set<nat>) {
    && c == Cell(|arrived|, 0) && |arrived| < n
    && p == Cell(0, |waiting| - (if posting == {} then 0 else n - 1))
    && |posting| <= 1
    && (posting != {} ==> |waiting| == n - 1)
  }

  ghost predicate Inv(s: State, n: nat, r: nat) {
    && n >= 2 && |s.cells| == 2 && ThreadsOk(s, n, r)
    && CellsOk(n, s.cells[r % 2], s.cells[(r + 1) % 2], Arrived(s, r), Waiting(s, r), Posting(s, r))
  }

  lemma InitInv(n: nat)
    requires n >= 2
    ensures Inv(Init(2, n), n, 0)
  {
    var s := Init(2, n);
    assert Arrived(s, 0) == {} && Waiting(s, 0) == {} && Posting(s, 0) == {};
  }

  lemma Parity(r: nat)
    ensures r % 2 != (r + 1) % 2 && (r + 2) % 2 == r % 2
  {
  }

  /** An arrival that is not the last of its round. */
  lemma ArrivalInv(s: State, n: nat, r: nat, t: nat)
    requires Enabled(s, Enter(t)) && |Arrived(s, r)| < n - 1 && Inv(s, n, r)
    ensures Inv(Step(s, Enter(t)), n, r)
  {
    var s' := Step(s, Enter(t));
    assert ThreadOk(s.threads[t], n, r);
    Parity(r);
    assert s'.threads == s.threads[t := Thread(r, Inside(-1))];
    ArrivedSets(s, s', n, r, t);
  }

  lemma ArrivedSets(s: State, s': State, n: nat, r: nat, t: nat)
    requires ThreadsOk(s, n, r) && t < n && s.threads[t] == Thread(r, Outside)
    requires s'.threads == s.threads[t := Thread(r, Inside(-1))]
    ensures ThreadsOk(s', n, r)
    ensures t !in Arrived(s, r) && Arrived(s', r) == Arrived(s, r) + {t}
    ensures Waiting(s', r) == Waiting(s, r) && Posting(s', r) == Posting(s, r)
  {
    assert forall u :: 0 <= u < n && u != t ==> s'.threads[u] == s.threads[u];
  }

  /** When n - 1 threads have arrived, every thread but the one still outside is one of them. */
  lemma AllButOne(s: State, n: nat, r: nat, t: nat)
    requires Inv(s, n, r) && Enabled(s, Enter(t)) && |Arrived(s, r)| == n - 1
    ensures s.threads[t] == Thread(r, Outside)
    ensures forall u :: 0 <= u < n && u != t ==> s.threads[u] == Thread(r, Inside(-1))
  {
    assert ThreadOk(s.threads[t], n, r);
    UptoSize(n);
    SubsetSize(Arrived(s, r) + {t}, Upto(n));
    forall u | 0 <= u < n && u != t
      ensures s.threads[u] == Thread(r, Inside(-1))
    {
      assert ThreadOk(s.threads[u], n, r);
      assert u in Arrived(s, r) + {t};
    }
  }

  /** The last arrival of round r opens round r + 1. */
  lemma LastArrivalInv(s: State, n: nat, r: nat, t: nat)
    requires Inv(s, n, r) && Enabled(s, Enter(t)) && |Arrived(s, r)| == n - 1
    ensures Inv(Step(s, Enter(t)), n, r + 1)
  {
    var s' := Step(s, Enter(t));
    AllButOne(s, n, r, t);
    assert Waiting(s, r) == {} && Posting(s, r) == {};
    assert Arrived(s', r + 1) == {};
    assert Posting(s', r + 1) == {t};
    assert Waiting(s', r + 1) == Arrived(s, r) by {
      forall u: nat
        ensures u in Waiting(s', r + 1) <==> u in Arrived(s, r)
      {
      }
    }
  }

  /** Only threads of the finished round can issue their operation. */
  lemma IssueInv(s: State, n: nat, r: nat, t: nat)
    requires Enabled(s, Issue(t)) && Inv(s, n, r)
    ensures Inv(Step(s, Issue(t)), n, r)
    ensures s.threads[t].returned + 1 == r
  {
    var s' := Step(s, Issue(t));
    assert ThreadOk(s.threads[t], n, r);
    Parity(r);
    Parity(r - 1);
    var op := s.threads[t].place.op;
    var c := s.cells[r % 2];
    assert c.sem == 0;
    assert s.threads[t] == Thread(r - 1, Inside(op));
    assert s'.threads == s.threads[t := Thread(r, Outside)];
    IssuedSets(s, s', n, r, t, op);
    if op != -1 {
      SubsetSize({t}, Posting(s, r));
    }
  }

  lemma IssuedSets(s: State, s': State, n: nat, r: nat, t: nat, op: int)
    requires ThreadsOk(s, n, r) && t < n && s.threads[t].returned + 1 == r && s.threads[t].place == Inside(op)
    requires s'.threads == s.threads[t := Thread(r, Outside)]
    ensures ThreadsOk(s', n, r)
    ensures Arrived(s', r) == Arrived(s, r)
    ensures op == -1 ==> t in Waiting(s, r) && Waiting(s', r) == Waiting(s, r) - {t} && Posting(s', r) == Posting(s, r)
    ensures op != -1 ==> t in Posting(s, r) && Posting(s', r) == Posting(s, r) - {t} && Waiting(s', r) == Waiting(s, r)
  {
    assert forall u :: 0 <= u < n && u != t ==> s'.threads[u] == s.threads[u];
  }

  lemma {:induction false} RunInv(s: State, n: nat, r: nat, acts: seq<Action>) returns (r': nat)
    requires Inv(s, n, r) && Legal(s, acts)
    ensures Inv(Exec(s, acts), n, r')
    decreases |acts|
  {
    if acts == [] {
      r' := r;
    } else {
      var a := acts[0];
      var r1 := r;
      if a.Issue? {
        IssueInv(s, n, r, a.t);
      } else if |Arrived(s, r)| < n - 1 {
        ArrivalInv(s, n, r, a.t);
      } else {
        LastArrivalInv(s, n, r, a.t);
        r1 := r + 1;
      }
      r' := RunInv(Step(s, a), n, r1, acts[1..]);
    }
  }

  // ---- results

  /** With a pair of barriers, no thread returns from its k-th wait until all n have entered theirs. */
  lemma NobodyLeavesEarly(n: nat, acts: seq<Action>, t: nat, u: nat)
    requires Legal(Init(2, n), acts) && t < n && u < n
    ensures var s := Exec(Init(2, n), acts);
            |s.threads| == n && s.threads[t].returned <= Entered(s.threads[u])
  {
    if n < 2 {
      OneThread(Init(2, n), acts);
    } else {
      InitInv(n);
      var r := RunInv(Init(2, n), n, 0, acts);
      var s := Exec(Init(2, n), acts);
      assert ThreadOk(s.threads[t], n, r) && ThreadOk(s.threads[u], n, r);
    }
  }

  /** A single thread never touches a barrier. */
  lemma {:induction false} OneThread(s: State, acts: seq<Action>)
    requires Legal(s, acts) && |s.threads| <= 1
    requires forall t :: 0 <= t < |s.threads| ==> s.threads[t].place.Outside?
    ensures var s' := Exec(s, acts);
            && |s'.threads| == |s.threads| && s'.cells == s.cells
            && forall t :: 0 <= t < |s'.threads| ==> s'.threads[t].place.Outside?
    decreases |acts|
  {
    if acts != [] {
      OneThread(Step(s, acts[0]), acts[1..]);
    }
  }

  /** All have returned from wait k (counted from 0) and none has entered wait k + 2. */
  predicate Between(s: State, k: nat) {
    forall t :: 0 <= t < |s.threads| ==> s.threads[t].returned > k && Entered(s.threads[t]) <= k + 2
  }

  predicate AllInside(s: State) {
    forall t :: 0 <= t < |s.threads| ==> s.threads[t].place.Inside?
  }

  /** Once all have returned from wait k and none has entered wait k + 2, the barrier of wait k is clean. */
  lemma BarrierIsClean(n: nat, acts: seq<Action>, k: nat)
    requires Legal(Init(2, n), acts) && Between(Exec(Init(2, n), acts), k)
    ensures |Exec(Init(2, n), acts).cells| == 2
    ensures Exec(Init(2, n), acts).cells[k % 2] == Cell(0, 0)
  {
    if n < 2 {
      OneThread(Init(2, n), acts);
    } else {
      InitInv(n);
      var r := RunInv(Init(2, n), n, 0, acts);
      CleanCell(Exec(Init(2, n), acts), n, r, k);
    }
  }

  lemma CleanCell(s: State, n: nat, r: nat, k: nat)
    requires Between(s, k) && Inv(s, n, r)
    ensures s.cells[k % 2] == Cell(0, 0)
  {
    assert ThreadOk(s.threads[0], n, r);
    if r == k + 1 {
      assert Waiting(s, r) == {} && Posting(s, r) == {};
      assert (r + 1) % 2 == k % 2;
    } else {
      assert r == k + 2;
      assert Arrived(s, r) == {};
    }
  }

  lemma AloneOutside(acts: seq<Action>)
    requires Legal(Init(2, 1), acts)
    ensures !AllInside(Exec(Init(2, 1), acts))
  {
    OneThread(Init(2, 1), acts);
    var t := Exec(Init(2, 1), acts).threads[0];
  }

  /** While every thread is inside a wait, some semaphore operation can proceed. */
  lemma NobodyIsStranded(n: nat, acts: seq<Action>) returns (t: nat)
    requires n >= 1 && Legal(Init(2, n), acts)
    requires AllInside(Exec(Init(2, n), acts))
    ensures Enabled(Exec(Init(2, n), acts), Issue(t))
  {
    if n == 1 {
      AloneOutside(acts);
      assert false;
    }
    InitInv(n);
    var r := RunInv(Init(2, n), n, 0, acts);
    t := SomeoneProceeds(Exec(Init(2, n), acts), n, r);
  }

  lemma SomeoneProceeds(s: State, n: nat, r: nat) returns (t: nat)
    requires AllInside(s) && Inv(s, n, r)
    ensures Enabled(s, Issue(t))
  {
    var u := StillInside(s, n, r);
    Parity(r - 1);
    if Posting(s, r) != {} {
      t :| t in Posting(s, r);
      assert ThreadOk(s.threads[t], n, r);
    } else {
      t := u;
      assert ThreadOk(s.threads[u], n, r);
      assert u !in Posting(s, r);
      assert u in Waiting(s, r);
    }
  }

  /** Fewer than n threads have arrived in round r, so some thread is inside the round before it. */
  lemma StillInside(s: State, n: nat, r: nat) returns (u: nat)
    requires ThreadsOk(s, n, r) && |Arrived(s, r)| < n
    requires AllInside(s)
    ensures u < n && s.threads[u].returned + 1 == r
  {
    UptoSize(n);
    if Upto(n) <= Arrived(s, r) {
      SubsetSize(Upto(n), Arrived(s, r));
    }
    u :| u in Upto(n) && u !in Arrived(s, r);
    assert ThreadOk(s.threads[u], n, r);
  }

  // ---- why a pair

  lemma {:induction false} Then(s: State, acts: seq<Action>, a: Action)
    requires Legal(s, acts) && Enabled(Exec(s, acts), a)
    ensures Legal(s, acts + [a]) && Exec(s, acts + [a]) == Step(Exec(s, acts), a)
    decreases |acts|
  {
    if acts == [] {
      assert acts + [a] == [a] && [a][1..] == [];
    } else {
      Then(Step(s, acts[0]), acts[1..], a);
      assert (acts + [a])[1..] == acts[1..] + [a];
    }
  }

  function Entering(k: nat): seq<Action> {
    seq(k, (t: nat) => Enter(t))
  }

  /** The first k threads wait at the only barrier. */
  function Waiters(n: nat, k: nat): State {
    State([Cell(k, 0)], seq(n, t => if t < k then Thread(0, Inside(-1)) else Thread(0, Outside)))
  }

  lemma {:induction false} FirstEnter(n: nat, k: nat)
    requires k < n && n >= 2
    ensures Legal(Init(1, n), Entering(k)) && Exec(Init(1, n), Entering(k)) == Waiters(n, k)
  {
    if k == 0 {
      assert Init(1, n) == Waiters(n, 0) && Entering(0) == [];
    } else {
      FirstEnter(n, k - 1);
      assert Entering(k) == Entering(k - 1) + [Enter(k - 1)];
      Then(Init(1, n), Entering(k - 1), Enter(k - 1));
      assert Step(Waiters(n, k - 1), Enter(k - 1)) == Waiters(n, k);
    }
  }

  /** With a single barrier in place of the pair the first property fails for every number of threads from two:
      the last thread returns from its second wait while the first has only entered its first. */
  lemma SingleBarrierFails(n: nat) returns (acts: seq<Action>)
    requires n >= 2
    ensures Legal(Init(1, n), acts)
    ensures var s := Exec(Init(1, n), acts);
            |s.threads| == n && s.threads[n - 1].returned == 2 && Entered(s.threads[0]) == 1
  {
    var s0, last := Init(1, n), n - 1;
    FirstEnter(n, last);
    acts := Entering(last);
    var w := Waiters(n, last).threads;
    Then(s0, acts, Enter(last));
    acts := acts + [Enter(last)];
    assert Exec(s0, acts) == State([Cell(0, 0)], w[last := Thread(0, Inside(last))]);
    Then(s0, acts, Issue(last));
    acts := acts + [Issue(last)];
    assert Exec(s0, acts) == State([Cell(0, last)], w[last := Thread(1, Outside)]);
    Then(s0, acts, Enter(last));
    acts := acts + [Enter(last)];
    assert Exec(s0, acts) == State([Cell(1, last)], w[last := Thread(1, Inside(-1))]);
    Then(s0, acts, Issue(last));
    acts := acts + [Issue(last)];
    assert Exec(s0, acts) == State([Cell(1, last - 1)], w[last := Thread(2, Outside)]);
  }
}
