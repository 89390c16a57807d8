/** The list of seeks a thread will perform: locations, the read/write mix and start times. */
module SeekList {
  import opened Word32

  datatype Op = Read | Write

  datatype Seek = Seek(location: int, reqsize: nat, op: Op, time: int)

  /** What the generator reads: request size and range in blocks, times in picoseconds, the ratio of reads. */
  datatype Target = Target(reqsize: nat, range: int, startOffset: int, queue: nat, interleave: nat, stagger: bool,
                           rwratio: real, startDelay: int, opTime: int)

  /** C's integer division. */
  function TruncDiv(a: int, b: int): int
    requires b > 0
  {
    if a >= 0 then a / b else -((-a) / b)
  }

  /** The division for the gap of a staggered list of one operation is by zero. */
  predicate Defined(p: Target, n: nat) {
    p.stagger ==> n != 1
  }

  // ---- the list, position by position

  function Gap(p: Target, n: nat): int
    requires Defined(p, n)
  {
    if p.stagger && n > 0 then TruncDiv((p.range - p.reqsize) - n * p.reqsize, n - 1) else 0
  }

  function QueueOffset(p: Target): int {
    if p.interleave > 1 then (p.queue % p.interleave) * p.reqsize else 0
  }

  function Location(p: Target, n: nat, k: nat): int
    requires Defined(p, n)
  {
    p.startOffset + QueueOffset(p) + k * (p.reqsize * p.interleave + Gap(p, n))
  }

  function Percent(r: real, k: nat): int {
    (r * k as real).Floor
  }

  /** The value compared with before operation k. */
  function Previous(r: real, k: nat): int {
    if k > 0 then Percent(r, k - 1) else if r >= 0.5 then -1 else 0
  }

  function Operation(r: real, k: nat): Op {
    if Percent(r, k) > Previous(r, k) then Read else Write
  }

  function Time(p: Target, k: nat): int {
    p.opTime + p.startDelay + k * p.opTime
  }

  function SeekAt(p: Target, n: nat, k: nat): Seek
    requires Defined(p, n)
  {
    Seek(Location(p, n, k), p.reqsize, Operation(p.rwratio, k), Time(p, k))
  }

  // ---- the generator

  class SeekHeader {
    const totalOps: nat
    const seeks: array<Seek>
    var numRwOps: nat

    constructor (totalOps: nat, seeks: array<Seek>)
      ensures this.totalOps == totalOps && this.seeks == seeks
    {
      this.totalOps, this.seeks, numRwOps := totalOps, seeks, 0;
    }

    method InitSeekList(p: Target)
      requires totalOps <= seeks.Length && Defined(p, totalOps)
      modifies this, seeks
      ensures numRwOps == totalOps
      ensures forall k :: 0 <= k < totalOps ==> seeks[k] == SeekAt(p, totalOps, k)
      ensures forall k :: totalOps <= k < seeks.Length ==> seeks[k] == old(seeks[k])
      ensures Advances(p, totalOps, seeks[..totalOps])
    {
      var relativeTime := p.opTime + p.startDelay;
      var index := 0;
      numRwOps := totalOps;
      var previous := if p.rwratio >= 0.5 then -1 else 0;
      while index < totalOps
        invariant 0 <= index <= totalOps && numRwOps == totalOps
        invariant relativeTime == Time(p, index)
        invariant previous == Previous(p.rwratio, index)
        invariant forall k :: 0 <= k < index ==> seeks[k] == SeekAt(p, totalOps, k)
        invariant forall k :: index <= k < seeks.Length ==> seeks[k] == old(seeks[k])
      {
        var location := NextLocation(p, index);
        var percent := (p.rwratio * index as real).Floor;
        var op := if percent > previous then Read else Write;
        previous := percent;
        seeks[index] := Seek(location, p.reqsize, op, relativeTime);
        NextTime(p, index);
        relativeTime := relativeTime + p.opTime;
        index := index + 1;
      }
      ListAdvances(p, totalOps, seeks[..totalOps]);
    }

    /** The part of an iteration that computes a sequential or staggered location. */
    method NextLocation(p: Target, index: nat) returns (location: int)
      requires numRwOps == totalOps && index < totalOps && Defined(p, totalOps)
      ensures location == Location(p, totalOps, index)
    {
      var gap, threadOffset := 0, 0;
      if p.stagger {
        gap := TruncDiv((p.range - p.reqsize) - numRwOps * p.reqsize, numRwOps - 1);
      }
      if p.interleave > 1 {
        threadOffset := (p.queue % p.interleave) * p.reqsize;
      }
      location := p.startOffset + threadOffset + index * (p.reqsize * p.interleave + gap);
    }
  }

  /** The list written out as steps: where and when it begins, and how it goes on. */
  ghost predicate Advances(p: Target, n: nat, list: seq<Seek>)
    requires Defined(p, n)
  {
    && |list| == n
    && (n > 0 ==> list[0].time == p.startDelay + p.opTime)
    && (n > 0 ==> list[0].location
                  == p.startOffset + if p.interleave > 1 then p.queue % p.interleave * p.reqsize else 0)
    && (forall k :: 0 <= k < n ==> list[k].reqsize == p.reqsize)
    && (forall k {:trigger list[k]} :: 0 <= k < n - 1 ==> Follows(p, n, list[k], list[k + 1]))
  }

  predicate Follows(p: Target, n: nat, a: Seek, b: Seek)
    requires Defined(p, n) && n > 0
  {
    && b.time == a.time + p.opTime
    && b.location == a.location + p.interleave * p.reqsize
                     + if p.stagger then TruncDiv((p.range - p.reqsize) - n * p.reqsize, n - 1) else 0
  }

  lemma ListAdvances(p: Target, n: nat, list: seq<Seek>)
    requires Defined(p, n) && |list| == n && forall k :: 0 <= k < n ==> list[k] == SeekAt(p, n, k)
    ensures Advances(p, n, list)
  {
    forall k {:trigger list[k]} | 0 <= k < n - 1
      ensures Follows(p, n, list[k], list[k + 1])
    {
      NextTime(p, k);
      NextPlace(p, n, k);
    }
  }

  lemma NextPlace(p: Target, n: nat, k: nat)
    requires Defined(p, n)
    ensures Location(p, n, k + 1) == Location(p, n, k) + (p.interleave * p.reqsize + Gap(p, n))
  {
    Distrib(k, 1, p.reqsize * p.interleave + Gap(p, n));
    Assoc(1, p.reqsize, p.interleave);
  }

  lemma NextTime(p: Target, k: nat)
    ensures Time(p, k + 1) == Time(p, k) + p.opTime
  {
    Distrib(k, 1, p.opTime);
  }

  // ---- the mix of reads and writes

  /** Reads among the first k operations of a list. */
  function Reads(list: seq<Seek>, k: nat): nat
    requires k <= |list|
  {
    if k == 0 then 0 else Reads(list, k - 1) + (if list[k - 1].op.Read? then 1 else 0)
  }

  lemma PercentGrowsByAtMostOne(r: real, k: nat)
    requires 0.0 <= r <= 1.0
    ensures Percent(r, k) <= Percent(r, k + 1) <= Percent(r, k) + 1
  {
    assert r * (k + 1) as real == r * k as real + r;
  }

  lemma {:induction false} ReadsByPercent(p: Target, n: nat, list: seq<Seek>, k: nat)
    requires Defined(p, n) && |list| == n && forall i :: 0 <= i < n ==> list[i] == SeekAt(p, n, i)
    requires 0.0 <= p.rwratio <= 1.0 && 1 <= k <= n
    ensures Reads(list, k) == Percent(p.rwratio, k - 1) + (if p.rwratio >= 0.5 then 1 else 0)
  {
    if k == 1 {
      assert Percent(p.rwratio, 0) == 0;
      assert Reads(list, 1) == Reads(list, 0) + (if list[0].op.Read? then 1 else 0);
    } else {
      ReadsByPercent(p, n, list, k - 1);
      PercentGrowsByAtMostOne(p.rwratio, k - 2);
    }
  }

  /** The first k operations of a filled list hold floor(r * (k - 1)) reads, and one more when the ratio r is a half
      or above. */
  lemma ReadCount(p: Target, n: nat, list: seq<Seek>, k: nat)
    requires Defined(p, n) && |list| == n && forall i :: 0 <= i < n ==> list[i] == SeekAt(p, n, i)
    requires 0.0 <= p.rwratio <= 1.0 && 1 <= k <= n
    ensures Reads(list, k) == (p.rwratio * (k - 1) as real).Floor + (if p.rwratio >= 0.5 then 1 else 0)
  {
    ReadsByPercent(p, n, list, k);
  }

  // ---- plain sequential lists

  /** Without stagger or interleave the n accesses lie one behind the other: the k-th takes the k-th piece of
      request size after the start, so every block of those n pieces is accessed once and no other block. */
  lemma SequentialTiles(p: Target, n: nat, list: seq<Seek>, x: int)
    requires !p.stagger && p.interleave == 1 && Advances(p, n, list)
    ensures forall k :: 0 <= k < n ==> list[k].location == p.startOffset + k * p.reqsize
    ensures Hits(list, n, x) == if p.startOffset <= x < p.startOffset + n * p.reqsize then 1 else 0
  {
    forall k | 0 <= k < n
      ensures list[k].location == p.startOffset + k * p.reqsize
    {
      SequentialPlace(p, n, list, k);
    }
    SequentialHits(p, n, list, n, x);
  }

  predicate Hit(a: Seek, x: int) {
    a.location <= x < a.location + a.reqsize
  }

  /** How many of the first k accesses take block x. */
  function Hits(list: seq<Seek>, k: nat, x: int): nat
    requires k <= |list|
  {
    if k == 0 then 0 else Hits(list, k - 1, x) + (if Hit(list[k - 1], x) then 1 else 0)
  }

  lemma {:induction false} SequentialPlace(p: Target, n: nat, list: seq<Seek>, k: nat)
    requires !p.stagger && p.interleave == 1 && Advances(p, n, list) && k < n
    ensures list[k].location == p.startOffset + k * p.reqsize
  {
    if k > 0 {
      SequentialPlace(p, n, list, k - 1);
      assert Follows(p, n, list[k - 1], list[k - 1 + 1]);
      Distrib(k, 1, p.reqsize);
    }
  }

  lemma {:induction false} SequentialHits(p: Target, n: nat, list: seq<Seek>, k: nat, x: int)
    requires !p.stagger && p.interleave == 1 && Advances(p, n, list) && k <= n
    ensures Hits(list, k, x) == if p.startOffset <= x < p.startOffset + k * p.reqsize then 1 else 0
  {
    if k > 0 {
      SequentialHits(p, n, list, k - 1, x);
      SequentialPlace(p, n, list, k - 1);
      Distrib(k, 1, p.reqsize);
      MulMono(0, k - 1, p.reqsize);
    }
  }

  // ---- interleaved queues

  lemma Product(k: nat, q: nat, s: nat)
    ensures k * (s * q) == (k * q) * s
  {
    Assoc(k, s, q);
  }

  /** The number of the request-sized block an operation of a queue hits. */
  function Block(p: Target, k: nat): nat
    requires p.interleave > 1
  {
    k * p.interleave + p.queue % p.interleave
  }

  lemma InterleavedLocation(p: Target, n: nat, k: nat)
    requires !p.stagger && p.interleave > 1
    ensures Location(p, n, k) == p.startOffset + Block(p, k) * p.reqsize
  {
    Product(k, p.interleave, p.reqsize);
    Distrib(k * p.interleave, p.queue % p.interleave, p.reqsize);
  }

  /** Two operations, of the same or of different queues, hit the same place exactly when they have the same
      position in their lists and their queue numbers agree modulo the interleave. */
  lemma InterleavedDistinct(p: Target, q: nat, q': nat, n: nat, k: nat, k': nat)
    requires !p.stagger && p.interleave > 1 && p.reqsize > 0
    ensures Location(p.(queue := q), n, k) == Location(p.(queue := q'), n, k')
            <==> k == k' && q % p.interleave == q' % p.interleave
  {
    var b, b' := Block(p.(queue := q), k), Block(p.(queue := q'), k');
    InterleavedLocation(p.(queue := q), n, k);
    InterleavedLocation(p.(queue := q'), n, k');
    SameProduct(b, b', p.reqsize);
    DivMod(b, p.interleave, k, q % p.interleave);
    DivMod(b', p.interleave, k', q' % p.interleave);
  }

  lemma SameProduct(a: int, b: int, s: nat)
    requires s > 0
    ensures a * s == b * s <==> a == b
  {
    if a * s == b * s {
      Distrib(a, b, s);
      SmallMultiple(a - b, s);
    }
  }

  lemma QuotientBelow(b: nat, m: nat, n: nat)
    requires m > 0 && b < m * n
    ensures b / m < n && b % m < m
  {
    Euclid(b, m);
    if b / m >= n {
      MulMono(n, b / m, m);
    }
  }

  lemma BlockOf(p: Target, b: nat, k: nat)
    requires p.interleave > 1 && p.queue == b % p.interleave && k == b / p.interleave
    ensures Block(p, k) == b
  {
    Euclid(b, p.interleave);
    DivMod(p.queue, p.interleave, 0, p.queue);
  }

  /** Queues 0 to Q - 1 together hit every one of the Q * n blocks. */
  lemma InterleavedCovers(p: Target, n: nat, b: nat) returns (q: nat, k: nat)
    requires !p.stagger && p.interleave > 1 && b < p.interleave * n
    ensures q < p.interleave && k < n
    ensures Location(p.(queue := q), n, k) == p.startOffset + b * p.reqsize
  {
    q, k := b % p.interleave, b / p.interleave;
    QuotientBelow(b, p.interleave, n);
    BlockOf(p.(queue := q), b, k);
    InterleavedLocation(p.(queue := q), n, k);
  }

  // ---- staggered accesses

  predicate Disjoint(a: int, b: int, size: nat) {
    a + size <= b || b + size <= a
  }

  /** Every access lies within the range and no two overlap. */
  ghost predicate StaggerWorks(p: Target, n: nat)
    requires Defined(p, n)
  {
    && (forall k :: 0 <= k < n ==> p.startOffset <= Location(p, n, k)
                                   && Location(p, n, k) + p.reqsize <= p.startOffset + p.range)
    && (forall j, k :: 0 <= j < k < n ==> Disjoint(Location(p, n, j), Location(p, n, k), p.reqsize))
  }

  /** The blocks left when n + 1 requests are taken from the range. */
  function Slack(p: Target, n: nat): int {
    (p.range - p.reqsize) - n * p.reqsize
  }

  lemma DivBounds(a: nat, b: nat)
    requires b > 0
    ensures 0 <= (a / b) * b <= a && a / b >= 0
    ensures a < b ==> a / b == 0
    ensures a >= b ==> a / b >= 1
  {
    QuotientSign(a, b);
    var q := a / b;
    Euclid(a, b);
    MulMono(0, q, b);
    if q >= 1 {
      MulMono(1, q, b);
    }
  }

  lemma TruncBounds(a: int, b: int)
    requires b > 0
    ensures a >= 0 ==> 0 <= TruncDiv(a, b) * b <= a && TruncDiv(a, b) >= 0
    ensures -b < a < 0 ==> TruncDiv(a, b) == 0
    ensures a <= -b ==> TruncDiv(a, b) <= -1
  {
    DivBounds(if a >= 0 then a else -a, b);
  }

  lemma StaggeredLocation(p: Target, n: nat, k: nat)
    requires p.stagger && p.interleave == 1 && n >= 2
    ensures Location(p, n, k) == p.startOffset + k * (p.reqsize + Gap(p, n))
  {
  }

  /** A staggered list stays in range without overlap exactly when the range holds the n requests and the
      slack is above -(n - 1); with room for n + 1 requests both are met. */
  lemma StaggerExact(p: Target, n: nat)
    requires p.stagger && p.interleave == 1 && n >= 2 && p.reqsize > 0
    ensures StaggerWorks(p, n) <==> Slack(p, n) > -(n - 1) && n * p.reqsize <= p.range
  {
    TruncBounds(Slack(p, n), n - 1);
    var step := p.reqsize + Gap(p, n);
    if Slack(p, n) <= -(n - 1) {
      StaggerTooTight(p, n);
    } else {
      assert (n - 1) * step + p.reqsize <= p.range <==> n * p.reqsize <= p.range by {
        LastEnd(p, n);
      }
      if n * p.reqsize <= p.range {
        StaggerFits(p, n);
      } else {
        StaggeredLocation(p, n, n - 1);
      }
    }
  }

  /** With room for n + 1 requests the last access ends one request and fewer than n - 1 blocks before the end of the
      range: the accesses are spread over it as evenly as whole blocks allow. */
  lemma StaggerSpreads(p: Target, n: nat)
    requires p.stagger && p.interleave == 1 && n >= 2 && Slack(p, n) >= 0
    ensures var end := p.startOffset + p.range - p.reqsize;
            end - (n - 1) < Location(p, n, n - 1) + p.reqsize <= end
  {
    var g := Gap(p, n);
    Euclid(Slack(p, n), n - 1);
    StaggeredLocation(p, n, n - 1);
    Distrib(p.reqsize, g, n - 1);
    Distrib(n, 1, p.reqsize);
  }

  lemma LastEnd(p: Target, n: nat)
    requires p.stagger && n >= 2 && Slack(p, n) > -(n - 1)
    ensures Gap(p, n) >= 0
    ensures (n - 1) * (p.reqsize + Gap(p, n)) + p.reqsize <= p.range <==> n * p.reqsize <= p.range
  {
    var g := Gap(p, n);
    TruncBounds(Slack(p, n), n - 1);
    Distrib(p.reqsize, g, n - 1);
    Distrib(n, 1, p.reqsize);
  }

  lemma StaggerTooTight(p: Target, n: nat)
    requires p.stagger && p.interleave == 1 && n >= 2 && p.reqsize > 0 && Slack(p, n) <= -(n - 1)
    ensures !StaggerWorks(p, n)
  {
    TruncBounds(Slack(p, n), n - 1);
    StaggeredLocation(p, n, 0);
    StaggeredLocation(p, n, 1);
    assert !Disjoint(Location(p, n, 0), Location(p, n, 1), p.reqsize) || Location(p, n, 1) < p.startOffset;
  }

  lemma StaggerFits(p: Target, n: nat)
    requires p.stagger && p.interleave == 1 && n >= 2
    requires Slack(p, n) > -(n - 1) && n * p.reqsize <= p.range
    ensures StaggerWorks(p, n)
  {
    var step := p.reqsize + Gap(p, n);
    LastEnd(p, n);
    forall k | 0 <= k < n
      ensures p.startOffset <= Location(p, n, k) && Location(p, n, k) + p.reqsize <= p.startOffset + p.range
    {
      StaggeredLocation(p, n, k);
      MulMono(0, k, step);
      MulMono(k, n - 1, step);
    }
    forall j, k | 0 <= j < k < n
      ensures Disjoint(Location(p, n, j), Location(p, n, k), p.reqsize)
    {
      StaggeredLocation(p, n, j);
      StaggeredLocation(p, n, k);
      MulMono(j + 1, k, step);
      Distrib(j, 1, step);
    }
  }
}
