/** Every mapping the hypervisor makes is undone exactly once, or still live. */
module Mappings {
  import opened RingMacros
  import opened Protocol
  import opened System
  import opened Invariant
  import opened GrantSteps
  import opened SystemSteps
  import opened AnswerSteps
  import opened Reachability
  import opened EndToEnd

  // ---- what an action maps and unmaps

  function Valid(row: seq<int>): multiset<int> {
    if row == [] then multiset{}
    else
      var last := row[|row| - 1];
      Valid(row[..|row| - 1]) + (if last == INVALID_HANDLE then multiset{} else multiset{last})
  }

  /** The request has passed the checks, so its segments are mapped. */
  predicate MapsPages(s: State, o: Outcome) {
    && CanDispatch(s, o) && GoodShape(s.claim.value.req) && GoodSegments(s.claim.value.req, s.blockSize)
  }

  function MappedBy(s: State, a: Action): multiset<int>
    requires Enabled(s, a)
  {
    if a.Dispatch? && MapsPages(s, a.outcome) then Valid(a.outcome.row) else multiset{}
  }

  function UnmappedByDispatch(s: State, o: Outcome): multiset<int>
    requires CanDispatch(s, o)
  {
    var p := s.claim.value.p;
    if MapsPages(s, o) && INVALID_HANDLE in o.row && RowFits(s, p, |o.row|)
    then multiset(UnmapTo(FillRow(s.b.handles, p, o.row), p, |o.row|)) else multiset{}
  }

  function UnmappedByBio(s: State, p: nat, error: bool): multiset<int>
    requires CanFinishBio(s, p)
  {
    if EndBlockIo(s.b, s.maps, p, error).Last? && RowFits(s, p, s.b.pool[p].pages)
    then multiset(UnmapTo(s.b.handles, p, s.b.pool[p].pages)) else multiset{}
  }

  function UnmappedBy(s: State, a: Action): multiset<int>
    requires Enabled(s, a)
  {
    match a
    case Dispatch(o) => UnmappedByDispatch(s, o)
    case BioDone(p, error) => UnmappedByBio(s, p, error)
    case _ => multiset{}
  }

  function Mapped(s: State, acts: seq<Action>): multiset<int>
    requires Legal(s, acts)
    decreases |acts|
  {
    if acts == [] then multiset{} else MappedBy(s, acts[0]) + Mapped(Step(s, acts[0]), acts[1..])
  }

  function Unmapped(s: State, acts: seq<Action>): multiset<int>
    requires Legal(s, acts)
    decreases |acts|
  {
    if acts == [] then multiset{} else UnmappedBy(s, acts[0]) + Unmapped(Step(s, acts[0]), acts[1..])
  }

  // ---- rows as multisets

  lemma {:induction false} UnmapIsRow(maps: map<int, nat>, handles: seq<int>, p: nat, pages: nat, i: nat)
    requires i <= pages && 11 * p + pages <= |handles| && UnmapSucceeds(maps, handles, p, pages)
    ensures multiset(UnmapTo(handles, p, i)) == multiset(RowHandles(handles, p, i))
  {
    if i == 0 {
      assert RowHandles(handles, p, 0) == {};
    } else {
      UnmapIsRow(maps, handles, p, pages, i - 1);
      UnmapOneMore(maps, handles, p, pages, i - 1, UnmapTo(handles, p, i - 1), RowHandles(handles, p, i - 1));
    }
  }

  lemma UnmapOneMore(maps: map<int, nat>, handles: seq<int>, p: nat, pages: nat, i: nat, list: seq<int>, row: set<int>)
    requires i < pages && 11 * p + pages <= |handles| && UnmapSucceeds(maps, handles, p, pages)
    requires list == UnmapTo(handles, p, i) && row == RowHandles(handles, p, i) && multiset(list) == multiset(row)
    ensures multiset(UnmapTo(handles, p, i + 1)) == multiset(RowHandles(handles, p, i + 1))
  {
    var h := handles[11 * p + i];
    RowGrows(handles, p, i);
    NotEarlier(maps, handles, p, pages, i);
    OneMore(list, row, h);
    assert UnmapTo(handles, p, i + 1) == list + (if h == INVALID_HANDLE then [] else [h]);
  }

  lemma NotEarlier(maps: map<int, nat>, handles: seq<int>, p: nat, pages: nat, i: nat)
    requires i < pages && 11 * p + pages <= |handles| && UnmapSucceeds(maps, handles, p, pages)
    ensures handles[11 * p + i] != INVALID_HANDLE ==> handles[11 * p + i] !in RowHandles(handles, p, i)
  {
    assert InRow(11 * p + i, p, pages);
    forall k | 0 <= k < |handles| && InRow(k, p, i) && handles[k] != INVALID_HANDLE
      ensures maps[handles[k]] == k
    {
      assert InRow(k, p, pages);
    }
  }

  lemma OneMore(list: seq<int>, row: set<int>, h: int)
    requires multiset(list) == multiset(row)
    ensures h !in row ==> multiset(list + [h]) == multiset(row + {h})
    ensures multiset(list + []) == multiset(row + {})
  {
    assert list + [] == list && row + {} == row;
    if h !in row {
      assert multiset(list + [h]) == multiset(list) + multiset{h};
    }
  }

  lemma AddKey(maps: map<int, nat>, h: int, j: nat)
    requires h !in maps
    ensures multiset(maps[h := j].Keys) == multiset(maps.Keys) + multiset{h}
  {
    assert maps[h := j].Keys == maps.Keys + {h};
  }

  lemma {:induction false} MapRowKeys(maps: map<int, nat>, p: nat, row: seq<int>)
    requires FreshHandles(maps, row)
    ensures multiset(MapRow(maps, p, row).Keys) == multiset(maps.Keys) + Valid(row)
  {
    if row != [] {
      var last, front := |row| - 1, row[..|row| - 1];
      MapRowKeys(maps, p, front);
      MapRowContents(maps, p, front);
      if row[last] != INVALID_HANDLE {
        assert row[last] !in front;
        AddKey(MapRow(maps, p, front), row[last], 11 * p + last);
      }
    }
  }

  lemma DropKeys(maps: map<int, nat>, gone: set<int>)
    requires gone <= maps.Keys
    ensures multiset(maps.Keys) == multiset((maps - gone).Keys) + multiset(gone)
  {
    assert (maps - gone).Keys == maps.Keys - gone;
    assert maps.Keys == (maps.Keys - gone) + gone;
  }

  lemma RowInMaps(maps: map<int, nat>, handles: seq<int>, p: nat, pages: nat)
    requires UnmapSucceeds(maps, handles, p, pages)
    ensures RowHandles(handles, p, pages) <= maps.Keys
  {
  }

  // ---- the balance of one action

  ghost predicate Balanced(s: State, a: Action)
    requires Enabled(s, a)
  {
    multiset(Step(s, a).maps.Keys) + UnmappedBy(s, a) == multiset(s.maps.Keys) + MappedBy(s, a)
  }

  lemma FailedRowBalance(handles: seq<int>, maps: map<int, nat>, jobs: map<nat, Job>, pool: nat, p: nat, row: seq<int>)
    requires HandleInv(handles, maps, jobs, pool) && (p in jobs ==> !jobs[p].submitted) && p < pool
    requires |row| <= MAX_SEGMENTS && FreshHandles(maps, row)
    ensures 11 * p + |row| <= |handles|
    ensures multiset(UnmapTo(FillRow(handles, p, row), p, |row|)) == Valid(row)
  {
    var handles', maps' := FillRow(handles, p, row), MapRow(maps, p, row);
    UndoRow(handles, maps, jobs, pool, p, row);
    UnmapIsRow(maps', handles', p, |row|, |row|);
    RowInMaps(maps', handles', p, |row|);
    DropKeys(maps', RowHandles(handles', p, |row|));
    MapRowKeys(maps, p, row);
    Cancel(multiset(maps.Keys), multiset(RowHandles(handles', p, |row|)), Valid(row));
  }

  lemma Cancel(a: multiset<int>, x: multiset<int>, y: multiset<int>)
    requires a + x == a + y
    ensures x == y
  {
    forall h: int
      ensures x[h] == y[h]
    {
      assert (a + x)[h] == (a + y)[h];
    }
  }

  lemma SubmittedBalance(s: State, g: Ghost, n: nat, pool: nat, total: multiset<nat>, o: Outcome)
    requires Submits(s, o) && Enabled(s, Dispatch(o)) && Inv(s, g, n, pool, total)
    ensures Balanced(s, Dispatch(o))
  {
    var k := SubmittedExplicit(s, g, n, pool, total, o);
    MapRowKeys(s.maps, s.claim.value.p, o.row);
    SubmittedMaps(s, o);
  }

  lemma SubmittedMaps(s: State, o: Outcome)
    requires Submits(s, o)
    ensures MapsPages(s, o)
  {
  }

  lemma RejectedMaps(s: State, g: Ghost, n: nat, o: Outcome)
    requires Rejects(s, o) && Enabled(s, Dispatch(o)) && RingSize(n) && Size(s) == n && Stored(s, g)
    requires DispatchOf(s, o).maps == s.maps && DispatchOf(s, o).b == s.b.(pool := DispatchOf(s, o).b.pool)
    ensures Step(s, Dispatch(o)).maps == s.maps
  {
    RejectedEffect(s, g, n, o);
  }

  lemma UndoneAtOnce(s: State, g: Ghost, n: nat, pool: nat, total: multiset<nat>, o: Outcome)
    requires Rejects(s, o) && Enabled(s, Dispatch(o)) && Inv(s, g, n, pool, total)
    ensures UnmappedBy(s, Dispatch(o)) == MappedBy(s, Dispatch(o))
  {
    if MapsPages(s, o) {
      ClaimFacts(s, g, n, pool, total);
      RejectedRow(s, o);
      FailedRowBalance(s.b.handles, s.maps, g.d.jobs, pool, s.claim.value.p, o.row);
    }
  }

  lemma RejectedBalance(s: State, g: Ghost, n: nat, pool: nat, total: multiset<nat>, o: Outcome)
    requires Rejects(s, o) && Enabled(s, Dispatch(o)) && Inv(s, g, n, pool, total)
    ensures Balanced(s, Dispatch(o))
  {
    RejectedShape(s, g, n, pool, total, o);
    RejectedMaps(s, g, n, o);
    UndoneAtOnce(s, g, n, pool, total, o);
  }

  lemma RejectedRow(s: State, o: Outcome)
    requires Rejects(s, o) && MapsPages(s, o)
    ensures INVALID_HANDLE in o.row && |o.row| <= MAX_SEGMENTS
  {
  }

  lemma DispatchBalance(s: State, g: Ghost, n: nat, pool: nat, total: multiset<nat>, o: Outcome)
    requires Enabled(s, Dispatch(o)) && Inv(s, g, n, pool, total)
    ensures Balanced(s, Dispatch(o))
  {
    ClaimFacts(s, g, n, pool, total);
    DispatchOutcome(s.b, s.maps, s.blockSize, s.claim.value.p, s.claim.value.req, o, g.d.jobs);
    if DispatchOf(s, o).Submitted? {
      SubmittedBalance(s, g, n, pool, total, o);
    } else {
      RejectedBalance(s, g, n, pool, total, o);
    }
  }

  lemma LastBalance(s: State, g: Ghost, n: nat, p: nat, error: bool)
    requires LastBio(s, p, error) && Enabled(s, BioDone(p, error)) && RingSize(n) && Size(s) == n && Stored(s, g)
    requires RowFits(s, p, s.b.pool[p].pages) && UnmapSucceeds(s.maps, s.b.handles, p, s.b.pool[p].pages)
    ensures Balanced(s, BioDone(p, error))
  {
    var pages := s.b.pool[p].pages;
    LastEffect(s, g, n, p, error);
    UnmapIsRow(s.maps, s.b.handles, p, pages, pages);
    RowInMaps(s.maps, s.b.handles, p, pages);
    DropKeys(s.maps, RowHandles(s.b.handles, p, pages));
  }

  lemma NotLastBalance(s: State, p: nat, error: bool)
    requires NotLastBio(s, p, error) && Enabled(s, BioDone(p, error))
    ensures Balanced(s, BioDone(p, error))
  {
    NotLastEffect(s, p, error);
  }

  lemma BioBalance(s: State, g: Ghost, n: nat, pool: nat, total: multiset<nat>, p: nat, error: bool)
    requires Enabled(s, BioDone(p, error)) && Inv(s, g, n, pool, total)
    ensures Balanced(s, BioDone(p, error))
  {
    BioFacts(s, g, n, pool, total, p);
    LastUnmaps(s, g, n, pool, total, p);
    if s.b.pool[p].pendcnt == 1 {
      LastBalance(s, g, n, p, error);
    } else {
      NotLastBalance(s, p, error);
    }
  }

  lemma OtherBalance(s: State, a: Action)
    requires Enabled(s, a) && !a.Dispatch? && !a.BioDone?
    ensures Balanced(s, a)
  {
  }

  lemma StepBalance(s: State, g: Ghost, n: nat, pool: nat, total: multiset<nat>, a: Action)
    requires Enabled(s, a) && Inv(s, g, n, pool, total)
    ensures Balanced(s, a)
  {
    if a.Dispatch? {
      DispatchBalance(s, g, n, pool, total, a.outcome);
    } else if a.BioDone? {
      BioBalance(s, g, n, pool, total, a.p, a.error);
    } else {
      OtherBalance(s, a);
    }
  }

  lemma Chain(k0: multiset<int>, k1: multiset<int>, k2: multiset<int>, m: multiset<int>, u: multiset<int>,
              m': multiset<int>, u': multiset<int>)
    requires k1 + u == k0 + m && k2 + u' == k1 + m'
    ensures k2 + (u + u') == k0 + (m + m')
  {
    forall h: int
      ensures (k2 + (u + u'))[h] == (k0 + (m + m'))[h]
    {
      assert (k1 + u)[h] == (k0 + m)[h] && (k2 + u')[h] == (k1 + m')[h];
    }
  }

  lemma {:induction false} RunBalance(s: State, g: Ghost, n: nat, pool: nat, total: multiset<nat>, acts: seq<Action>)
    requires Legal(s, acts) && Inv(s, g, n, pool, total)
    ensures multiset(Exec(s, acts).maps.Keys) + Unmapped(s, acts) == multiset(s.maps.Keys) + Mapped(s, acts)
    decreases |acts|
  {
    if acts != [] {
      var s1 := Step(s, acts[0]);
      var g1 := StepInv(s, g, n, pool, total, acts[0]);
      StepBalance(s, g, n, pool, total, acts[0]);
      RunBalance(s1, g1, n, pool, total, acts[1..]);
      Chain(multiset(s.maps.Keys), multiset(s1.maps.Keys), multiset(Exec(s, acts).maps.Keys),
            MappedBy(s, acts[0]), UnmappedBy(s, acts[0]), Mapped(s1, acts[1..]), Unmapped(s1, acts[1..]));
    }
  }

  /** Over every run, the handles handed out by the hypervisor are, each as often, those passed back to it and those
      of the mappings still live. */
  lemma EachMappingUndoneOnce(r: Run)
    requires r.Legal()
    ensures var s0 := Init(r.n, r.pool, r.refs, r.blockSize);
            Mapped(s0, r.acts) == Unmapped(s0, r.acts) + multiset(r.Final().maps.Keys)
  {
    var s0 := Init(r.n, r.pool, r.refs, r.blockSize);
    var g := InitInv(r.n, r.pool, r.refs, r.blockSize);
    RunBalance(s0, g, r.n, r.pool, r.refs, r.acts);
    InitMaps(r.n, r.pool, r.refs, r.blockSize);
    FromNothing(multiset(r.Final().maps.Keys), Unmapped(s0, r.acts), Mapped(s0, r.acts));
  }

  lemma InitMaps(n: nat, pool: nat, refs: multiset<nat>, blockSize: nat)
    requires n > 0
    ensures multiset(Init(n, pool, refs, blockSize).maps.Keys) == multiset{}
  {
  }

  lemma FromNothing(k: multiset<int>, u: multiset<int>, m: multiset<int>)
    requires k + u == multiset{} + m
    ensures m == u + k
  {
    forall h: int
      ensures m[h] == (u + k)[h]
    {
      assert (k + u)[h] == (multiset{} + m)[h];
    }
  }

  /** When no bio is unfinished nothing is mapped, so every handle has been passed back as often as handed out. */
  lemma NothingLeftMapped(r: Run)
    requires r.Legal() && r.Final().bios == multiset{}
    ensures var s0 := Init(r.n, r.pool, r.refs, r.blockSize); Mapped(s0, r.acts) == Unmapped(s0, r.acts)
  {
    EachMappingUndoneOnce(r);
    MappingsMatchBios(r);
    var s := r.Final();
    forall j | 0 <= j < |s.b.handles|
      ensures s.b.handles[j] == INVALID_HANDLE
    {
    }
    assert forall h :: h !in s.maps;
    assert s.maps.Keys == {};
  }
}
