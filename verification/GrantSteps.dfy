/** Mapping and unmapping the pages of a pool entry: what dispatch and completion do to the handle table
    and to the hypervisor's live mappings. */
module GrantSteps {
  import opened Protocol
  import opened Invariant

  lemma RowOf(j: nat, p: nat, pages: nat)
    requires pages <= 11
    ensures InRow(j, p, pages) <==> j / 11 == p && j % 11 < pages
  {
  }

  lemma {:induction false} MapRowContents(maps: map<int, nat>, p: nat, row: seq<int>)
    requires FreshHandles(maps, row)
    ensures forall h :: h in MapRow(maps, p, row) <==> h in maps || (h in row && h != INVALID_HANDLE)
    ensures forall h :: h in maps ==> MapRow(maps, p, row)[h] == maps[h]
    ensures forall i :: 0 <= i < |row| && row[i] != INVALID_HANDLE ==> MapRow(maps, p, row)[row[i]] == 11 * p + i
  {
    if row != [] {
      var last := |row| - 1;
      var front := row[..last];
      MapRowContents(maps, p, front);
      assert forall h :: h in row <==> h in front || h == row[last];
      assert forall i :: 0 <= i < last ==> front[i] == row[i];
    }
  }

  /** The row of an entry that has no submitted bios holds no handle. */
  lemma RowUnused(handles: seq<int>, maps: map<int, nat>, jobs: map<nat, Job>, pool: nat, p: nat, j: int)
    requires HandleInv(handles, maps, jobs, pool) && (p in jobs ==> !jobs[p].submitted)
    requires 0 <= j < |handles| && InRow(j, p, 11)
    ensures handles[j] == INVALID_HANDLE
  {
    RowOf(j, p, 11);
  }

  /** Mapping every segment of a claimed entry keeps handles and mappings inverse to each other. */
  lemma BeginHandles(handles: seq<int>, maps: map<int, nat>, jobs: map<nat, Job>, pool: nat, p: nat, row: seq<int>)
    requires HandleInv(handles, maps, jobs, pool) && p in jobs && !jobs[p].submitted && p < pool
    requires |row| == |jobs[p].req.segs| <= MAX_SEGMENTS && FreshHandles(maps, row) && INVALID_HANDLE !in row
    ensures HandleInv(FillRow(handles, p, row), MapRow(maps, p, row), jobs[p := jobs[p].(submitted := true)], pool)
  {
    MapRowContents(maps, p, row);
    var jobs' := jobs[p := jobs[p].(submitted := true)];
    var handles', maps' := FillRow(handles, p, row), MapRow(maps, p, row);
    forall j | 0 <= j < |handles'| && handles'[j] != INVALID_HANDLE
      ensures handles'[j] in maps' && maps'[handles'[j]] == j
      ensures j / 11 in jobs' && jobs'[j / 11].submitted && j % 11 < |jobs'[j / 11].req.segs|
    {
      RowOf(j, p, |row|);
    }
    forall h | h in maps'
      ensures maps'[h] < |handles'| && handles'[maps'[h]] == h && h != INVALID_HANDLE
    {
      if h in maps {
        var j := maps[h];
        assert handles[j] == h;
        if InRow(j, p, 11) { RowUnused(handles, maps, jobs, pool, p, j); }
      } else {
        var i :| 0 <= i < |row| && row[i] == h;
        assert maps'[h] == 11 * p + i;
      }
    }
  }

  /** After a partial failure the unmapping succeeds and undoes everything the mapping did. */
  lemma UndoRow(handles: seq<int>, maps: map<int, nat>, jobs: map<nat, Job>, pool: nat, p: nat, row: seq<int>)
    requires HandleInv(handles, maps, jobs, pool) && (p in jobs ==> !jobs[p].submitted) && p < pool
    requires |row| <= MAX_SEGMENTS && FreshHandles(maps, row)
    ensures UnmapSucceeds(MapRow(maps, p, row), FillRow(handles, p, row), p, |row|)
    ensures ClearRow(FillRow(handles, p, row), p, |row|) == handles
    ensures MapRow(maps, p, row) - RowHandles(FillRow(handles, p, row), p, |row|) == maps
  {
    forall j | 0 <= j < |handles| && InRow(j, p, |row|)
      ensures handles[j] == INVALID_HANDLE
    {
      RowUnused(handles, maps, jobs, pool, p, j);
    }
    MapRowContents(maps, p, row);
    UndoMaps(handles, maps, pool, p, row);
  }

  lemma UndoMaps(handles: seq<int>, maps: map<int, nat>, pool: nat, p: nat, row: seq<int>)
    requires |handles| == 11 * pool && p < pool && |row| <= MAX_SEGMENTS && FreshHandles(maps, row)
    ensures MapRow(maps, p, row) - RowHandles(FillRow(handles, p, row), p, |row|) == maps
  {
    MapRowContents(maps, p, row);
    var gone := RowHandles(FillRow(handles, p, row), p, |row|);
    forall h | h in row && h != INVALID_HANDLE
      ensures h in gone
    {
      RowIsHeld(handles, p, row, pool, h);
    }
    assert gone !! maps.Keys;
  }

  lemma RowIsHeld(handles: seq<int>, p: nat, row: seq<int>, pool: nat, h: int)
    requires |handles| == 11 * pool && p < pool && |row| <= MAX_SEGMENTS && h in row && h != INVALID_HANDLE
    ensures h in RowHandles(FillRow(handles, p, row), p, |row|)
  {
    var i :| 0 <= i < |row| && row[i] == h;
    assert FillRow(handles, p, row)[11 * p + i] == h;
  }

  /** At the last bio the unmapping succeeds, and no mapping of the entry is left. */
  lemma LastHandles(handles: seq<int>, maps: map<int, nat>, jobs: map<nat, Job>, pool: nat, p: nat, pages: nat)
    requires HandleInv(handles, maps, jobs, pool) && p in jobs && pages == |jobs[p].req.segs| <= MAX_SEGMENTS
    ensures UnmapSucceeds(maps, handles, p, pages)
    ensures HandleInv(ClearRow(handles, p, pages), maps - RowHandles(handles, p, pages), jobs - {p}, pool)
  {
    var gone := RowHandles(handles, p, pages);
    var handles' := ClearRow(handles, p, pages);
    var maps' := maps - gone;
    forall j | 0 <= j < |handles'| && handles'[j] != INVALID_HANDLE
      ensures handles'[j] in maps' && maps'[handles'[j]] == j
      ensures j / 11 in jobs - {p} && jobs[j / 11].submitted && j % 11 < |jobs[j / 11].req.segs|
    {
      RowOf(j, p, pages);
    }
    forall h | h in maps'
      ensures maps'[h] < |handles'| && handles'[maps'[h]] == h && h != INVALID_HANDLE
    {
      assert handles[maps[h]] == h;
    }
  }

  lemma RowGrows(handles: seq<int>, p: nat, i: nat)
    requires 11 * p + i < |handles|
    ensures RowHandles(handles, p, i + 1)
         == RowHandles(handles, p, i)
            + (if handles[11 * p + i] == INVALID_HANDLE then {} else {handles[11 * p + i]})
  {
    forall j | 0 <= j < |handles|
      ensures InRow(j, p, i + 1) <==> InRow(j, p, i) || j == 11 * p + i
    {
    }
  }
}
