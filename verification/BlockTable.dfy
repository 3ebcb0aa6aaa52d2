/**
  * An inode's two-level block table: vectors of sixteen device blocks, created on
  * demand, freed when empty, with a four bit count of the mapped slots.
  *
  * The count of a full vector wraps to zero, the value that means "free me".  The table
  * is nevertheless a finite map: what is looked up is what was last put there, no vector
  * with a mapped slot is freed, and the table is as long as its last mapped vector.
  */
module BlockTable {
  const SLOTS := 16
  const GROWTH := 256

  // A mapped device block has a positive number.
  datatype Dblk = Dblk(blkno: int, holeoff: int, holelen: int)

  const ZERO_BLOCK := Dblk(0, 0, 0)

  // A null vector is the empty sequence; count has four bits.
  datatype Table = Table(vect: seq<Dblk>, count: int)

  const NO_TABLE := Table([], 0)

  function TableIdx(id: int): int
    requires id >= 0
  {
    id / SLOTS
  }

  function VectorIdx(id: int): int
    requires id >= 0
  {
    id % SLOTS
  }

  // ------------------------------------------------------------------- vectors

  function Used(v: seq<Dblk>): nat {
    if v == [] then 0
    else Used(v[..|v| - 1]) + (if v[|v| - 1].blkno != 0 then 1 else 0)
  }

  lemma {:induction false} UsedBound(v: seq<Dblk>)
    ensures Used(v) <= |v|
    ensures Used(v) == 0 <==> forall i: nat :: i < |v| ==> v[i].blkno == 0
    ensures Used(v) == |v| <==> forall i: nat :: i < |v| ==> v[i].blkno != 0
  {
    if v != [] {
      var w := v[..|v| - 1];
      UsedBound(w);
      assert forall i: nat :: i < |w| ==> w[i] == v[i];
    }
  }

  lemma {:induction false} UsedUpdate(v: seq<Dblk>, i: nat, d: Dblk)
    requires i < |v|
    ensures Used(v[i := d]) == Used(v) - (if v[i].blkno != 0 then 1 else 0) + (if d.blkno != 0 then 1 else 0)
  {
    var w := v[i := d];
    if i == |v| - 1 {
      assert w[..|v| - 1] == v[..|v| - 1];
    } else {
      assert w[..|v| - 1] == v[..|v| - 1][i := d];
      UsedUpdate(v[..|v| - 1], i, d);
    }
  }

  // --------------------------------------------------------------------- tables

  /** A vector exists if and only if some slot is mapped; the count is the number of mapped slots, mod 16. */
  ghost predicate TableOk(t: Table) {
    if t.vect == [] then t.count == 0
    else
      && |t.vect| == SLOTS && Used(t.vect) > 0 && t.count == Used(t.vect) % SLOTS
      && forall i: nat :: i < SLOTS && t.vect[i].blkno == 0 ==> t.vect[i] == ZERO_BLOCK
  }

  function SlotOf(t: Table, i: int): Dblk {
    if 0 <= i < |t.vect| then t.vect[i] else ZERO_BLOCK
  }

  ghost predicate Ok(tables: seq<Table>, nsoft: nat) {
    && nsoft <= |tables|
    && (forall k: nat :: k < |tables| ==> TableOk(tables[k]))
    && (forall k: nat :: nsoft <= k < |tables| ==> tables[k].vect == [])
    && (nsoft > 0 ==> tables[nsoft - 1].vect != [])
  }

  // What the table maps block id to; ZERO_BLOCK if nothing.
  function Lookup(tables: seq<Table>, nsoft: nat, id: int): Dblk
    requires nsoft <= |tables|
  {
    if id < 0 || TableIdx(id) >= nsoft then ZERO_BLOCK
    else SlotOf(tables[TableIdx(id)], VectorIdx(id))
  }

  // The table as a finite map.
  function MapOf(tables: seq<Table>, nsoft: nat): map<int, Dblk>
    requires nsoft <= |tables|
  {
    map id | 0 <= id < nsoft * SLOTS && Lookup(tables, nsoft, id).blkno != 0 :: Lookup(tables, nsoft, id)
  }

  lemma MapIs(tables: seq<Table>, nsoft: nat, m: map<int, Dblk>)
    requires Ok(tables, nsoft) && forall j: int :: Lookup(tables, nsoft, j) == if j in m then m[j] else ZERO_BLOCK
    requires forall j: int :: j in m ==> m[j].blkno != 0
    ensures MapOf(tables, nsoft) == m
  {
    forall j: int ensures j in MapOf(tables, nsoft) <==> j in m {
      assert j in m ==> Lookup(tables, nsoft, j).blkno != 0;
      assert Lookup(tables, nsoft, j) != ZERO_BLOCK ==> 0 <= j && j < nsoft * SLOTS;
    }
  }

  lemma MapAt(tables: seq<Table>, nsoft: nat)
    requires Ok(tables, nsoft)
    ensures forall j: int ::
      Lookup(tables, nsoft, j) ==
        if j in MapOf(tables, nsoft) then MapOf(tables, nsoft)[j] else ZERO_BLOCK
  {
    forall j: int ensures j !in MapOf(tables, nsoft) ==> Lookup(tables, nsoft, j) == ZERO_BLOCK {
      ZeroIfUnmapped(tables, nsoft, j);
    }
  }

  /** Changing one slot of one table changes one block id. */
  lemma LookupUpdate(tables: seq<Table>, nsoft: nat, id: int, t: Table, d: Dblk)
    requires id >= 0 && TableIdx(id) < nsoft <= |tables|
    requires forall x: int :: SlotOf(t, x) == if x == VectorIdx(id) then d else SlotOf(tables[TableIdx(id)], x)
    ensures forall j: int ::
      Lookup(tables[TableIdx(id) := t], nsoft, j) ==
        if j == id then d else Lookup(tables, nsoft, j)
  {
    forall j: int
      ensures Lookup(tables[TableIdx(id) := t], nsoft, j) == if j == id then d else Lookup(tables, nsoft, j)
    {
      if j >= 0 {
        assert j == TableIdx(j) * SLOTS + VectorIdx(j) && id == TableIdx(id) * SLOTS + VectorIdx(id);
      }
    }
  }

  /** Tables without a vector map nothing, so the length of the table does not matter beyond the last one. */
  lemma LookupResized(tables: seq<Table>, nsoft: nat, tables': seq<Table>, nsoft': nat)
    requires nsoft <= |tables| && nsoft' <= |tables'|
    requires forall k: nat :: k < nsoft && k < nsoft' ==> tables'[k] == tables[k]
    requires forall k: nat :: nsoft' <= k < nsoft ==> tables[k].vect == []
    requires forall k: nat :: nsoft <= k < nsoft' ==> tables'[k].vect == []
    ensures forall j: int :: Lookup(tables', nsoft', j) == Lookup(tables, nsoft, j)
  {
  }

  /** pfs_inode_trycreate_blkvec, the count, and pfs_dblk_init. */
  method SetSlot(t: Table, i: int, d: Dblk) returns (r: Table)
    requires TableOk(t) && 0 <= i < SLOTS && d.blkno != 0
    ensures TableOk(r) && r.vect != []
    ensures forall x: int :: SlotOf(r, x) == if x == i then d else SlotOf(t, x)
  {
    r := t;
    if r.vect == [] {
      r := r.(vect := seq(SLOTS, (s: nat) => ZERO_BLOCK));
    }
    UsedBound(r.vect);
    UsedUpdate(r.vect, i, d);
    UsedBound(r.vect[i := d]);
    if r.vect[i].blkno == 0 {
      r := r.(count := (r.count + 1) % SLOTS);
    }
    r := r.(vect := r.vect[i := d]);
  }

  /** pfs_inode_remove_blk on one table: the vector goes with its last mapped slot, and not before. */
  method ClearSlot(t: Table, i: int) returns (r: Table)
    requires TableOk(t) && 0 <= i < SLOTS && t.vect != []
    ensures TableOk(r) && (r.vect == [] <==> Used(t.vect[i := ZERO_BLOCK]) == 0)
    ensures forall x: int :: SlotOf(r, x) == if x == i then ZERO_BLOCK else SlotOf(t, x)
  {
    r := t;
    UsedUpdate(t.vect, i, ZERO_BLOCK);
    UsedBound(t.vect);
    UsedBound(t.vect[i := ZERO_BLOCK]);
    if t.vect[i].blkno != 0 {
      r := Table(t.vect[i := ZERO_BLOCK], (t.count + SLOTS - 1) % SLOTS);
    }
    assert r.vect == t.vect[i := ZERO_BLOCK];
    assert r.vect[i].blkno == 0 && Used(r.vect) < SLOTS && r.count == Used(r.vect);
    if r.count == 0 {
      forall x: int | x != i ensures SlotOf(t, x) == ZERO_BLOCK {
        if 0 <= x < SLOTS {
          assert r.vect[x] == t.vect[x] && r.vect[x].blkno == 0;
        }
      }
      r := NO_TABLE;
    }
  }

  // roundup(want, INODE_BLK_TABLE_INC) from two tables on
  function Rounded(want: nat): (n: nat)
    ensures n >= want
  {
    if want > 1 then (want + GROWTH - 1) / GROWTH * GROWTH else want
  }

  class Blocks {
    var tables: seq<Table>    // in_blk_tables, in_blk_table_nhard of them
    var nsoft: nat

    ghost predicate Valid() reads this {
      Ok(tables, nsoft)
    }

    ghost function Map(): map<int, Dblk>
      requires Valid()
      reads this
    {
      MapOf(tables, nsoft)
    }

    // pfs_inode_init_blktable
    constructor ()
      ensures Valid() && nsoft == 0 && Map() == map[]
    {
      tables, nsoft := [], 0;
    }

    /** pfs_inode_realloc_blk_table: room for `want` tables, new ones zero. */
    method Resize(want: nat)
      requires forall k: nat :: want <= k < |tables| ==> tables[k] == NO_TABLE
      modifies this`tables
      ensures |tables| >= want
      ensures forall k: nat :: k < |tables| ==> tables[k] == (if k < |old(tables)| then old(tables)[k] else NO_TABLE)
      ensures forall k: nat :: |tables| <= k < |old(tables)| ==> old(tables)[k] == NO_TABLE
    {
      var n := Rounded(want);
      if |tables| < n {
        tables := tables + seq(n - |tables|, (i: nat) => NO_TABLE);
      } else {
        tables := tables[..n];
      }
    }

    // pfs_inode_get_blk
    method Get(id: int) returns (d: Dblk)
      requires Valid() && id >= 0
      ensures d == if id in Map() then Map()[id] else ZERO_BLOCK
    {
      MapAt(tables, nsoft);
      d := ZERO_BLOCK;
      if TableIdx(id) < nsoft && tables[TableIdx(id)].vect != [] {
        d := tables[TableIdx(id)].vect[VectorIdx(id)];
      }
    }

    /** pfs_inode_add_blk and the pfs_dblk_init that follows it. */
    method Put(id: int, d: Dblk)
      requires Valid() && id >= 0 && d.blkno != 0
      modifies this
      ensures Valid() && Map() == old(Map())[id := d]
    {
      hide MapOf;
      MapAt(tables, nsoft);
      var k := TableIdx(id);
      if nsoft <= k {
        Resize(k + 1);
        nsoft := k + 1;
        LookupResized(old(tables), old(nsoft), tables, nsoft);
      }
      var t := SetSlot(tables[k], VectorIdx(id), d);
      LookupUpdate(tables, nsoft, id, t, d);
      tables := tables[k := t];
      MappedNonZero(old(tables), old(nsoft));
      MapIs(tables, nsoft, MapOf(old(tables), old(nsoft))[id := d]);
    }

    /**
      * pfs_inode_remove_blk and pfs_inode_tryremove_blk_table: a vector that has become
      * empty is freed, and the table ends at its last vector.
      */
    method Remove(id: int)
      requires Valid() && id >= 0
      modifies this
      ensures Valid() && nsoft <= old(nsoft) && Map() == old(Map()) - {id}
    {
      hide MapOf;
      MapAt(tables, nsoft);
      MappedNonZero(tables, nsoft);
      var k := TableIdx(id);
      if k >= nsoft || tables[k].vect == [] {
        MapIs(tables, nsoft, MapOf(tables, nsoft) - {id});
        return;
      }
      var t := ClearSlot(tables[k], VectorIdx(id));
      LookupUpdate(tables, nsoft, id, t, ZERO_BLOCK);
      tables := tables[k := t];
      if t.vect == [] && k == nsoft - 1 {
        Shrink();
      }
      MapIs(tables, nsoft, MapOf(old(tables), old(nsoft)) - {id});
    }

    // The end of pfs_inode_tryremove_blk_table, after the last vector was freed.
    method Shrink()
      requires nsoft > 0 && nsoft <= |tables| && (forall k: nat :: k < |tables| ==> TableOk(tables[k]))
      requires forall k: nat :: nsoft - 1 <= k < |tables| ==> tables[k].vect == []
      modifies this
      ensures Valid() && nsoft <= old(nsoft)
      ensures forall j: int :: Lookup(tables, nsoft, j) == old(Lookup(tables, nsoft, j))
    {
      var idx := nsoft - 2;
      while idx >= 0 && tables[idx].vect == []
        invariant -1 <= idx < nsoft
        invariant forall k: nat :: idx < k < |tables| ==> tables[k].vect == []
      {
        idx := idx - 1;
      }
      nsoft := idx + 1;
      Resize(nsoft);
      LookupResized(old(tables), old(nsoft), tables, nsoft);
    }

    /**
      * pfs_inode_del_from: deletes block after block while the table shrinks under it.
      * On success exactly the ids from `start` on are gone; if a deletion fails, exactly
      * those from `start` up to it.
      */
    method DeleteFrom(start: int) returns (ok: bool, stop: int)
      requires Valid() && start >= 0
      modifies this
      ensures Valid() && stop >= start
      ensures Map() == map j | j in old(Map()) && (j < start || (!ok && stop <= j)) :: old(Map())[j]
      ensures !ok ==> stop in old(Map())
    {
      hide MapOf;
      var id := start;
      var table := TableIdx(id);
      while table < nsoft
        invariant Valid() && id >= start && table == TableIdx(id)
        invariant Map() == Cut(old(Map()), start, id)
        invariant id > start ==> VectorIdx(id) == 0
        decreases old(nsoft) - table
        invariant nsoft <= old(nsoft)
      {
        var idx := VectorIdx(id);
        ghost var first := id - idx;
        while idx < SLOTS
          invariant Valid() && id >= start && 0 <= idx <= SLOTS && id == first + idx && nsoft <= old(nsoft)
          invariant Map() == Cut(old(Map()), start, id)
          decreases SLOTS - idx
        {
          var d := Get(id);
          MappedNonZero(tables, nsoft);
          if d.blkno != 0 {
            if * { return false, id; }
            Remove(id);
          }
          assert Map() == Cut(old(Map()), start, id + 1);
          idx, id := idx + 1, id + 1;
        }
        table := table + 1;
      }
      ok, stop := true, id;
      NoneBeyond(tables, nsoft, id);
    }
  }

  // The map without the ids from start up to stop.
  ghost function Cut(m: map<int, Dblk>, start: int, stop: int): map<int, Dblk> {
    map j | j in m && !(start <= j < stop) :: m[j]
  }

  lemma MappedNonZero(tables: seq<Table>, nsoft: nat)
    requires nsoft <= |tables|
    ensures forall j: int :: j in MapOf(tables, nsoft) ==> j >= 0 && MapOf(tables, nsoft)[j].blkno != 0
  {
  }

  lemma NoneBeyond(tables: seq<Table>, nsoft: nat, id: int)
    requires nsoft <= |tables| && id >= 0 && TableIdx(id) >= nsoft
    ensures forall j: int :: j in MapOf(tables, nsoft) ==> j < id
  {
  }

  lemma ZeroIfUnmapped(tables: seq<Table>, nsoft: nat, id: int)
    requires Ok(tables, nsoft)
    ensures Lookup(tables, nsoft, id).blkno == 0 ==> Lookup(tables, nsoft, id) == ZERO_BLOCK
  {
  }
}
