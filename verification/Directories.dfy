/**
  * Adding, deleting and renaming in the directory tree.
  */
module Directories {
  import opened Common
  import opened DirLists
  import opened DirTree

  datatype Err = Ok | NoEnt | NotDir | IsDir | NotEmpty | Inval | TooMany

  /** The tables are a tree at inode 0, and the lists in memory are its edges. */
  ghost predicate Sane(inodes: Inodes, entries: Entries, lists: Lists, rank: Ranks) {
    var listed, refs, names := Listed(inodes, entries, lists, {}), Refs(inodes, entries),
      OneName(TreeOf(inodes, entries));
    listed && refs && names && Ranked(TreeOf(inodes, entries), rank)
  }

  ghost predicate HasChild(t: Tree, d: int) {
    exists x: int :: x in t && t[x].parent == d
  }

  // ---- the tree through changes of links

  /** The ends of lists and the links are not part of the tree. */
  lemma LinksOnly(inodes: Inodes, entries: Entries, inodes': Inodes, entries': Entries, touched: set<int>)
    requires SameBut(entries, entries', touched) && inodes'.Keys == inodes.Keys
    requires forall i: int :: i in inodes ==> inodes'[i].dir == inodes[i].dir && inodes'[i].deno == inodes[i].deno
    ensures TreeOf(inodes', entries') == TreeOf(inodes, entries)
    ensures Refs(inodes, entries) ==> Refs(inodes', entries')
  {
    if Refs(inodes, entries) {
      assert forall e: int :: e in entries' ==>
        entries'[e].parent == entries[e].parent && Live(inodes, entries[e].parent);
    }
  }

  lemma LiveIsIn(inodes: Inodes, entries: Entries, d: int)
    requires Refs(inodes, entries) && Live(inodes, d)
    ensures d == 0 || d in TreeOf(inodes, entries)
  {
  }

  lemma ClosedTree(inodes: Inodes, entries: Entries)
    requires Refs(inodes, entries)
    ensures Closed(TreeOf(inodes, entries))
  {
    var t := TreeOf(inodes, entries);
    forall x: int | x in t ensures t[x].parent == 0 || t[x].parent in t {
      assert inodes[x].deno in entries;
      LiveIsIn(inodes, entries, t[x].parent);
    }
  }

  lemma NoChildIfEmpty(inodes: Inodes, entries: Entries, lists: Lists, d: int)
    requires Listed(inodes, entries, lists, {}) && Refs(inodes, entries) && d in inodes
    ensures inodes[d].dir ==> (inodes[d].head != 0 <==> HasChild(TreeOf(inodes, entries), d))
    ensures !inodes[d].dir ==> !HasChild(TreeOf(inodes, entries), d)
  {
    var t := TreeOf(inodes, entries);
    if HasChild(t, d) {
      var x: int :| x in t && t[x].parent == d;
      assert InList(lists, d, inodes[x].deno);
      assert LinkOk(entries, lists[d], 0);
    }
    if d in lists && lists[d] != [] {
      assert InList(lists, d, lists[d][0]) && LinkOk(entries, lists[d], 0);
      assert entries[lists[d][0]].ino in t;
    }
  }

  // ---- what each change does to the tables

  lemma NamesGrown(t: Tree, x: int, n: Node)
    requires OneName(t) && forall y: int :: y in t && y != x && t[y].parent == n.parent ==> t[y].name != n.name
    ensures OneName(t[x := n])
  {
  }

  lemma NamesPruned(t: Tree, x: int)
    requires OneName(t)
    ensures OneName(t - {x})
  {
  }

  // The new entry and inode, not in a list yet.
  function WithInode(inodes: Inodes, ino: int, dir: bool, deno: int): Inodes { inodes[ino := Inode(dir, deno, 0, 0)] }

  function WithEntry(entries: Entries, deno: int, ino: int, d: int, name: string): Entries {
    entries[deno := Entry(ino, d, name, 0, 0)]
  }

  function WithList(lists: Lists, ino: int, dir: bool): Lists { if dir then lists[ino := []] else lists }

  lemma AddLists(inodes: Inodes, entries: Entries, lists: Lists, d: int, deno: int, ino: int, name: string, dir: bool)
    requires Listed(inodes, entries, lists, {}) && deno !in entries && ino !in inodes
    ensures Listed(WithInode(inodes, ino, dir, deno), WithEntry(entries, deno, ino, d, name),
                   WithList(lists, ino, dir), {deno})
  {
    var inodes', entries' := WithInode(inodes, ino, dir, deno), WithEntry(entries, deno, ino, d, name);
    var lists' := WithList(lists, ino, dir);
    forall c: int | c in lists' ensures Chain(entries', inodes'[c].head, inodes'[c].tail, lists'[c]) {
      if c in lists {
        assert forall e: int :: e in lists[c] ==> InList(lists, c, e);
        ChainKept(entries, entries', inodes[c].head, inodes[c].tail, lists[c]);
      }
    }
    assert forall c: int, e: int :: InList(lists', c, e) <==> InList(lists, c, e);
  }

  lemma AddRefs(inodes: Inodes, entries: Entries, d: int, deno: int, ino: int, name: string, dir: bool)
    requires Refs(inodes, entries) && Live(inodes, d) && deno > 0 && deno !in entries && ino != 0 && ino !in inodes
    ensures Refs(WithInode(inodes, ino, dir, deno), WithEntry(entries, deno, ino, d, name))
  {
    var inodes', entries' := WithInode(inodes, ino, dir, deno), WithEntry(entries, deno, ino, d, name);
    forall e: int | e in entries' ensures Live(inodes', entries'[e].parent) {
      if e != deno { assert Live(inodes, entries[e].parent); }
    }
  }

  lemma AddTreeOf(inodes: Inodes, entries: Entries, d: int, deno: int, ino: int, name: string, dir: bool)
    requires Refs(inodes, entries) && deno > 0 && deno !in entries && ino != 0 && ino !in inodes
    ensures TreeOf(WithInode(inodes, ino, dir, deno), WithEntry(entries, deno, ino, d, name)) ==
            TreeOf(inodes, entries)[ino := Node(d, name)]
    ensures ino !in TreeOf(inodes, entries) && !HasChild(TreeOf(inodes, entries), ino)
  {
    assert forall i: int :: i in inodes ==> inodes[i].deno != deno;
    assert forall x: int :: x in TreeOf(inodes, entries) ==> Live(inodes, entries[inodes[x].deno].parent);
    hide Refs;
  }

  lemma AddTree(t: Tree, rank: Ranks, d: int, ino: int, name: string)
    requires Ranked(t, rank) && OneName(t) && (d == 0 || d in t) && ino !in t && ino != 0 && d != ino
      && !HasChild(t, ino)
    requires forall x: int :: x in t && t[x].parent == d ==> t[x].name != name
    ensures d in rank && Ranked(t[ino := Node(d, name)], rank[ino := rank[d] + 1]) && OneName(t[ino := Node(d, name)])
  {
    GrownRank(t, rank, ino, Node(d, name));
    NamesGrown(t, ino, Node(d, name));
  }

  function Unlinked(inodes: Inodes, ino: int): Inodes
    requires ino in inodes
  {
    inodes[ino := inodes[ino].(deno := NONE)]
  }

  lemma DelRefs(inodes: Inodes, entries: Entries, e: int, t: Tree)
    requires Refs(inodes, entries) && e in entries && t == TreeOf(inodes, entries) && !HasChild(t, entries[e].ino)
    ensures entries[e].ino in inodes && Refs(Unlinked(inodes, entries[e].ino), entries - {e})
    ensures TreeOf(Unlinked(inodes, entries[e].ino), entries - {e}) == t - {entries[e].ino}
  {
    var ino, entries' := entries[e].ino, entries - {e};
    var inodes' := Unlinked(inodes, ino);
    forall f: int | f in entries' ensures Live(inodes', entries'[f].parent) {
      assert entries[f].ino in t && t[entries[f].ino].parent == entries[f].parent;
      assert Live(inodes, entries[f].parent);
    }
  }

  lemma DelLists(inodes: Inodes, entries: Entries, lists: Lists, e: int, ino: int)
    requires Listed(inodes, entries, lists, {e}) && ino in inodes
    ensures Listed(Unlinked(inodes, ino), entries - {e}, lists, {})
  {
    var inodes', entries' := Unlinked(inodes, ino), entries - {e};
    forall c: int | c in lists ensures Chain(entries', inodes'[c].head, inodes'[c].tail, lists[c]) {
      assert forall f: int :: f in lists[c] ==> InList(lists, c, f);
      ChainKept(entries, entries', inodes[c].head, inodes[c].tail, lists[c]);
    }
  }

  // The entry with its new place and name, not in a list yet.
  function Replaced(entries: Entries, e: int, d: int, name: string): Entries
    requires e in entries
  {
    entries[e := entries[e].(parent := d, name := name)]
  }

  lemma MoveLists(inodes: Inodes, entries: Entries, lists: Lists, e: int, d: int, name: string)
    requires Listed(inodes, entries, lists, {e}) && e in entries
    ensures Listed(inodes, Replaced(entries, e, d, name), lists, {e})
  {
    var entries' := Replaced(entries, e, d, name);
    forall c: int | c in lists ensures Chain(entries', inodes[c].head, inodes[c].tail, lists[c]) {
      assert forall f: int :: f in lists[c] ==> InList(lists, c, f);
      ChainKept(entries, entries', inodes[c].head, inodes[c].tail, lists[c]);
    }
  }

  lemma MoveRefs(inodes: Inodes, entries: Entries, e: int, d: int, name: string)
    requires Refs(inodes, entries) && e in entries && Live(inodes, d)
    ensures Refs(inodes, Replaced(entries, e, d, name))
    ensures TreeOf(inodes, Replaced(entries, e, d, name)) == TreeOf(inodes, entries)[entries[e].ino := Node(d, name)]
  {
    var entries' := Replaced(entries, e, d, name);
    assert forall f: int :: f in entries ==> Live(inodes, entries[f].parent);
  }

  lemma MoveTree(t: Tree, rank: Ranks, o: int, d: int, name: string)
    requires Ranked(t, rank) && OneName(t) && o in t && (d == 0 || d in t) && !Under(t, d, o)
    requires forall x: int :: x in t && x != o && t[x].parent == d ==> t[x].name != name
    ensures d in rank && Ranked(t[o := Node(d, name)], MovedRank(t, rank, o, d)) && OneName(t[o := Node(d, name)])
  {
    MovedTree(t, rank, o, Node(d, name));
    NamesGrown(t, o, Node(d, name));
  }

  /** A new file system: the root and nothing else. */
  lemma RootOnly(inodes: Inodes, entries: Entries, lists: Lists, rank: Ranks)
    requires (forall i: int :: i in inodes <==> i == 0) && inodes[0] == Inode(true, NONE, 0, 0)
      && (forall e: int :: e !in entries)
    requires (forall d: int :: d in lists <==> d == 0) && lists[0] == [] && (forall x: int :: x in rank <==> x == 0)
      && rank[0] == 0
    ensures Sane(inodes, entries, lists, rank) && TreeOf(inodes, entries) == map[]
  {
    assert forall i: int :: i !in TreeOf(inodes, entries);
    assert forall d: int, e: int :: !InList(lists, d, e);
    assert Chain(entries, 0, 0, []);
  }

  // ---- the operations

  class Dirs {
    var inodes: Inodes
    var entries: Entries
    ghost var lists: Lists
    ghost var rank: Ranks

    ghost predicate Valid() reads this {
      Sane(inodes, entries, lists, rank)
    }

    ghost function Tree(): Tree reads this {
      TreeOf(inodes, entries)
    }

    constructor ()
      ensures Valid() && Tree() == map[] && inodes.Keys == {0} && Live(inodes, 0)
    {
      hide Sane, TreeOf;
      RootOnly(map[0 := Inode(true, NONE, 0, 0)], map[], map[0 := []], map[0 := 0]);
      inodes, entries, lists, rank := map[0 := Inode(true, NONE, 0, 0)], map[], map[0 := []], map[0 := 0];
    }

    // pfs_meta_list_insert
    method ListInsert(d: int, e: int)
      requires Listed(inodes, entries, lists, {e}) && d in lists && e in entries && e > 0
      requires entries[e].parent == d && entries[e].prev == 0 && entries[e].next == 0
      modifies this`inodes, this`entries, this`lists
      ensures Listed(inodes, entries, lists, {}) && Tree() == old(Tree())
        && (old(Refs(inodes, entries)) ==> Refs(inodes, entries))
      ensures inodes.Keys == old(inodes).Keys
      ensures forall i: int :: i in inodes ==>
        inodes[i].deno == old(inodes)[i].deno && inodes[i].dir == old(inodes)[i].dir
    {
      hide Listed, Refs, TreeOf, Chain, InsertedEntries;
      DirOf(inodes, entries, lists, {e}, d);
      AttachListed(inodes, entries, lists, d, e);
      ghost var was, wasEntries := inodes, entries;
      lists := lists[d := lists[d] + [e]];
      var head, tail := inodes[d].head, inodes[d].tail;
      inodes := AttachedInodes(inodes, d, e);
      entries := InsertedEntries(entries, head, tail, e);
      LinksOnly(was, wasEntries, inodes, entries, {e, tail});
    }

    // pfs_meta_list_delete
    method ListDelete(d: int, e: int)
      requires Listed(inodes, entries, lists, {}) && InList(lists, d, e)
      modifies this`inodes, this`entries, this`lists
      ensures Listed(inodes, entries, lists, {e}) && Tree() == old(Tree())
        && (old(Refs(inodes, entries)) ==> Refs(inodes, entries))
      ensures e in old(entries) && e in entries && entries[e] == old(entries)[e].(prev := 0, next := 0)
      ensures lists.Keys == old(lists).Keys
      ensures inodes.Keys == old(inodes).Keys
      ensures forall i: int :: i in inodes ==>
        inodes[i].deno == old(inodes)[i].deno && inodes[i].dir == old(inodes)[i].dir
    {
      hide Listed, Refs, TreeOf, Chain, DeletedEntries;
      ghost var k := Position(lists[d], e);
      DetachListed(inodes, entries, lists, d, e, k);
      ghost var was, wasEntries := inodes, entries;
      lists := lists[d := Without(lists[d], k)];
      inodes, entries := DetachedInodes(inodes, entries, d, e), DeletedEntries(entries, e);
      LinksOnly(was, wasEntries, inodes, entries, {e, wasEntries[e].prev, wasEntries[e].next});
    }

    /** pfs_dir_add: the name is not there, and the allocator gives an entry and an inode if it has them. */
    method Add(dirino: int, name: string, dir: bool, room: bool, deno: int, ino: int) returns (err: Err)
      requires Valid() && (room ==> deno > 0 && deno !in entries && ino != 0 && ino !in inodes)
      requires dirino in inodes && inodes[dirino].dir ==> Live(inodes, dirino)
      requires forall x: int :: x in Tree() && Tree()[x].parent == dirino ==> Tree()[x].name != name
      modifies this
      ensures Valid()
      ensures err == if dirino !in old(inodes) then NoEnt else if !old(inodes)[dirino].dir then NotDir else if !room
        then TooMany else Ok
      ensures err != Ok ==> inodes == old(inodes) && entries == old(entries)
      ensures err == Ok ==> Tree() == old(Tree())[ino := Node(dirino, name)] && ino in inodes && inodes[ino].dir == dir
    {
      hide Listed, Refs, TreeOf, OneName, Ranked;
      if dirino !in inodes { return NoEnt; }
      if !inodes[dirino].dir { return NotDir; }
      if !room { return TooMany; }
      ghost var t := Tree();
      LiveIsIn(inodes, entries, dirino);
      AddLists(inodes, entries, lists, dirino, deno, ino, name, dir);
      AddRefs(inodes, entries, dirino, deno, ino, name, dir);
      AddTreeOf(inodes, entries, dirino, deno, ino, name, dir);
      AddTree(t, rank, dirino, ino, name);
      DirIsListed(inodes, entries, lists, {}, dirino);
      inodes := WithInode(inodes, ino, dir, deno);
      entries := WithEntry(entries, deno, ino, dirino, name);
      lists := WithList(lists, ino, dir);
      rank := rank[ino := rank[dirino] + 1];
      ListInsert(dirino, deno);
      err := Ok;
    }

    /** pfs_dir_del: of an inode found in the directory; a directory must be empty.  The inode stays, unlinked. */
    method Del(dirino: int, ino: int, isdir: bool) returns (err: Err)
      requires Valid() && (ino in inodes ==> ino in Tree() && Tree()[ino].parent == dirino)
      modifies this
      ensures Valid()
      ensures err == if dirino !in old(inodes) then NoEnt else if !old(inodes)[dirino].dir then NotDir
                     else if ino !in old(inodes) then NoEnt else if isdir && !old(inodes)[ino].dir then NotDir
                     else if isdir && HasChild(old(Tree()), ino) then NotEmpty else if !isdir
                       && old(inodes)[ino].dir then IsDir else Ok
      ensures err != Ok ==> inodes == old(inodes) && entries == old(entries)
      ensures err == Ok ==> Tree() == old(Tree()) - {ino} && ino in inodes && inodes[ino].deno == NONE
      ensures inodes.Keys == old(inodes).Keys && (forall i: int :: i in inodes ==> inodes[i].dir == old(inodes)[i].dir)
      ensures forall i: int :: i in inodes && i != ino ==> inodes[i].deno == old(inodes)[i].deno
    {
      hide Listed, Refs, TreeOf, OneName, Ranked, HasChild;
      if dirino !in inodes { return NoEnt; }
      if !inodes[dirino].dir { return NotDir; }
      if ino !in inodes { return NoEnt; }
      NoChildIfEmpty(inodes, entries, lists, ino);
      if isdir {
        if !inodes[ino].dir { return NotDir; }
        if inodes[ino].head != 0 { return NotEmpty; }
      } else {
        if inodes[ino].dir { return IsDir; }
      }
      ghost var t := Tree();
      var deno := inodes[ino].deno;
      InTree(inodes, entries, lists, ino);
      ListDelete(dirino, deno);
      DelRefs(inodes, entries, deno, t);
      DelLists(inodes, entries, lists, deno, ino);
      PrunedRank(t, rank, ino);
      NamesPruned(t, ino);
      inodes := Unlinked(inodes, ino);
      entries := entries - {deno};
      err := Ok;
    }

    /** pfs_dir_info up to the root: the walk ends, at o exactly if the directory is o or under it. */
    method Walk(dirino: int, o: int) returns (at: int)
      requires Valid() && Live(inodes, dirino) && o != 0
      ensures at == 0 || at == o
      ensures at == o <==> Under(Tree(), dirino, o)
    {
      hide Listed, TreeOf, OneName, Under, Sane;
      ghost var t := Tree();
      SaneFacts(inodes, entries, lists, rank);
      at := dirino;
      while at != 0 && at != o
        invariant Live(inodes, at) && (Under(t, dirino, o) <==> Under(t, at, o))
        decreases if at in rank then rank[at] else 0
      {
        LiveIsIn(inodes, entries, at);
        NodeAt(inodes, entries, at);
        UnderStep(t, at, o);
        at := entries[inodes[at].deno].parent;
      }
      RootNotIn(inodes, entries);
      if at == 0 {
        UnderEnd(t, 0, o);
      } else {
        SelfUnder(t, o);
      }
    }

    /** pfs_dir_move */
    method Move(odirino: int, o: int, ndirino: int, name: string)
      requires Valid() && o in Tree() && Tree()[o].parent == odirino && Live(inodes, ndirino)
        && !Under(Tree(), ndirino, o)
      requires forall x: int :: x in Tree() && x != o && Tree()[x].parent == ndirino ==> Tree()[x].name != name
      modifies this
      ensures Valid() && Tree() == old(Tree())[o := Node(ndirino, name)]
      ensures inodes.Keys == old(inodes).Keys && forall i: int :: i in inodes ==> inodes[i].dir == old(inodes)[i].dir
    {
      hide Listed, Refs, TreeOf, OneName, Ranked, Under;
      ghost var t := Tree();
      InTree(inodes, entries, lists, o);
      var deno := inodes[o].deno;
      LiveIsIn(inodes, entries, ndirino);
      MoveTree(t, rank, o, ndirino, name);
      ListDelete(odirino, deno);
      MoveRefs(inodes, entries, deno, ndirino, name);
      MoveLists(inodes, entries, lists, deno, ndirino, name);
      DirIsListed(inodes, entries, lists, {deno}, ndirino);
      entries := Replaced(entries, deno, ndirino, name);
      rank := MovedRank(t, rank, o, ndirino);
      ListInsert(ndirino, deno);
    }

    // What a rename is told: o was found in the old directory, n or nothing at the new name.
    ghost predicate Looked(odirino: int, o: int, ndirino: int, n: int, name: string) reads this {
      var t := Tree();
      && o in t && t[o].parent == odirino && Live(inodes, ndirino)
      && if n != NONE then n in t && t[n] == Node(ndirino, name)
         else forall x: int :: x in t && t[x].parent == ndirino ==> t[x].name != name
    }

    /**
      * pfs_dir_rename: refused exactly if it would hang a directory under itself or replace a
      * directory that is not empty; otherwise it moves the one node, and drops the one it replaces.
      */
    method Rename(odirino: int, o: int, ndirino: int, n: int, name: string) returns (err: Err)
      requires Valid() && o != n
      requires IsDirectory(inodes, odirino) && IsDirectory(inodes, ndirino) ==> Looked(odirino, o, ndirino, n, name)
      modifies this
      ensures Valid()
      ensures err == if odirino !in old(inodes) then NoEnt else if !old(inodes)[odirino].dir then NotDir
                     else if ndirino !in old(inodes) then NoEnt else if !old(inodes)[ndirino].dir then NotDir
                     else if Under(old(Tree()), ndirino, o) then Inval
                     else if n != NONE && HasChild(old(Tree()), n) then NotEmpty else Ok
      ensures err != Ok ==> inodes == old(inodes) && entries == old(entries)
      ensures err == Ok ==> Tree() == (if n != NONE then old(Tree()) - {n} else old(Tree()))[o := Node(ndirino, name)]
    {
      hide Listed, Refs, TreeOf, OneName, Ranked, HasChild, Under;
      if odirino !in inodes { return NoEnt; }
      if !inodes[odirino].dir { return NotDir; }
      if ndirino !in inodes { return NoEnt; }
      if !inodes[ndirino].dir { return NotDir; }
      ghost var t := Tree();
      InTree(inodes, entries, lists, o);
      RootNotIn(inodes, entries);
      if inodes[o].dir {
        var at := Walk(ndirino, o);
        if at == o { return Inval; }
      } else {
        NoChildIfEmpty(inodes, entries, lists, o);
        NotUnderLeaf(t, ndirino, o);
      }
      if n != NONE {
        InTree(inodes, entries, lists, n);
        NotOwnParent(t, rank, n);
        NoChildIfEmpty(inodes, entries, lists, n);
        NamesApart(t, n);
        err := Del(ndirino, n, inodes[n].dir);
        if err != Ok { return; }
        StillNotUnder(t, n, ndirino, o);
      } else {
        err := Ok;
      }
      Move(odirino, o, ndirino, name);
    }

    /** pfs_dir_open: the entries of a directory, each once, in the order of the list. */
    method Open(dirino: int) returns (denos: seq<int>)
      requires Valid() && dirino in inodes && inodes[dirino].dir
      ensures Distinct(denos) && forall e: int :: e in denos <==> e in entries && entries[e].parent == dirino
    {
      hide Refs, TreeOf, OneName, Ranked;
      denos := [];
      var deno := inodes[dirino].head;
      ghost var l := lists[dirino];
      while deno != 0
        invariant |denos| <= |l| && denos == l[..|denos|] && deno == if |denos| < |l| then l[|denos|] else 0
        decreases |l| - |denos|
      {
        assert LinkOk(entries, l, |denos|);
        denos := denos + [deno];
        deno := entries[deno].next;
      }
      assert |denos| < |l| ==> LinkOk(entries, l, |denos|);
      assert denos == l;
      assert forall e: int :: e in l <==> InList(lists, dirino, e);
    }
  }

  predicate IsDirectory(inodes: Inodes, d: int) { d in inodes && inodes[d].dir }

  /** In every state the operations reach, every linked inode hangs below the root. */
  lemma EveryNodeRooted(inodes: Inodes, entries: Entries, lists: Lists, rank: Ranks, x: int)
    requires Sane(inodes, entries, lists, rank) && x in TreeOf(inodes, entries)
    ensures Under(TreeOf(inodes, entries), x, 0)
    ensures x in inodes && InList(lists, TreeOf(inodes, entries)[x].parent, inodes[x].deno)
    ensures forall d: int :: InList(lists, d, inodes[x].deno) ==> d == TreeOf(inodes, entries)[x].parent
  {
    ClosedTree(inodes, entries);
    Rooted(TreeOf(inodes, entries), rank, x);
    InTree(inodes, entries, lists, x);
  }

  lemma {:induction false} ClimbThrough(t: Tree, d: int, o: int, k: nat)
    requires Climb(t, d, k) == o && d != o
    ensures HasChild(t, o)
    decreases k
  {
    if t[d].parent != o { ClimbThrough(t, t[d].parent, o, k - 1); }
  }

  /** Nothing lies under a node without children but itself. */
  lemma NotUnderLeaf(t: Tree, d: int, o: int)
    requires !HasChild(t, o)
    ensures Under(t, d, o) <==> d == o
  {
    if Under(t, d, o) && d != o {
      var k: nat :| Climb(t, d, k) == o;
      ClimbThrough(t, d, o, k);
    }
    SelfUnder(t, o);
  }

  lemma {:induction false} ClimbPruned(t: Tree, n: int, x: int, o: int, k: nat)
    requires Climb(t - {n}, x, k) == o && o != n
    ensures Under(t, x, o)
    decreases k
  {
    SelfUnder(t, o);
    if x != o {
      ClimbPruned(t, n, t[x].parent, o, k - 1);
      UnderStep(t, x, o);
    }
  }

  lemma StillNotUnder(t: Tree, n: int, x: int, o: int)
    requires o != n && !Under(t, x, o)
    ensures !Under(t - {n}, x, o)
  {
    if Under(t - {n}, x, o) {
      var k: nat :| Climb(t - {n}, x, k) == o;
      ClimbPruned(t, n, x, o, k);
    }
  }

  lemma NotOwnParent(t: Tree, rank: Ranks, x: int)
    requires Ranked(t, rank) && x in t
    ensures t[x].parent != x
  {
  }

  lemma NamesApart(t: Tree, n: int)
    requires OneName(t) && n in t
    ensures forall x: int :: x in t && x != n && t[x].parent == t[n].parent ==> t[x].name != t[n].name
  {
  }

  lemma SaneFacts(inodes: Inodes, entries: Entries, lists: Lists, rank: Ranks)
    requires Sane(inodes, entries, lists, rank)
    ensures Listed(inodes, entries, lists, {}) && Refs(inodes, entries) && OneName(TreeOf(inodes, entries))
      && Ranked(TreeOf(inodes, entries), rank)
  {
  }

  lemma InTree(inodes: Inodes, entries: Entries, lists: Lists, i: int)
    requires Listed(inodes, entries, lists, {}) && Refs(inodes, entries) && i in TreeOf(inodes, entries)
    ensures i in inodes && inodes[i].deno in entries && inodes[i].deno > 0 && entries[inodes[i].deno].ino == i
    ensures InList(lists, TreeOf(inodes, entries)[i].parent, inodes[i].deno)
    ensures entries[inodes[i].deno].parent == TreeOf(inodes, entries)[i].parent
  {
  }

  lemma NodeAt(inodes: Inodes, entries: Entries, i: int)
    requires Refs(inodes, entries) && i in TreeOf(inodes, entries)
    ensures i in inodes && inodes[i].deno in entries && Live(inodes, entries[inodes[i].deno].parent)
    ensures TreeOf(inodes, entries)[i] == Node(entries[inodes[i].deno].parent, entries[inodes[i].deno].name)
  {
  }

  lemma RootNotIn(inodes: Inodes, entries: Entries)
    ensures 0 !in TreeOf(inodes, entries)
  {
  }

  lemma SelfUnder(t: Tree, o: int)
    ensures Under(t, o, o)
  {
    assert Climb(t, o, 0) == o;
  }

  lemma DirOf(inodes: Inodes, entries: Entries, lists: Lists, loose: set<int>, d: int)
    requires Listed(inodes, entries, lists, loose) && d in lists
    ensures d in inodes && inodes[d].dir
  {
  }

  lemma DirIsListed(inodes: Inodes, entries: Entries, lists: Lists, loose: set<int>, d: int)
    requires Listed(inodes, entries, lists, loose) && d in inodes && inodes[d].dir
    ensures d in lists
  {
  }
}
