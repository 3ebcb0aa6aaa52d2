/**
  * The entry lists of directories: doubly linked through the directory entries, with the
  * first and the last in the directory's inode.  A number 0 ends a list.
  */
module DirLists {
  import opened Common

  datatype Entry = Entry(ino: int, parent: int, name: string, prev: int, next: int)

  type Entries = map<int, Entry>

  const NONE := -1

  // in_type, in_deno, and the ends of the list of a directory's entries
  datatype Inode = Inode(dir: bool, deno: int, head: int, tail: int)

  /** The list in memory from head to tail is l. */
  ghost predicate Chain(entries: Entries, head: int, tail: int, l: seq<int>) {
    && Distinct(l)
    && (if l == [] then head == 0 && tail == 0 else head == l[0] && tail == l[|l| - 1])
    && forall i: int :: 0 <= i < |l| ==> LinkOk(entries, l, i)
  }

  ghost predicate LinkOk(entries: Entries, l: seq<int>, i: int)
    requires 0 <= i < |l|
  {
    && l[i] in entries && l[i] > 0
    && entries[l[i]].prev == (if i == 0 then 0 else l[i - 1])
    && entries[l[i]].next == (if i + 1 == |l| then 0 else l[i + 1])
  }

  function SetPrev(entries: Entries, e: int, prev: int): Entries {
    if e in entries then entries[e := entries[e].(prev := prev)] else entries
  }

  function SetNext(entries: Entries, e: int, next: int): Entries {
    if e in entries then entries[e := entries[e].(next := next)] else entries
  }

  // What the links leave alone.
  ghost predicate SameBut(entries: Entries, entries': Entries, touched: set<int>) {
    && entries'.Keys == entries.Keys
    && (forall e: int :: e in entries && e !in touched ==> entries'[e] == entries[e])
    && (forall e: int :: e in entries ==>
          entries'[e].ino == entries[e].ino && entries'[e].parent == entries[e].parent
            && entries'[e].name == entries[e].name)
  }

  // pfs_meta_list_insert
  function InsertedEntries(entries: Entries, head: int, tail: int, e: int): Entries {
    if head == 0 then entries else SetNext(SetPrev(entries, e, tail), tail, e)
  }

  lemma InsertChain(entries: Entries, head: int, tail: int, l: seq<int>, e: int)
    requires Chain(entries, head, tail, l) && e in entries && e > 0 && e !in l && entries[e].prev == 0
      && entries[e].next == 0
    ensures Chain(InsertedEntries(entries, head, tail, e), if head == 0 then e else head, e, l + [e])
    ensures SameBut(entries, InsertedEntries(entries, head, tail, e), if l == [] then {e} else {e, tail})
  {
    var entries', l' := InsertedEntries(entries, head, tail, e), l + [e];
    assert l != [] ==> LinkOk(entries, l, 0) && LinkOk(entries, l, |l| - 1);
    forall i: int | 0 <= i < |l'| ensures LinkOk(entries', l', i) {
      if i < |l| { assert LinkOk(entries, l, i); }
    }
  }

  // pfs_meta_list_delete
  function DeletedEntries(entries: Entries, e: int): Entries
    requires e in entries
  {
    var prev, next := entries[e].prev, entries[e].next;
    var linked := if prev != 0 then SetNext(entries, prev, next) else entries;
    var both := if next != 0 then SetPrev(linked, next, prev) else linked;
    SetNext(SetPrev(both, e, 0), e, 0)
  }

  ghost predicate At(l: seq<int>, k: int, e: int) { 0 <= k < |l| && l[k] == e }

  lemma DeleteChain(entries: Entries, head: int, tail: int, l: seq<int>, e: int, k: int)
    requires Chain(entries, head, tail, l) && At(l, k, e)
    ensures e in entries && LinkOk(entries, l, k)
    ensures var x := entries[e];
            Chain(DeletedEntries(entries, e), if x.prev == 0 then x.next else head,
                  if x.next == 0 then x.prev else tail, l[..k] + l[k + 1..])
    ensures var x := entries[e]; SameBut(entries, DeletedEntries(entries, e), {e, x.prev, x.next})
    ensures DeletedEntries(entries, e)[e].prev == 0 && DeletedEntries(entries, e)[e].next == 0
  {
    var entries', l' := DeletedEntries(entries, e), l[..k] + l[k + 1..];
    assert LinkOk(entries, l, k);
    assert k > 0 ==> LinkOk(entries, l, k - 1);
    assert k + 1 < |l| ==> LinkOk(entries, l, k + 1);
    forall i: int | 0 <= i < |l'| ensures LinkOk(entries', l', i) {
      assert LinkOk(entries, l, if i < k then i else i + 1);
    }
  }

  /** Links changed elsewhere leave a list as it is. */
  lemma ChainKept(entries: Entries, entries': Entries, head: int, tail: int, l: seq<int>)
    requires Chain(entries, head, tail, l) && forall e: int :: e in l ==>
      e in entries' && e in entries && entries'[e] == entries[e]
    ensures Chain(entries', head, tail, l)
  {
    forall i: int | 0 <= i < |l| ensures LinkOk(entries', l, i) {
      assert LinkOk(entries, l, i) && l[i] in l;
    }
  }
}
