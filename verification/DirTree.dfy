/**
  * What add, delete and rename keep: every entry is in the list of its directory and in no
  * other, entries and inodes name each other, and the directories form a tree at inode 0.
  */
module DirTree {
  import opened DirLists

  type Inodes = map<int, Inode>

  type Lists = map<int, seq<int>>

  ghost predicate InList(lists: Lists, d: int, e: int) { d in lists && e in lists[d] }

  /** The lists are those in memory; all entries but the loose ones are in the list of their directory. */
  ghost predicate Listed(inodes: Inodes, entries: Entries, lists: Lists, loose: set<int>) {
    && (forall d: int :: d in lists <==> d in inodes && inodes[d].dir)
    && (forall d: int :: d in lists ==> Chain(entries, inodes[d].head, inodes[d].tail, lists[d]))
    && (forall d: int, e: int :: InList(lists, d, e) ==> e in entries && entries[e].parent == d && e !in loose)
    && (forall e: int :: e in entries && e !in loose ==> e > 0 && InList(lists, entries[e].parent, e))
  }

  // ---- taking an entry out of a list and putting it into one

  function DetachedInodes(inodes: Inodes, entries: Entries, d: int, e: int): Inodes
    requires d in inodes && e in entries
  {
    var x, dirin := entries[e], inodes[d];
    inodes[d := dirin.(head := if x.prev == 0 then x.next else dirin.head,
                     tail := if x.next == 0 then x.prev else dirin.tail)]
  }

  function AttachedInodes(inodes: Inodes, d: int, e: int): Inodes
    requires d in inodes
  {
    inodes[d := inodes[d].(head := if inodes[d].head == 0 then e else inodes[d].head, tail := e)]
  }

  ghost function Without(l: seq<int>, k: int): seq<int>
    requires 0 <= k < |l|
  {
    l[..k] + l[k + 1..]
  }

  lemma Position(l: seq<int>, e: int) returns (k: int)
    requires e in l
    ensures At(l, k, e)
  {
    k :| 0 <= k < |l| && l[k] == e;
  }

  lemma Neighbours(entries: Entries, head: int, tail: int, l: seq<int>, k: int)
    requires Chain(entries, head, tail, l) && 0 <= k < |l|
    ensures l[k] in entries
    ensures forall e: int :: e in {l[k], entries[l[k]].prev, entries[l[k]].next} && e != 0 ==> e in l
  {
    assert LinkOk(entries, l, k);
    assert k > 0 ==> l[k - 1] in l;
    assert k + 1 < |l| ==> l[k + 1] in l;
  }

  lemma DetachListed(inodes: Inodes, entries: Entries, lists: Lists, d: int, e: int, k: int)
    requires Listed(inodes, entries, lists, {}) && d in lists && At(lists[d], k, e)
    ensures d in inodes && e in entries
    ensures Listed(DetachedInodes(inodes, entries, d, e), DeletedEntries(entries, e), lists[d := Without(lists[d], k)],
      {e})
    ensures e in DeletedEntries(entries, e) && DeletedEntries(entries, e)[e] == entries[e].(prev := 0, next := 0)
    ensures SameBut(entries, DeletedEntries(entries, e), {e, entries[e].prev, entries[e].next})
  {
    hide Chain, DeletedEntries;
    assert InList(lists, d, e);
    var entries', lists' := DeletedEntries(entries, e), lists[d := Without(lists[d], k)];
    DeleteChain(entries, inodes[d].head, inodes[d].tail, lists[d], e, k);
    Neighbours(entries, inodes[d].head, inodes[d].tail, lists[d], k);
    WithoutOne(lists[d], k, inodes[d].head, inodes[d].tail, entries);
    forall c: int | c in lists && c != d ensures Chain(entries', inodes[c].head, inodes[c].tail, lists[c]) {
      forall f: int | f in lists[c] ensures f in entries && f in entries' && entries'[f] == entries[f] {
        assert InList(lists, c, f);
        assert f in lists[d] ==> InList(lists, d, f);
      }
      ChainKept(entries, entries', inodes[c].head, inodes[c].tail, lists[c]);
    }
    forall c: int, f: int ensures InList(lists', c, f) <==> InList(lists, c, f) && f != e {
      if c != d && InList(lists, c, f) { assert entries[f].parent == c; }
    }
  }

  lemma WithoutOne(l: seq<int>, k: int, head: int, tail: int, entries: Entries)
    requires Chain(entries, head, tail, l) && 0 <= k < |l|
    ensures forall f: int :: f in Without(l, k) <==> f in l && f != l[k]
  {
    var l' := Without(l, k);
    forall f: int | f in l && f != l[k] ensures f in l' {
      var i :| 0 <= i < |l| && l[i] == f;
      assert l'[if i < k then i else i - 1] == f;
    }
  }

  lemma AttachListed(inodes: Inodes, entries: Entries, lists: Lists, d: int, e: int)
    requires Listed(inodes, entries, lists, {e}) && d in lists && e in entries && e > 0
    requires entries[e].parent == d && entries[e].prev == 0 && entries[e].next == 0
    ensures var dirin := inodes[d];
            && Listed(AttachedInodes(inodes, d, e), InsertedEntries(entries, dirin.head, dirin.tail, e),
              lists[d := lists[d] + [e]], {})
            && SameBut(entries, InsertedEntries(entries, dirin.head, dirin.tail, e), {e, dirin.tail})
  {
    hide InsertedEntries;
    var head, tail := inodes[d].head, inodes[d].tail;
    var entries', lists' := InsertedEntries(entries, head, tail, e), lists[d := lists[d] + [e]];
    assert e !in lists[d] by { assert e in lists[d] ==> InList(lists, d, e); }
    InsertChain(entries, head, tail, lists[d], e);
    assert lists[d] != [] ==> InList(lists, d, tail) by {
      if lists[d] != [] { assert lists[d][|lists[d]| - 1] == tail; }
    }
    forall c: int | c in lists && c != d ensures Chain(entries', inodes[c].head, inodes[c].tail, lists[c]) {
      forall f: int | f in lists[c] ensures f in entries && f in entries' && entries'[f] == entries[f] {
        assert InList(lists, c, f);
      }
      ChainKept(entries, entries', inodes[c].head, inodes[c].tail, lists[c]);
    }
    assert forall c: int, f: int :: InList(lists', c, f) <==> InList(lists, c, f) || (c == d && f == e);
  }

  // ---- the tree

  datatype Node = Node(parent: int, name: string)

  type Tree = map<int, Node>

  // Where every linked inode hangs.
  function TreeOf(inodes: Inodes, entries: Entries): Tree {
    map i | i in inodes && i != 0 && inodes[i].deno in entries ::
      Node(entries[inodes[i].deno].parent, entries[inodes[i].deno].name)
  }

  // A directory that add, delete and rename may work in: the root, or a linked one.
  predicate Live(inodes: Inodes, d: int) {
    d in inodes && inodes[d].dir && (d == 0 || inodes[d].deno != NONE)
  }

  ghost predicate Refs(inodes: Inodes, entries: Entries) {
    && 0 in inodes && inodes[0].dir && inodes[0].deno == NONE
    && (forall e: int :: e in entries ==>
      e > 0 && entries[e].ino != 0 && entries[e].ino in inodes && inodes[entries[e].ino].deno == e)
    && (forall i: int :: i in inodes && inodes[i].deno != NONE ==>
      inodes[i].deno in entries && entries[inodes[i].deno].ino == i)
    && (forall e: int :: e in entries ==> Live(inodes, entries[e].parent))
  }

  ghost predicate OneName(t: Tree) {
    forall x: int, y: int :: x in t && y in t && x != y && t[x].parent == t[y].parent ==> t[x].name != t[y].name
  }

  type Ranks = map<int, int>

  ghost predicate Ranked(t: Tree, rank: Ranks) {
    && 0 in rank && (forall x: int :: x in rank ==> rank[x] >= 0)
    && (forall x: int :: x in t ==> x != 0 && x in rank && t[x].parent in rank && rank[t[x].parent] < rank[x])
  }

  // The n-th ancestor, or the root.
  function Climb(t: Tree, x: int, n: nat): int
    decreases n
  {
    if n == 0 || x !in t then x else Climb(t, t[x].parent, n - 1)
  }

  /** x is o or lies under it. */
  ghost predicate Under(t: Tree, x: int, o: int) {
    exists n: nat :: Climb(t, x, n) == o
  }

  /** Every parent is in the tree or the root. */
  ghost predicate Closed(t: Tree) {
    0 !in t && forall x: int :: x in t ==> t[x].parent == 0 || t[x].parent in t
  }

  /** Going up from anywhere ends at the root. */
  lemma {:induction false} Rooted(t: Tree, rank: Ranks, x: int)
    requires Closed(t) && Ranked(t, rank) && (x == 0 || x in t)
    ensures Under(t, x, 0)
    decreases if x in t && x in rank then rank[x] else 0
  {
    if x in t {
      Rooted(t, rank, t[x].parent);
      var n: nat :| Climb(t, t[x].parent, n) == 0;
      assert Climb(t, x, n + 1) == 0;
    } else {
      assert Climb(t, x, 0) == 0;
    }
  }

  lemma UnderStep(t: Tree, x: int, o: int)
    requires x in t
    ensures Under(t, x, o) <==> x == o || Under(t, t[x].parent, o)
  {
    if Under(t, x, o) && x != o {
      var n: nat :| Climb(t, x, n) == o;
      assert Climb(t, t[x].parent, n - 1) == o;
    }
    if Under(t, t[x].parent, o) {
      var n: nat :| Climb(t, t[x].parent, n) == o;
      assert Climb(t, x, n + 1) == o;
    }
    assert Climb(t, x, 0) == x;
  }

  lemma UnderEnd(t: Tree, x: int, o: int)
    requires x !in t
    ensures Under(t, x, o) <==> x == o
  {
    assert Climb(t, x, 0) == x;
  }

  /** A node with no children can go. */
  lemma PrunedRank(t: Tree, rank: Ranks, x: int)
    requires Ranked(t, rank)
    ensures Ranked(t - {x}, rank)
  {
  }

  lemma GrownRank(t: Tree, rank: Ranks, x: int, n: Node)
    requires Ranked(t, rank) && x !in t && x != 0 && n.parent in rank && n.parent != x
    requires forall y: int :: y in t ==> t[y].parent != x
    ensures Ranked(t[x := n], rank[x := rank[n.parent] + 1])
  {
  }

  // The subtree at o lifted above the new parent.
  ghost function MovedRank(t: Tree, rank: Ranks, o: int, d: int): Ranks
    requires d in rank
  {
    map x | x in rank :: if Under(t, x, o) then rank[x] + rank[d] + 1 else rank[x]
  }

  /** A subtree may hang anywhere but under itself. */
  lemma MovedTree(t: Tree, rank: Ranks, o: int, n: Node)
    requires Ranked(t, rank) && o in t && n.parent in rank && !Under(t, n.parent, o)
    ensures Ranked(t[o := n], MovedRank(t, rank, o, n.parent))
  {
    var t', rank' := t[o := n], MovedRank(t, rank, o, n.parent);
    UnderEnd(t, 0, o);
    assert Climb(t, o, 0) == o;
    forall x: int | x in t' ensures t'[x].parent in rank' && x in rank' && rank'[t'[x].parent] < rank'[x] {
      if x != o { UnderStep(t, x, o); }
    }
  }

  /** Hung under itself it would be a cycle: nothing could rank it. */
  lemma CycleIfUnder(t: Tree, o: int, n: Node, rank: Ranks)
    requires o in t && Under(t, n.parent, o)
    ensures !Ranked(t[o := n], rank)
  {
    if Ranked(t[o := n], rank) {
      var k: nat :| Climb(t, n.parent, k) == o;
      assert t[o := n][o] == n;
      Descends(t, o, n, rank, n.parent, k);
    }
  }

  lemma {:induction false} Descends(t: Tree, o: int, n: Node, rank: Ranks, x: int, k: nat)
    requires Ranked(t[o := n], rank) && Climb(t, x, k) == o && o in t && x in rank
    ensures o in rank && rank[o] <= rank[x]
    decreases k
  {
    if x != o {
      assert k > 0 && x in t && x in t[o := n] && t[o := n][x] == t[x];
      Descends(t, o, n, rank, t[x].parent, k - 1);
    }
  }
}
