/**
  * The allocator of metadata objects: a root over one leaf a chunk.  A leaf keeps a bit for
  * every object, set while the object is free, the number of free objects, and where to look
  * first; the root keeps the total.
  */
module Allocator {
  import opened Common

  // ---- object numbers: the leaf in the high bits, the slot in the low ones

  function Make(span: int, leaf: int, slot: int): int { leaf * span + slot }

  function LeafOf(span: int, id: int): int
    requires span > 0
  {
    id / span
  }

  function SlotOf(span: int, id: int): int
    requires span > 0
  {
    id % span
  }

  lemma {:induction false} Apart(a: int, b: int, span: int)
    requires span > 0
    ensures a < b ==> a * span + span <= b * span
    decreases b - a
  {
    if a < b - 1 {
      Apart(a, b - 1, span);
      assert b * span == (b - 1) * span + span;
    }
  }

  // A number decodes to the leaf and slot it was made from.
  lemma MakeDecodes(span: int, leaf: int, slot: int)
    requires 0 <= slot < span
    ensures LeafOf(span, Make(span, leaf, slot)) == leaf && SlotOf(span, Make(span, leaf, slot)) == slot
  {
    var id := Make(span, leaf, slot);
    Apart(id / span, leaf, span);
    Apart(leaf, id / span, span);
  }

  lemma DecodeMakes(span: int, id: int)
    requires span > 0
    ensures Make(span, LeafOf(span, id), SlotOf(span, id)) == id && 0 <= SlotOf(span, id) < span
  {
  }

  // ---- counting

  function Count(bits: seq<bool>): (r: int)
    ensures 0 <= r <= |bits|
  {
    if bits == [] then 0 else (if bits[0] then 1 else 0) + Count(bits[1..])
  }

  lemma {:induction false} CountFlip(bits: seq<bool>, k: int)
    requires 0 <= k < |bits|
    ensures Count(bits[k := !bits[k]]) == Count(bits) + if bits[k] then -1 else 1
  {
    if k == 0 {
      assert bits[0 := !bits[0]][1..] == bits[1..];
    } else {
      CountFlip(bits[1..], k - 1);
      assert bits[k := !bits[k]][1..] == bits[1..][k - 1 := !bits[k]];
    }
  }

  lemma {:induction false} CountSome(bits: seq<bool>, k: int)
    requires 0 <= k < |bits| && bits[k]
    ensures Count(bits) > 0
  {
    if k > 0 { CountSome(bits[1..], k - 1); }
  }

  lemma NoneFree(bits: seq<bool>)
    requires Count(bits) == 0
    ensures forall k: int :: 0 <= k < |bits| ==> !bits[k]
  {
    forall k: int | 0 <= k < |bits| ensures !bits[k] {
      if bits[k] { CountSome(bits, k); }
    }
  }

  function Sum(s: seq<int>): int {
    if s == [] then 0 else s[0] + Sum(s[1..])
  }

  lemma {:induction false} SumUpdate(s: seq<int>, k: int, x: int)
    requires 0 <= k < |s|
    ensures Sum(s[k := x]) == Sum(s) - s[k] + x
  {
    if k == 0 {
      assert s[0 := x][1..] == s[1..];
    } else {
      SumUpdate(s[1..], k - 1, x);
      assert s[k := x][1..] == s[1..][k - 1 := x];
    }
  }

  // ---- a leaf

  // The owner of the object lets go of it.
  predicate Fine(span: int, leaf: int, ok: int -> bool, slot: int) { ok(Make(span, leaf, slot)) }

  // Slot k comes before slot m when the slots are taken in turn from `start`.
  predicate Earlier(start: int, k: int, m: int) {
    if start <= k then k < m || m < start else start > m > k
  }

  class Leaf {
    const id: int
    const nall: int
    var nfree: int
    var next: int
    var bits: seq<bool>

    ghost predicate Shape() reads this {
      |bits| == nall && 0 <= next < nall
    }

    ghost predicate Valid() reads this {
      Shape() && nfree == Count(bits)
    }

    // pfs_metaset_init_anode: the objects not in use are free, and the first of them is next
    constructor (id: int, used: seq<bool>)
      requires used != []
      ensures Valid() && this.id == id && nall == |used|
      ensures forall k: int :: 0 <= k < nall ==> bits[k] == !used[k]
      ensures forall k: int :: 0 <= k < nall && bits[k] ==> bits[next] && next <= k
    {
      var first, free, b := -1, 0, Clear(|used|);
      for i := 0 to |used|
        invariant |b| == |used| && free == Count(b) && -1 <= first < i
        invariant forall k: int :: 0 <= k < |used| ==> b[k] == (k < i && !used[k])
        invariant first < 0 ==> forall k: int :: 0 <= k < i ==> used[k]
        invariant first >= 0 ==> !used[first] && forall k: int :: 0 <= k < first ==> used[k]
      {
        if !used[i] {
          CountFlip(b, i);
          b := b[i := !b[i]];
          free := free + 1;
          if first < 0 { first := i; }
        }
      }
      this.id, nall, nfree, bits := id, |used|, free, b;
      next := if first >= 0 then first else 0;
    }

    // pfs_anode_nfree_inc: the count moves by delta, and an odd delta flips the bit
    method Adjust(slot: int, delta: int)
      requires Shape() && 0 <= slot < nall && -1 <= delta <= 1
      modifies this`nfree, this`bits
      ensures Shape() && nfree == old(nfree) + delta
      ensures bits == if delta == 0 then old(bits) else old(bits)[slot := !old(bits)[slot]]
      ensures nfree - Count(bits) == old(nfree - Count(bits)) + Drift(old(bits)[slot], delta)
    {
      nfree := nfree + delta;
      if delta % 2 != 0 {
        CountFlip(bits, slot);
        bits := bits[slot := !bits[slot]];
      }
    }

    // pfs_anode_alloc at a leaf: the first slot from `next` on, round the end, that is free and
    // that the owner of the object lets go.
    method Alloc(span: int, ok: int -> bool) returns (slot: int)
      requires Valid()
      modifies this
      ensures Valid() && -1 <= slot < nall
      ensures slot < 0 <==> forall k: int :: 0 <= k < nall ==> !(old(bits)[k] && Fine(span, id, ok, k))
      ensures slot < 0 ==> bits == old(bits) && next == old(next) && nfree == old(nfree)
      ensures slot >= 0 ==>
        old(bits)[slot] && Fine(span, id, ok, slot) && bits == old(bits)[slot := false] && nfree == old(nfree) - 1
      ensures slot >= 0 ==>
        forall k: int :: 0 <= k < nall && Earlier(old(next), k, slot) ==> !(old(bits)[k] && Fine(span, id, ok, k))
      ensures slot >= 0 ==> next == if slot + 1 < nall then slot + 1 else 0
    {
      slot := -1;
      var start, at, seen := next, next, 0;
      while seen == 0 || (slot < 0 && at != start)
        invariant 0 <= seen <= nall && 0 <= at < nall && start == old(next) && next == start && Shape()
        invariant -1 <= slot < nall && (seen == 0 ==> at == start && slot < 0)
        invariant at == if start + seen < nall then start + seen else start + seen - nall
        invariant slot < 0 ==> Valid() && bits == old(bits) && nfree == old(nfree)
        invariant slot < 0 ==>
          forall k: int :: 0 <= k < nall && Passed(start, seen, nall, k) ==> !(old(bits)[k] && Fine(span, id, ok, k))
        invariant slot >= 0 ==>
          Valid() && old(bits)[slot] && Fine(span, id, ok, slot) && bits == old(bits)[slot := false]
            && nfree == old(nfree) - 1
        invariant slot >= 0 ==> at == (if slot + 1 < nall then slot + 1 else 0)
        invariant slot >= 0 ==>
          forall k: int :: 0 <= k < nall && Earlier(start, k, slot) ==> !(old(bits)[k] && Fine(span, id, ok, k))
        decreases nall - seen, slot < 0
      {
        if bits[at] && Fine(span, id, ok, at) {
          slot := at;
          Adjust(at, -1);
        }
        at := if at + 1 >= nall then 0 else at + 1;
        seen := seen + 1;
      }
      next := if slot >= 0 then at else start;
    }

    // A change of a leaf that is right, after which it looks at `hint` first.
    method Shift(slot: int, delta: int, hint: int)
      requires Valid() && 0 <= slot < nall && -1 <= delta <= 1 && 0 <= hint < nall
      modifies this
      ensures Shape() && next == hint && nfree == old(nfree) + delta
      ensures bits == if delta == 0 then old(bits) else old(bits)[slot := !old(bits)[slot]]
      ensures Valid() <==> Drift(old(bits)[slot], delta) == 0
    {
      Adjust(slot, delta);
      next := hint;
    }
  }

  // How far a change that does not fit the bit drives the count from the bits.
  function Drift(free: bool, delta: int): int {
    if delta == 1 && free then 2 else if delta == -1 && !free then -2 else 0
  }

  function Clear(n: nat): (r: seq<bool>)
    ensures |r| == n && Count(r) == 0 && forall k: int :: 0 <= k < n ==> !r[k]
  {
    if n == 0 then [] else assert ([false] + Clear(n - 1))[1..] == Clear(n - 1); [false] + Clear(n - 1)
  }

  // The slots a search of `seen` steps from `start` has looked at.
  predicate Passed(start: int, seen: int, nall: int, k: int) {
    start <= k < start + seen || k + nall < start + seen
  }

  // ---- the root

  // The first of the leaves with the most free objects.
  ghost predicate Fullest(frees: seq<int>, m: int) {
    0 <= m < |frees| && forall i: int :: 0 <= i < |frees| ==> frees[i] <= frees[m] && (i < m ==> frees[i] < frees[m])
  }

  // Leaf i has nothing that is free and let go.
  ghost predicate Dry(span: int, bits: seq<bool>, i: int, ok: int -> bool) {
    forall k: int :: 0 <= k < |bits| ==> !(bits[k] && Fine(span, i, ok, k))
  }

  predicate InMap(span: int, bits: seq<seq<bool>>, id: int) {
    span > 0 && 0 <= LeafOf(span, id) < |bits| && 0 <= SlotOf(span, id) < |bits[LeafOf(span, id)]|
  }

  predicate FreeIn(span: int, bits: seq<seq<bool>>, id: int) {
    InMap(span, bits, id) && bits[LeafOf(span, id)][SlotOf(span, id)]
  }

  // The bit of one object turned over.
  function Flip(span: int, bits: seq<seq<bool>>, id: int): (r: seq<seq<bool>>)
    requires InMap(span, bits, id)
  {
    var l, s := LeafOf(span, id), SlotOf(span, id);
    bits[l := bits[l][s := !bits[l][s]]]
  }

  // That changes whether this object is free, and no other.
  lemma FlipOne(span: int, bits: seq<seq<bool>>, id: int, other: int)
    requires InMap(span, bits, id)
    ensures InMap(span, Flip(span, bits, id), other) == InMap(span, bits, other)
    ensures FreeIn(span, Flip(span, bits, id), other) ==
      if other == id then !FreeIn(span, bits, id) else FreeIn(span, bits, other)
  {
    hide LeafOf, SlotOf, Make;
    DecodeMakes(span, id);
    DecodeMakes(span, other);
  }

  class Tree {
    const span: int
    const leaves: seq<Leaf>
    var nfree: int

    ghost predicate Shape() reads this, leaves {
      && span > 0 && leaves != []
      && (forall i: int :: 0 <= i < |leaves| ==> leaves[i].id == i && leaves[i].nall <= span)
      && (forall i: int :: 0 <= i < |leaves| ==> leaves[i].Shape())
    }

    ghost function Frees(): (r: seq<int>)
      reads leaves
      ensures |r| == |leaves|
    {
      seq(|leaves|, i requires 0 <= i < |leaves| reads leaves => leaves[i].nfree)
    }

    // The bits of all leaves.
    ghost function Map(): (r: seq<seq<bool>>)
      reads leaves
      ensures |r| == |leaves|
    {
      seq(|leaves|, i requires 0 <= i < |leaves| reads leaves => leaves[i].bits)
    }

    ghost predicate Valid() reads this, leaves {
      Shape() && (forall i: int :: 0 <= i < |leaves| ==> leaves[i].Valid()) && nfree == Sum(Frees())
    }

    // pfs_init_anode
    constructor (span: int, leaves: seq<Leaf>)
      requires span > 0 && leaves != []
      requires forall i: int :: 0 <= i < |leaves| ==> leaves[i].id == i && leaves[i].nall <= span && leaves[i].Valid()
      ensures Valid() && this.leaves == leaves && this.span == span
    {
      this.span, this.leaves := span, leaves;
      var total := 0;
      for i := 0 to |leaves|
        invariant total == Sum(Firsts(leaves, i))
      {
        SumMore(Firsts(leaves, i), leaves[i].nfree);
        total := total + leaves[i].nfree;
        assert Firsts(leaves, i + 1) == Firsts(leaves, i) + [leaves[i].nfree];
      }
      nfree := total;
      new;
      assert Frees() == Firsts(leaves, |leaves|);
    }

    // The leaf an allocation looks at first, or none.
    method Choose() returns (m: int)
      requires Shape()
      ensures -1 <= m < |leaves|
      ensures m < 0 <==> forall i: int :: 0 <= i < |leaves| ==> leaves[i].nfree <= 0
      ensures m >= 0 ==> Fullest(Frees(), m)
    {
      var maxFree := 0;
      m := -1;
      for i := 0 to |leaves|
        invariant -1 <= m < i && maxFree >= 0
        invariant m < 0 ==> maxFree == 0 && forall j: int :: 0 <= j < i ==> leaves[j].nfree <= 0
        invariant m >= 0 ==> maxFree == leaves[m].nfree > 0
        invariant forall j: int :: 0 <= j < i ==> leaves[j].nfree <= maxFree && (j < m ==> leaves[j].nfree < maxFree)
      {
        if leaves[i].nfree > maxFree {
          maxFree, m := leaves[i].nfree, i;
        }
      }
    }

    // The leaf's part of an allocation.
    method AskLeaf(l: int, ok: int -> bool) returns (slot: int)
      requires Valid() && 0 <= l < |leaves|
      modifies leaves
      ensures Shape() && (forall i: int :: 0 <= i < |leaves| ==> leaves[i].Valid()) && -1 <= slot < |old(Map())[l]|
      ensures slot < 0 <==> Dry(span, old(Map())[l], l, ok)
      ensures slot < 0 ==> Map() == old(Map()) && Frees() == old(Frees())
      ensures slot >= 0 ==> old(Map())[l][slot] && Fine(span, l, ok, slot)
      ensures slot >= 0 ==>
        Map() == old(Map())[l := old(Map())[l][slot := false]] && Frees() == old(Frees())[l := old(Frees())[l] - 1]
    {
      hide Count, Sum, Fine;
      ghost var frees, bits := Frees(), Map();
      slot := leaves[l].Alloc(span, ok);
      assert Frees() == frees[l := leaves[l].nfree] && Map() == bits[l := leaves[l].bits];
    }

    // One leaf of the round: passed over if it has no free object.
    method TryLeaf(l: int, ok: int -> bool) returns (found: bool, id: int)
      requires Valid() && 0 <= l < |leaves|
      modifies this, leaves
      ensures Valid()
      ensures !found <==> Dry(span, old(Map())[l], l, ok)
      ensures !found ==> Map() == old(Map()) && nfree == old(nfree)
      ensures found ==>
        LeafOf(span, id) == l && FreeIn(span, old(Map()), id) && ok(id) && Map() == Flip(span, old(Map()), id)
          && nfree == old(nfree) - 1
    {
      hide Make, LeafOf, SlotOf, Count, Sum;
      found, id := false, 0;
      if leaves[l].nfree > 0 {
        SumUpdate(Frees(), l, Frees()[l] - 1);
        var slot := AskLeaf(l, ok);
        if slot >= 0 {
          found, id := true, Make(span, l, slot);
          MakeDecodes(span, l, slot);
          nfree := nfree - 1;
        }
      } else {
        NoneFree(leaves[l].bits);
      }
    }

    // pfs_anode_alloc at the root: the leaf with the most free objects, then the others in turn
    method Alloc(ok: int -> bool) returns (found: bool, id: int)
      requires Valid()
      modifies this, leaves
      ensures Valid()
      ensures !found <==> forall i: int :: 0 <= i < |leaves| ==> Dry(span, old(Map())[i], i, ok)
      ensures !found ==> Map() == old(Map()) && nfree == old(nfree)
      ensures found ==>
        FreeIn(span, old(Map()), id) && ok(id) && Map() == Flip(span, old(Map()), id) && nfree == old(nfree) - 1
      ensures found ==> exists m: int :: Fullest(old(Frees()), m) && DryUpTo(span, old(Map()), m, LeafOf(span, id), ok)
    {
      hide Make, LeafOf, SlotOf, Count, Sum, Dry, Flip;
      found, id := false, 0;
      var m := Choose();
      if m >= 0 {
        var at, seen := m, 0;
        while seen == 0 || (!found && at != m)
          invariant 0 <= seen <= |leaves| && 0 <= at < |leaves| && Valid() && (seen == 0 ==> !found)
          invariant at == if m + seen < |leaves| then m + seen else m + seen - |leaves|
          invariant !found ==> nfree == old(nfree) && Map() == old(Map())
          invariant !found ==>
            forall i: int :: 0 <= i < |leaves| && Passed(m, seen, |leaves|, i) ==> Dry(span, old(Map())[i], i, ok)
          invariant found ==>
            FreeIn(span, old(Map()), id) && ok(id) && Map() == Flip(span, old(Map()), id) && nfree == old(nfree) - 1
          invariant found ==> DryUpTo(span, old(Map()), m, LeafOf(span, id), ok)
          decreases |leaves| - seen, !found
        {
          found, id := TryLeaf(at, ok);
          at := if at + 1 >= |leaves| then 0 else at + 1;
          seen := seen + 1;
        }
        assert !found ==> forall i: int :: 0 <= i < |leaves| ==> Passed(m, seen, |leaves|, i);
      } else {
        AllDry(ok);
        assert Map() == old(Map());
      }
      if found { NotDry(span, old(Map()), id, ok); }
    }

    lemma AllDry(ok: int -> bool)
      requires Valid() && forall i: int :: 0 <= i < |leaves| ==> leaves[i].nfree <= 0
      ensures forall i: int :: 0 <= i < |leaves| ==> Dry(span, Map()[i], i, ok)
    {
      forall i: int | 0 <= i < |leaves| ensures Dry(span, Map()[i], i, ok) { NoneFree(leaves[i].bits); }
    }

    // Object `id` stands in a leaf.
    ghost predicate Has(id: int) reads this, leaves {
      span > 0 && 0 <= LeafOf(span, id) < |leaves| && 0 <= SlotOf(span, id) < |leaves[LeafOf(span, id)].bits|
    }

    ghost predicate IsFree(id: int)
      requires Has(id)
      reads this, leaves
    {
      leaves[LeafOf(span, id)].bits[SlotOf(span, id)]
    }

    // The leaf's part of a change; it then looks at `hint` first.
    method ChangeLeaf(l: int, slot: int, delta: int, hint: int)
      requires Valid() && 0 <= l < |leaves| && 0 <= slot < |leaves[l].bits| && -1 <= delta <= 1
        && 0 <= hint < leaves[l].nall
      modifies leaves
      ensures Shape() && leaves[l].next == hint && Frees() == old(Frees())[l := old(Frees())[l] + delta]
      ensures Map() == if delta == 0 then old(Map()) else old(Map())[l := old(Map())[l][slot := !old(Map())[l][slot]]]
      ensures forall i: int :: 0 <= i < |leaves| && i != l ==> leaves[i].Valid()
      ensures leaves[l].Valid() <==> Drift(old(leaves[l].bits)[slot], delta) == 0
    {
      hide Count, Sum, Drift;
      ghost var frees, bits := Frees(), Map();
      leaves[l].Shift(slot, delta, hint);
      assert Frees() == frees[l := leaves[l].nfree] && Map() == bits[l := leaves[l].bits];
    }

    // A change at the root: its leaf changes, and the total with it.
    method MoveAt(l: int, slot: int, delta: int, hint: int)
      requires Valid() && 0 <= l < |leaves| && 0 <= slot < |leaves[l].bits| && -1 <= delta <= 1
        && 0 <= hint < leaves[l].nall
      modifies this, leaves
      ensures Shape() && nfree == old(nfree) + delta && leaves[l].next == hint
      ensures Map() == if delta == 0 then old(Map()) else old(Map())[l := old(Map())[l][slot := !old(Map())[l][slot]]]
      ensures Valid() <==> Drift(old(leaves[l].bits)[slot], delta) == 0
    {
      hide Count, Sum, Drift;
      SumUpdate(Frees(), l, Frees()[l] + delta);
      ChangeLeaf(l, slot, delta, hint);
      nfree := nfree + delta;
      ValidBut(l);
    }

    method Move(id: int, delta: int, hint: int)
      requires Valid() && Has(id) && -1 <= delta <= 1 && 0 <= hint < leaves[LeafOf(span, id)].nall
      modifies this, leaves
      ensures Shape() && nfree == old(nfree) + delta && leaves[LeafOf(span, id)].next == hint
      ensures Map() == if delta == 0 then old(Map()) else Flip(span, old(Map()), id)
      ensures Valid() <==> Drift(old(IsFree(id)), delta) == 0
    {
      hide LeafOf, SlotOf, Count, Sum, Drift;
      MoveAt(LeafOf(span, id), SlotOf(span, id), delta, hint);
    }

    lemma ValidBut(l: int)
      requires Shape() && 0 <= l < |leaves| && nfree == Sum(Frees())
      requires forall i: int :: 0 <= i < |leaves| && i != l ==> leaves[i].Valid()
      ensures Valid() <==> leaves[l].Valid()
    {
    }

    // pfs_anode_free: the object goes back.  The counts stay true exactly if it was not free.
    method Free(id: int)
      requires Valid() && Has(id)
      modifies this, leaves
      ensures Shape() && nfree == old(nfree) + 1 && Map() == Flip(span, old(Map()), id)
      ensures leaves[LeafOf(span, id)].next ==
        if SlotOf(span, id) < old(leaves[LeafOf(span, id)].next) then SlotOf(span, id)
        else old(leaves[LeafOf(span, id)].next)
      ensures Valid() <==> !old(IsFree(id))
    {
      hide LeafOf, SlotOf, Count, Sum, Flip;
      var slot, next := SlotOf(span, id), leaves[LeafOf(span, id)].next;
      Move(id, 1, if slot < next then slot else next);
    }

    // pfs_anode_visit with pfs_metaobj_use_one, and pfs_anode_redo and pfs_anode_undo: an object
    // changes hands outside the search.  The counts stay true exactly if the change fits its bit.
    method Change(id: int, delta: int, rewind: bool)
      requires Valid() && Has(id) && -1 <= delta <= 1
      modifies this, leaves
      ensures Shape() && nfree == old(nfree) + delta
      ensures Map() == if delta == 0 then old(Map()) else Flip(span, old(Map()), id)
      ensures Valid() <==> delta == 0 || (delta == 1 <==> !old(IsFree(id)))
    {
      hide LeafOf, SlotOf, Count, Sum, Flip;
      Move(id, delta, if rewind then 0 else leaves[LeafOf(span, id)].next);
    }
  }

  method OneUsed() returns (t: Tree)
    ensures fresh(t) && fresh(t.leaves) && t.Valid() && t.span == 1 && t.nfree == 0 && t.Map() == [[false]]
  {
    var leaf := new Leaf(0, [true]);
    t := new Tree(1, [leaf]);
    assert leaf.bits == [false] && Count(leaf.bits) == 0;
    assert t.Frees() == [0] && Sum([0]) == 0;
  }

  lemma OneFlip()
    ensures InMap(1, [[false]], 0) && Flip(1, [[false]], 0) == [[true]]
    ensures InMap(1, [[true]], 0) && Flip(1, [[true]], 0) == [[false]]
    ensures FreeIn(1, [[true]], 0) && !FreeIn(1, [[false]], 0)
  {
    assert [false][0 := true] == [true] && [true][0 := false] == [false];
    assert [[false]][0 := [true]] == [[true]] && [[true]][0 := [false]] == [[false]];
  }

  // One object, in use, given back twice: the count says two are free, and its bit that none is.
  method FreeTwice() returns (t: Tree)
    ensures fresh(t) && t.Shape() && t.span == 1 && t.nfree == 2 && t.Map() == [[false]] && !t.Valid()
  {
    hide InMap, FreeIn, Flip, LeafOf, SlotOf, Count, Sum;
    OneFlip();
    t := OneUsed();
    InTree(t, 0);
    t.Free(0);
    InTree(t, 0);
    t.Free(0);
  }

  lemma NotDry(span: int, bits: seq<seq<bool>>, id: int, ok: int -> bool)
    requires FreeIn(span, bits, id) && ok(id)
    ensures !Dry(span, bits[LeafOf(span, id)], LeafOf(span, id), ok) && 0 <= LeafOf(span, id) < |bits|
  {
    DecodeMakes(span, id);
    assert Fine(span, LeafOf(span, id), ok, SlotOf(span, id));
  }

  // The leaves from m on, in turn, up to l had nothing to give.
  ghost predicate DryUpTo(span: int, bits: seq<seq<bool>>, m: int, l: int, ok: int -> bool) {
    forall i: int :: 0 <= i < |bits| && Earlier(m, i, l) ==> Dry(span, bits[i], i, ok)
  }

  ghost function Firsts(leaves: seq<Leaf>, n: int): (r: seq<int>)
    requires 0 <= n <= |leaves|
    reads leaves
    ensures |r| == n
  {
    seq(n, i requires 0 <= i < n reads leaves => leaves[i].nfree)
  }

  lemma {:induction false} SumMore(s: seq<int>, x: int)
    ensures Sum(s + [x]) == Sum(s) + x
  {
    if s == [] {
      assert s + [x] == [x];
    } else {
      SumMore(s[1..], x);
      assert (s + [x])[1..] == s[1..] + [x];
    }
  }

  // ---- whole runs

  // Everything held was free at first and is not now; everything else is as it was at first.
  ghost predicate Held(span: int, first: seq<seq<bool>>, now: seq<seq<bool>>, held: seq<int>) {
    && Distinct(held)
    && (forall i: int :: 0 <= i < |held| ==>
      InMap(span, now, held[i]) && FreeIn(span, first, held[i]) && !FreeIn(span, now, held[i]))
    && (forall id: int :: id !in held ==> FreeIn(span, now, id) == FreeIn(span, first, id))
  }

  lemma HoldMore(span: int, first: seq<seq<bool>>, now: seq<seq<bool>>, held: seq<int>, id: int)
    requires Held(span, first, now, held) && FreeIn(span, now, id)
    ensures id !in held && FreeIn(span, first, id) && Held(span, first, Flip(span, now, id), held + [id])
  {
    hide FreeIn, InMap, Flip;
    assert InMap(span, now, id) by { FreeIsIn(span, now, id); }
    forall other: int
      ensures InMap(span, Flip(span, now, id), other) == InMap(span, now, other)
      ensures FreeIn(span, Flip(span, now, id), other) ==
        if other == id then !FreeIn(span, now, id) else FreeIn(span, now, other)
    {
      FlipOne(span, now, id, other);
    }
  }

  lemma FreeIsIn(span: int, bits: seq<seq<bool>>, id: int)
    requires FreeIn(span, bits, id)
    ensures InMap(span, bits, id)
  {
  }

  lemma HoldLess(span: int, first: seq<seq<bool>>, now: seq<seq<bool>>, held: seq<int>, k: int)
    requires Held(span, first, now, held) && 0 <= k < |held|
    ensures Held(span, first, Flip(span, now, held[k]), held[..k] + held[k + 1..])
  {
    hide FreeIn, InMap, Flip;
    var id, rest := held[k], held[..k] + held[k + 1..];
    forall other: int
      ensures InMap(span, Flip(span, now, id), other) == InMap(span, now, other)
      ensures FreeIn(span, Flip(span, now, id), other) ==
        if other == id then !FreeIn(span, now, id) else FreeIn(span, now, other)
    {
      FlipOne(span, now, id, other);
    }
    assert forall i: int :: 0 <= i < |rest| ==> rest[i] == held[if i < k then i else i + 1];
    assert forall x: int :: x in held && x != id ==> x in rest;
  }

  // Requests in any order: ask for an object that may be let go now, or give the k-th object held back.
  datatype Request = Ask(ok: int -> bool) | Give(k: nat)

  function Hands(held: seq<int>, r: Request, answer: Option<int>): seq<int> {
    match r
    case Ask(_) => if answer.Some? then held + [answer.value] else held
    case Give(k) => if k < |held| then held[..k] + held[k + 1..] else held
  }

  // What the user holds after the requests and their answers.
  function HeldAfter(requests: seq<Request>, answers: seq<Option<int>>): seq<int>
    requires |answers| == |requests|
  {
    var n := |requests| - 1;
    if n < 0 then [] else Hands(HeldAfter(requests[..n], answers[..n]), requests[n], answers[n])
  }

  // An ask gets an object that was free at first, is not held and may be let go, if there is one.
  ghost predicate Right(span: int, first: seq<seq<bool>>, held: seq<int>, r: Request, answer: Option<int>) {
    match r
    case Ask(ok) =>
      if answer.Some? then FreeIn(span, first, answer.value) && answer.value !in held && ok(answer.value)
      else forall id: int :: FreeIn(span, first, id) && id !in held ==> !ok(id)
    case Give(_) => answer == None
  }

  ghost predicate Served(span: int, first: seq<seq<bool>>, requests: seq<Request>, answers: seq<Option<int>>) {
    && |answers| == |requests|
    && forall k: nat :: k < |requests| ==>
         Right(span, first, HeldAfter(requests[..k], answers[..k]), requests[k], answers[k])
  }

  // Every ask is granted if any free object may be let go then; no object is held twice, and none
  // is lost or made up.
  method Serve(t: Tree, requests: seq<Request>) returns (answers: seq<Option<int>>)
    requires t.Valid()
    modifies t, t.leaves
    ensures Served(t.span, old(t.Map()), requests, answers)
    ensures t.Valid() && t.nfree + |HeldAfter(requests, answers)| == old(t.nfree)
    ensures Held(t.span, old(t.Map()), t.Map(), HeldAfter(requests, answers))
  {
    hide Held, HeldAfter, Served, Right, Hands;
    ghost var first := t.Map();
    answers := [];
    var held := [];
    ServeNone(t.span, first, requests);
    for i := 0 to |requests|
      invariant t.Valid() && t.nfree + |held| == old(t.nfree) && |answers| == i
      invariant Served(t.span, first, requests[..i], answers) && held == HeldAfter(requests[..i], answers)
      invariant Held(t.span, first, t.Map(), held)
    {
      var answer;
      held, answer := ServeOne(t, first, held, requests[i]);
      ServeMore(t.span, first, requests, answers, i, answer);
      answers := answers + [answer];
    }
    assert requests[..|requests|] == requests;
  }

  method ServeOne(t: Tree, ghost first: seq<seq<bool>>, held: seq<int>, r: Request)
    returns (next: seq<int>, answer: Option<int>)
    requires t.Valid() && Held(t.span, first, t.Map(), held)
    modifies t, t.leaves
    ensures t.Valid() && t.nfree + |next| == old(t.nfree) + |held|
    ensures next == Hands(held, r, answer) && Right(t.span, first, held, r, answer)
    ensures Held(t.span, first, t.Map(), next)
  {
    hide Held, FreeIn, InMap, Flip, LeafOf, SlotOf, Dry, DryUpTo, Fullest;
    ghost var now := t.Map();
    next, answer := held, None;
    match r
    case Ask(ok) =>
      var found, id := t.Alloc(ok);
      if found {
        HoldMore(t.span, first, now, held, id);
        next, answer := held + [id], Some(id);
      } else {
        RefusedAll(t.span, first, now, held, ok);
      }
    case Give(k) =>
      if k < |held| {
        HoldFacts(t.span, first, now, held, k);
        InTree(t, held[k]);
        t.Free(held[k]);
        HoldLess(t.span, first, now, held, k);
        next := held[..k] + held[k + 1..];
      }
  }

  lemma RefusedAll(span: int, first: seq<seq<bool>>, now: seq<seq<bool>>, held: seq<int>, ok: int -> bool)
    requires Held(span, first, now, held) && forall i: int :: 0 <= i < |now| ==> Dry(span, now[i], i, ok)
    ensures forall id: int :: FreeIn(span, first, id) && id !in held ==> !ok(id)
  {
    hide Dry, LeafOf, SlotOf;
    forall id: int | FreeIn(span, first, id) && id !in held ensures !ok(id) {
      if ok(id) {
        NotDry(span, now, id, ok);
      }
    }
  }

  lemma ServeNone(span: int, first: seq<seq<bool>>, requests: seq<Request>)
    ensures Served(span, first, requests[..0], []) && HeldAfter(requests[..0], []) == []
    ensures Held(span, first, first, [])
  {
    HoldNone(span, first);
  }

  lemma ServeMore(span: int, first: seq<seq<bool>>, requests: seq<Request>, answers: seq<Option<int>>, k: nat,
                  answer: Option<int>)
    requires k < |requests| && Served(span, first, requests[..k], answers)
    requires Right(span, first, HeldAfter(requests[..k], answers), requests[k], answer)
    ensures Served(span, first, requests[..k + 1], answers + [answer])
    ensures HeldAfter(requests[..k + 1], answers + [answer]) ==
            Hands(HeldAfter(requests[..k], answers), requests[k], answer)
  {
    hide Right, Hands, HeldAfter;
    HeldMore(requests, answers, k, answer);
    var now, said := requests[..k + 1], answers + [answer];
    assert now[..k] == requests[..k] && said[..k] == answers;
    assert forall i: nat :: i < k ==> now[..i] == requests[..k][..i] && said[..i] == answers[..i];
  }

  lemma HeldMore(requests: seq<Request>, answers: seq<Option<int>>, k: nat, answer: Option<int>)
    requires k < |requests| && |answers| == k
    ensures HeldAfter(requests[..k + 1], answers + [answer]) ==
            Hands(HeldAfter(requests[..k], answers), requests[k], answer)
  {
    var now, said := requests[..k + 1], answers + [answer];
    assert now[..k] == requests[..k] && said[..k] == answers;
  }

  lemma HoldNone(span: int, bits: seq<seq<bool>>)
    ensures Held(span, bits, bits, [])
  {
  }

  lemma HoldFacts(span: int, first: seq<seq<bool>>, now: seq<seq<bool>>, held: seq<int>, k: int)
    requires Held(span, first, now, held) && 0 <= k < |held|
    ensures InMap(span, now, held[k]) && !FreeIn(span, now, held[k])
  {
  }

  lemma InTree(t: Tree, id: int)
    requires InMap(t.span, t.Map(), id)
    ensures t.Has(id) && t.IsFree(id) == FreeIn(t.span, t.Map(), id)
  {
  }
}
